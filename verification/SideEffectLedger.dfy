/** The run store's ledger of side effects: claims and updates under the run's lock, against the
    copy on disk, from any number of task-state handles of one run. */
module SideEffectLedger {
  import opened Wrappers

  type Key = string

  datatype Entry = Entry(tool: string, digest: string, state: string, created: nat, updated: nat, result: string)

  type Ledger = map<Key, Entry>

  datatype Claimed = EmptyKey | Granted(entry: Entry) | Refused(conflict: bool, entry: Entry)

  datatype Updated = NotClaimed | Stored(entry: Entry)

  predicate SameIdentity(a: Entry, b: Entry) { a.tool == b.tool && a.digest == b.digest }

  function NewEntry(tool: string, digest: string, now: nat): Entry { Entry(tool, digest, "claimed", now, now, "") }

  function ClaimOf(disk: Ledger, key: Key, tool: string, digest: string, now: nat): Claimed
  {
    if key == "" then EmptyKey
    else if key in disk then Refused(disk[key].tool != tool || disk[key].digest != digest, disk[key])
    else Granted(NewEntry(tool, digest, now))
  }

  class TaskState {
    var ledger: Ledger

    constructor (ledger: Ledger)
      ensures this.ledger == ledger
    {
      this.ledger := ledger;
    }
  }

  class RunStore {
    var disk: Ledger

    /** A state of the step relation below, outside the lock, seen from handle `h`. */
    ghost predicate Shows(s: State, h: nat, t: TaskState)
      reads this, t
    {
      s.disk == disk && s.held.None? && s.copies == map[] && LedgerOf(s, h) == t.ledger
    }

    /** `start_run` writes the first file. */
    constructor (t: TaskState)
      ensures disk == t.ledger
    {
      disk := t.ledger;
    }

    method ClaimSideEffect(t: TaskState, key: Key, tool: string, digest: string, now: nat) returns (r: Claimed)
      modifies this, t
      ensures r == ClaimOf(old(disk), key, tool, digest, now)
      ensures r.Granted? ==>
                && r.entry.tool == tool && r.entry.digest == digest
                && r.entry.state == "claimed" && r.entry.result == ""
                && r.entry.created == r.entry.updated == now
      ensures disk == if r.Granted? then old(disk)[key := r.entry] else old(disk)
      ensures t.ledger == if r.EmptyKey? then old(t.ledger) else disk
      ensures forall s, h :: old(Shows(s, h, t)) ==> Shows(Step(s, Claim(h, key, tool, digest, now)), h, t)
    {
      if key == "" { return EmptyKey; }
      var ledger := disk;
      if key in ledger {
        var previous := ledger[key];
        var same := previous.tool == tool && previous.digest == digest;
        t.ledger := ledger;
        return Refused(!same, previous);
      }
      var entry := NewEntry(tool, digest, now);
      ledger := ledger[key := entry];
      disk := ledger;
      t.ledger := ledger;
      return Granted(entry);
    }

    method UpdateSideEffect(t: TaskState, key: Key, state: string, result: string, now: nat) returns (r: Updated)
      modifies this, t
      ensures key !in old(disk) ==> r == NotClaimed && disk == old(disk) && t.ledger == old(t.ledger)
      ensures key in old(disk) ==>
                var entry := old(disk)[key].(state := state, updated := now, result := result);
                r == Stored(entry) && disk == old(disk)[key := entry] && t.ledger == disk
      ensures forall s, h :: old(Shows(s, h, t)) ==> Shows(Step(s, Update(h, key, state, result, now)), h, t)
    {
      var ledger := disk;
      if key !in ledger { return NotClaimed; }
      var entry := ledger[key].(state := state, updated := now, result := result);
      ledger := ledger[key := entry];
      disk := ledger;
      t.ledger := ledger;
      return Stored(entry);
    }

    /** Writes the handle's own ledger, whatever the file holds. */
    method WriteTaskState(t: TaskState)
      modifies this
      ensures disk == t.ledger
      ensures forall s, h :: old(Shows(s, h, t)) ==> Shows(Step(s, Write(0, h)), h, t)
    {
      disk := t.ledger;
    }
  }

  // -------------------------------------------------------- interleaved runs

  /** The file, what the holder of the run's lock has read from it, the ledgers that writers have copied
      from their handles and not written yet, and the ledgers of the handles. */
  datatype State = State(disk: Ledger, held: Option<Ledger>, copies: map<nat, Ledger>, handles: map<nat, Ledger>)

  /** A claim or update takes the lock and reads the file (`Enter`), then decides, writes and leaves. A
      write takes no lock, so it may fall in between; it copies the handle's ledger (`Copy`) and then
      replaces the file, and anything may fall in between too. Without `Enter` or `Copy` a claim, update
      or write is undisturbed. */
  datatype Event =
    | Enter
    | Claim(handle: nat, key: Key, tool: string, digest: string, now: nat)
    | Update(handle: nat, key: Key, state: string, result: string, now: nat)
    | Copy(writer: nat, handle: nat)
    | Write(writer: nat, handle: nat)

  function LedgerOf(s: State, handle: nat): Ledger { if handle in s.handles then s.handles[handle] else map[] }

  /** The ledger a claim or update decides on. */
  function Read(s: State): Ledger { if s.held.Some? then s.held.value else s.disk }

  /** The ledger a writer puts in the file. */
  function Copied(s: State, writer: nat, handle: nat): Ledger
  {
    if writer in s.copies then s.copies[writer] else LedgerOf(s, handle)
  }

  function Step(s: State, e: Event): State
  {
    match e
    case Enter => s.(held := Some(s.disk))
    case Claim(h, key, tool, digest, now) =>
      var r := ClaimOf(Read(s), key, tool, digest, now);
      if r.EmptyKey? then s.(held := None)
      else if r.Refused? then s.(held := None, handles := s.handles[h := Read(s)])
      else
        var ledger := Read(s)[key := r.entry];
        s.(disk := ledger, held := None, handles := s.handles[h := ledger])
    case Update(h, key, state, result, now) =>
      if key !in Read(s) then s.(held := None)
      else
        var ledger := Read(s)[key := Read(s)[key].(state := state, updated := now, result := result)];
        s.(disk := ledger, held := None, handles := s.handles[h := ledger])
    case Copy(w, h) => s.(copies := s.copies[w := LedgerOf(s, h)])
    case Write(w, h) => s.(disk := Copied(s, w, h), copies := s.copies - {w})
  }

  function After(s: State, run: seq<Event>, n: nat): State
    requires n <= |run|
  {
    if n == 0 then s else Step(After(s, run, n - 1), run[n - 1])
  }

  // ------------------------------------------------------- what one step does to a key

  predicate Grants(s: State, e: Event, key: Key)
  {
    e.Claim? && e.key == key && ClaimOf(Read(s), e.key, e.tool, e.digest, e.now).Granted?
  }

  /** A claim or update that writes the file. */
  predicate Stores(s: State, e: Event)
  {
    (e.Claim? && Grants(s, e, e.key)) || (e.Update? && e.key in Read(s))
  }

  /** The step takes the key out of the file. */
  predicate Drops(s: State, e: Event, key: Key) { key in s.disk && key !in Step(s, e).disk }

  /** A key on disk can be claimed again after a step exactly when the step drops it; and a step drops it
      exactly when it writes a ledger that misses it, or it stores what was read, under the lock, before
      the key came to the file. */
  lemma {:induction false} ReopensIff(s: State, e: Event, key: Key, tool: string, digest: string, now: nat)
    requires key in s.disk && key != ""
    ensures ClaimOf(Step(s, e).disk, key, tool, digest, now).Granted? <==> Drops(s, e, key)
    ensures Drops(s, e, key) <==>
      (e.Write? && key !in Copied(s, e.writer, e.handle)) || (Stores(s, e) && key !in Read(s) && key != e.key)
  {
  }

  /** Outside the lock no claim or update drops anything. */
  lemma {:induction false} OnlyWritesDrop(s: State, e: Event, key: Key)
    requires s.held.None? && Drops(s, e, key)
    ensures e.Write? && key !in Copied(s, e.writer, e.handle)
  {
  }

  /** `b` has every key of `a`, with the same tool and arguments. */
  predicate Extends(a: Ledger, b: Ledger)
  {
    forall k :: k in a ==> k in b && SameIdentity(a[k], b[k])
  }

  /** Outside the lock, a step keeps every key with its identity exactly when it is no write of a
      ledger that lacks or contradicts an entry on disk. */
  lemma {:induction false} StepExtendsIff(s: State, e: Event)
    requires s.held.None?
    ensures Extends(s.disk, Step(s, e).disk) <==> (e.Write? ==> Extends(s.disk, Copied(s, e.writer, e.handle)))
  {
  }

  /** A writer puts in the file what its handle held when it copied, whatever happens until then. */
  lemma {:induction false} WritesWhatWasCopied(s: State, w: nat, h: nat, run: seq<Event>, n: nat, h': nat)
    requires n <= |run| && forall i :: 0 <= i < n ==> (run[i].Copy? || run[i].Write? ==> run[i].writer != w)
    ensures var t := After(Step(s, Copy(w, h)), run, n);
      && w in t.copies && t.copies[w] == (if h in s.handles then s.handles[h] else map[])
      && Step(t, Write(w, h')).disk == t.copies[w]
  {
    if n > 0 { WritesWhatWasCopied(s, w, h, run, n - 1, h'); }
  }

  // ----------------------------------------------------- how often a key is granted

  function GrantsTo(s: State, run: seq<Event>, n: nat, key: Key): nat
    requires n <= |run|
  {
    if n == 0 then 0 else GrantsTo(s, run, n - 1, key) + if Grants(After(s, run, n - 1), run[n - 1], key) then 1 else 0
  }

  function DropsTo(s: State, run: seq<Event>, n: nat, key: Key): nat
    requires n <= |run|
  {
    if n == 0 then 0 else DropsTo(s, run, n - 1, key) + if Drops(After(s, run, n - 1), run[n - 1], key) then 1 else 0
  }

  /** One if a claim decided now would find the key. */
  function Secured(s: State, key: Key): nat { if key in s.disk && key in Read(s) then 1 else 0 }

  lemma {:induction false} StepAccounts(s: State, e: Event, key: Key)
    ensures Secured(s, key) + (if Grants(s, e, key) then 1 else 0)
      <= Secured(Step(s, e), key) + if Drops(s, e, key) then 1 else 0
  {
  }

  /** Over every interleaving a key is granted at most once more than it is dropped, and a key that was
      on disk at the start no more often than it is dropped. */
  lemma {:induction false} GrantsAreAccountedFor(s: State, run: seq<Event>, n: nat, key: Key)
    requires n <= |run|
    ensures Secured(s, key) + GrantsTo(s, run, n, key) <= Secured(After(s, run, n), key) + DropsTo(s, run, n, key)
  {
    if n > 0 {
      GrantsAreAccountedFor(s, run, n - 1, key);
      StepAccounts(After(s, run, n - 1), run[n - 1], key);
    }
  }

  /** The key is not dropped in the first `n` steps. */
  predicate Undropped(s: State, run: seq<Event>, n: nat, key: Key)
    requires n <= |run|
  {
    forall i :: 0 <= i < n ==> !Drops(After(s, run, i), run[i], key)
  }

  lemma {:induction false} NoneDropped(s: State, run: seq<Event>, n: nat, key: Key)
    requires n <= |run| && Undropped(s, run, n, key)
    ensures DropsTo(s, run, n, key) == 0
  {
    if n > 0 { NoneDropped(s, run, n - 1, key); }
  }

  /** So a key that is never dropped is granted at most once, and not at all if it was on disk at the
      start; whatever happens to other keys. */
  lemma {:induction false} GrantedAtMostOnce(s: State, run: seq<Event>, n: nat, key: Key)
    requires n <= |run| && s.held.None? && Undropped(s, run, n, key)
    ensures GrantsTo(s, run, n, key) <= if key in s.disk then 0 else 1
  {
    NoneDropped(s, run, n, key);
    GrantsAreAccountedFor(s, run, n, key);
  }

  lemma {:induction false} DropBetween(s: State, run: seq<Event>, n: nat, key: Key) returns (m: nat)
    requires n <= |run| && Secured(s, key) > Secured(After(s, run, n), key)
    ensures m < n && Drops(After(s, run, m), run[m], key)
  {
    StepAccounts(After(s, run, n - 1), run[n - 1], key);
    if Drops(After(s, run, n - 1), run[n - 1], key) { m := n - 1; } else { m := DropBetween(s, run, n - 1, key); }
  }

  /** Between two grants of one key, from the first (`e`, at `s`) on, some step drops the key. */
  lemma {:induction false} GrantedAgainOnlyAfterDrop(
      s: State, e: Event, run: seq<Event>, later: Event, key: Key) returns (m: nat)
    requires Grants(s, e, key) && Grants(After(Step(s, e), run, |run|), later, key)
    ensures m < |run| && Drops(After(Step(s, e), run, m), run[m], key)
  {
    m := DropBetween(Step(s, e), run, |run|, key);
  }

  // ----------------------------------------------------------- the identity of a key

  /** A ledger that has the key has it with the tool and the arguments of the entry on disk. */
  predicate Agrees(s: State, ledger: Ledger, key: Key)
  {
    key in ledger ==> key in s.disk && SameIdentity(s.disk[key], ledger[key])
  }

  /** Every copy of the key's entry, in a handle, on its way to the file or read under the lock, agrees with
      the entry on disk, and the lock's holder has read the entry if there is one. */
  ghost predicate Clean(s: State, key: Key)
  {
    && (forall h :: h in s.handles ==> Agrees(s, s.handles[h], key))
    && (forall w :: w in s.copies ==> Agrees(s, s.copies[w], key))
    && Agrees(s, Read(s), key) && (key in s.disk ==> key in Read(s))
  }

  lemma {:induction false} StepKeepsClean(s: State, e: Event, key: Key)
    requires Clean(s, key) && !Drops(s, e, key)
    ensures Clean(Step(s, e), key)
    ensures key in s.disk ==> key in Step(s, e).disk && SameIdentity(s.disk[key], Step(s, e).disk[key])
  {
    if e.Write? || e.Copy? { WritingKeepsClean(s, e, key); }
    else { ClaimingKeepsClean(s, e, key); }
  }

  lemma {:induction false} WritingKeepsClean(s: State, e: Event, key: Key)
    requires Clean(s, key) && !Drops(s, e, key) && (e.Write? || e.Copy?)
    ensures Clean(Step(s, e), key)
    ensures key in s.disk ==> SameIdentity(s.disk[key], Step(s, e).disk[key])
  {
  }

  lemma {:induction false} ClaimingKeepsClean(s: State, e: Event, key: Key)
    requires Clean(s, key) && !Drops(s, e, key) && !e.Write? && !e.Copy?
    ensures Clean(Step(s, e), key)
    ensures key in s.disk ==> SameIdentity(s.disk[key], Step(s, e).disk[key])
  {
  }

  /** A key that is not dropped stays on disk, and its tool and arguments never change. */
  lemma {:induction false} EntriesPersist(s: State, run: seq<Event>, n: nat, key: Key)
    requires n <= |run| && Clean(s, key) && Undropped(s, run, n, key)
    ensures Clean(After(s, run, n), key)
    ensures key in s.disk ==>
              var t := After(s, run, n);
              key in t.disk && t.disk[key].tool == s.disk[key].tool && t.disk[key].digest == s.disk[key].digest
  {
    if n > 0 {
      EntriesPersist(s, run, n - 1, key);
      StepKeepsClean(After(s, run, n - 1), run[n - 1], key);
    }
  }

  /** Once a key is granted, and until it is dropped, every later claim of it is refused, and reported as a
      conflict exactly when tool or arguments differ from those of the granted claim. */
  lemma {:induction false} LaterClaimsRefused(s: State, e: Event, run: seq<Event>, n: nat, later: Event)
    requires e.Claim? && Grants(s, e, e.key) && Clean(s, e.key) && later.Claim? && later.key == e.key
    requires n <= |run| && Undropped(Step(s, e), run, n, e.key)
    ensures var r := ClaimOf(Read(After(Step(s, e), run, n)), later.key, later.tool, later.digest, later.now);
      r.Refused? && (r.conflict <==> e.tool != later.tool || e.digest != later.digest)
  {
    StepKeepsClean(s, e, e.key);
    EntriesPersist(Step(s, e), run, n, e.key);
  }

  /** From the moment `start_run` has written the file, with handles that know nothing else: a key that
      no write drops is granted at most once, and every copy of its entry keeps one identity. */
  lemma {:induction false} RunGrantsOnce(first: Ledger, handles: map<nat, Ledger>, run: seq<Event>, key: Key)
    requires forall h :: h in handles ==> Extends(handles[h], first)
    requires Undropped(State(first, None, map[], handles), run, |run|, key)
    ensures GrantsTo(State(first, None, map[], handles), run, |run|, key) <= if key in first then 0 else 1
    ensures Clean(After(State(first, None, map[], handles), run, |run|), key)
  {
    GrantedAtMostOnce(State(first, None, map[], handles), run, |run|, key);
    EntriesPersist(State(first, None, map[], handles), run, |run|, key);
  }

  /** A write of a ledger that does not know a claimed key lets the key be granted again. */
  lemma {:induction false} StaleWriteGrantsAgain(
      s: State, writer: nat, stale: nat, key: Key, tool: string, digest: string, now: nat)
    requires s.held.None? && key != "" && key in s.disk && key !in Copied(s, writer, stale)
    ensures ClaimOf(Read(s), key, tool, digest, now).Refused?
    ensures ClaimOf(Read(Step(s, Write(writer, stale))), key, tool, digest, now).Granted?
  {
    assert key in s.disk;
  }

  /** After a claim or update the handle's ledger is what the lock's holder read, with the entry stored, so
      its own next write drops nothing that was on disk right after. */
  lemma {:induction false} OwnWriteIsSafe(s: State, e: Event, writer: nat, key: Key)
    requires Stores(s, e) && writer !in s.copies
    ensures LedgerOf(Step(s, e), e.handle) == Step(s, e).disk && !Drops(Step(s, e), Write(writer, e.handle), key)
  {
  }

  /** Not so when the write copied the ledger before the claim on the same handle: the key just granted is
      dropped, although the handle knows it. */
  lemma {:induction false} EarlierCopyDrops(s: State, e: Event, writer: nat)
    requires s.held.None? && e.Claim? && Grants(s, e, e.key) && Agrees(s, LedgerOf(s, e.handle), e.key)
    ensures var t := Step(Step(s, Copy(writer, e.handle)), e);
      e.key in LedgerOf(t, e.handle) && Drops(t, Write(writer, e.handle), e.key)
  {
  }
}
