/** The automation scheduler: persistent at/every/cron jobs, marked under the lock and submitted
    outside it, with failing submissions, failing saves and restarts. */
module Automation {
  import opened Wrappers
  import opened Sorting
  import opened CronSchedule

  type Id = string

  datatype Schedule = At(time: Time) | Every(seconds: real) | Cron(cron: CronSchedule.Cron)

  datatype Job = Job(
    id: Id, session: string, conversation: string, message: string, schedule: Schedule,
    enabled: bool, next: Option<Time>, submitted: Option<Time>, error: string, status: string)

  type Jobs = map<Id, Job>

  /** A duration in seconds as microseconds, rounded half to even. */
  function Micros(seconds: real): int
  {
    var x := seconds * 1000000.0;
    var below := x.Floor;
    var part := x - below as real;
    if part < 0.5 || (part == 0.5 && below % 2 == 0) then below else below + 1
  }

  lemma {:induction false} MicrosPositiveIff(seconds: real)
    ensures Micros(seconds) >= 1 <==> seconds * 1000000.0 > 0.5
  {
  }

  // ----------------------------------------------------- jobs and their mappings

  /** A job as a mapping; `schedule` is `None` when it does not parse. */
  datatype Raw = Raw(
    id: string, session: string, conversation: string, message: string, schedule: Option<Schedule>,
    enabled: bool, next: Option<Time>, submitted: Option<Time>, error: string, status: string)

  predicate IdChar(c: char)
  {
    'A' <= c <= 'Z' || 'a' <= c <= 'z' || '0' <= c <= '9' || c == '_' || c == '.' || c == '-'
  }

  predicate ValidId(id: string) { 1 <= |id| <= 96 && forall i :: 0 <= i < |id| ==> IdChar(id[i]) }

  function FirstRun(cal: Calendar, s: Schedule, now: Time): Option<Time>
  {
    match s
    case At(t) => Some(t)
    case Every(seconds) => Some(now + Micros(seconds))
    case Cron(c) => NextMatch(cal, c, now)
  }

  function FromMapping(cal: Calendar, raw: Raw, now: Time): Result<Job>
  {
    if !ValidId(raw.id) then Error("cron job id is invalid")
    else if raw.session == "" || raw.message == "" then Error("cron job requires session_id and message")
    else if raw.schedule.None? || (raw.schedule.value.Every? && raw.schedule.value.seconds <= 0.0) then
      Error("invalid schedule")
    else
      var next := if raw.next.Some? then raw.next else FirstRun(cal, raw.schedule.value, now);
      if next.None? then Error("cron schedule has no match within one year")
      else
        Ok(Job(raw.id, raw.session, if raw.conversation == "" then raw.session else raw.conversation, raw.message,
               raw.schedule.value, raw.enabled, next, raw.submitted, raw.error,
               if raw.status == "" then "scheduled" else raw.status))
  }

  function ToMapping(j: Job): Raw
  {
    Raw(j.id, j.session, j.conversation, j.message, Some(j.schedule), j.enabled, j.next, j.submitted, j.error, j.status)
  }

  /** What every job of a scheduler satisfies; only a completed `at` job has no next run. */
  predicate ValidJob(id: Id, j: Job)
  {
    && j.id == id && ValidId(id)
    && j.session != "" && j.message != "" && j.conversation != "" && j.status != ""
    && (j.schedule.Every? ==> j.schedule.seconds > 0.0)
    && (j.next.None? ==> j.schedule.At? && !j.enabled)
  }

  /** A job after a restart: a completed `at` job shows its time again, but stays disabled. */
  function Reloaded(j: Job): Job
  {
    if j.next.None? && j.schedule.At? then j.(next := Some(j.schedule.time)) else j
  }

  lemma {:induction false} NewJobIsValid(cal: Calendar, raw: Raw, now: Time)
    requires FromMapping(cal, raw, now).Ok?
    ensures ValidJob(raw.id, FromMapping(cal, raw, now).value)
  {
  }

  /** Writing a job and reading it back succeeds and gives the same job, but for that. */
  lemma {:induction false} RestartRoundTrip(cal: Calendar, id: Id, j: Job, now: Time)
    requires ValidJob(id, j)
    ensures FromMapping(cal, ToMapping(j), now) == Ok(Reloaded(j)) && ValidJob(id, Reloaded(j))
  {
  }

  // ------------------------------------------------------------------ one tick

  predicate Due(j: Job, now: Time) { j.enabled && j.next.Some? && j.next.value <= now }

  function Unmatched(cal: Calendar, j: Job, now: Time): bool
  {
    j.schedule.Cron? && NextMatch(cal, j.schedule.cron, now).None?
  }

  /** A due job about to be submitted; when its cron schedule has no next match, only the first two
      assignments happen before the error. */
  function MarkOne(cal: Calendar, j: Job, now: Time): Job
  {
    var m := j.(submitted := Some(now), error := "");
    match j.schedule
    case At(_) => m.(enabled := false, status := "completed", next := None)
    case Every(seconds) => m.(next := Some(now + Micros(seconds)), status := "scheduled")
    case Cron(c) => if Unmatched(cal, j, now) then m else m.(next := NextMatch(cal, c, now), status := "scheduled")
  }

  /** A job whose submission failed; an `at` job is enabled again. */
  function FailOne(j: Job, now: Time, interval: int, message: string): Job
  {
    var m := j.(error := message, status := "submit_failed");
    if j.schedule.At? then m.(enabled := true, next := Some(now + interval)) else m
  }

  ghost predicate AllValid(jobs: Jobs) { forall k :: k in jobs ==> ValidJob(k, jobs[k]) }

  lemma {:induction false} ValidWith(jobs: Jobs, id: Id, j: Job)
    requires AllValid(jobs) && ValidJob(id, j)
    ensures AllValid(jobs[id := j])
  {
  }

  lemma {:induction false} MarkedValid(cal: Calendar, id: Id, j: Job, now: Time)
    requires ValidJob(id, j)
    ensures ValidJob(id, MarkOne(cal, j, now))
  {
  }

  lemma {:induction false} MarkAllValid(cal: Calendar, jobs: Jobs, due: seq<Id>, now: Time, n: nat)
    requires n <= |due| && (forall k :: k in due ==> k in jobs) && AllValid(jobs)
    ensures AllValid(MarkAll(cal, jobs, due, now, n))
  {
    if n > 0 {
      MarkAllValid(cal, jobs, due, now, n - 1);
      var before := MarkAll(cal, jobs, due, now, n - 1);
      MarkedValid(cal, due[n - 1], before[due[n - 1]], now);
      ValidWith(before, due[n - 1], MarkOne(cal, before[due[n - 1]], now));
    }
  }

  function MarkAll(cal: Calendar, jobs: Jobs, due: seq<Id>, now: Time, n: nat): Jobs
    requires n <= |due| && forall k :: k in due ==> k in jobs
    ensures MarkAll(cal, jobs, due, now, n).Keys == jobs.Keys
  {
    if n == 0 then jobs
    else
      var before := MarkAll(cal, jobs, due, now, n - 1);
      before[due[n - 1] := MarkOne(cal, before[due[n - 1]], now)]
  }

  /** How many jobs are reached before one has no next match. */
  function Reached(cal: Calendar, jobs: Jobs, due: seq<Id>, now: Time, n: nat): (k: nat)
    requires n <= |due| && forall k :: k in due ==> k in jobs
    ensures n <= k <= |due|
    ensures forall i :: n <= i < k ==> !Unmatched(cal, jobs[due[i]], now)
    ensures k < |due| ==> Unmatched(cal, jobs[due[k]], now)
    decreases |due| - n
  {
    if n == |due| || Unmatched(cal, jobs[due[n]], now) then n else Reached(cal, jobs, due, now, n + 1)
  }

  /** Every due job has a next match. */
  predicate AllMatched(cal: Calendar, jobs: Jobs, now: Time)
  {
    forall k :: k in jobs && Due(jobs[k], now) ==> !Unmatched(cal, jobs[k], now)
  }

  ghost predicate IsDueList(jobs: Jobs, due: seq<Id>, now: Time)
  {
    Distinct(due) && forall k :: k in due <==> k in jobs && Due(jobs[k], now)
  }

  lemma {:induction false} ReachedAllIff(cal: Calendar, jobs: Jobs, due: seq<Id>, now: Time)
    requires IsDueList(jobs, due, now)
    ensures Reached(cal, jobs, due, now, 0) == |due| <==> AllMatched(cal, jobs, now)
  {
    var k := Reached(cal, jobs, due, now, 0);
    if k < |due| { assert due[k] in due; }
    assert forall x :: x in due ==> x in jobs && Due(jobs[x], now);
  }

  /** The jobs marked: all due ones, or those up to and including the first without a next match. */
  function Marks(cal: Calendar, jobs: Jobs, due: seq<Id>, now: Time): nat
    requires forall k :: k in due ==> k in jobs
  {
    var k := Reached(cal, jobs, due, now, 0);
    if k < |due| then k + 1 else k
  }

  function DueIds(jobs: Jobs, order: seq<Id>, now: Time, n: nat): seq<Id>
    requires n <= |order|
  {
    if n == 0 then []
    else
      var rest := DueIds(jobs, order, now, n - 1);
      if order[n - 1] in jobs && Due(jobs[order[n - 1]], now) then rest + [order[n - 1]] else rest
  }

  ghost predicate Orders(order: seq<Id>, ids: set<Id>) { Distinct(order) && forall k :: k in order <==> k in ids }

  lemma {:induction false} DueExact(jobs: Jobs, order: seq<Id>, now: Time, n: nat)
    requires n <= |order| && Distinct(order)
    ensures var due := DueIds(jobs, order, now, n);
      Distinct(due) && forall k :: k in due <==> k in order[..n] && k in jobs && Due(jobs[k], now)
  {
    if n > 0 {
      DueExact(jobs, order, now, n - 1);
      assert order[..n] == order[..n - 1] + [order[n - 1]];
      assert order[n - 1] !in order[..n - 1];
    }
  }

  lemma {:induction false} MarkAllAt(cal: Calendar, jobs: Jobs, due: seq<Id>, now: Time, n: nat, k: Id)
    requires n <= |due| && forall k :: k in due ==> k in jobs
    requires Distinct(due) && k in jobs
    ensures MarkAll(cal, jobs, due, now, n)[k] == if k in due[..n] then MarkOne(cal, jobs[k], now) else jobs[k]
  {
    if n > 0 {
      MarkAllAt(cal, jobs, due, now, n - 1, k);
      assert due[..n] == due[..n - 1] + [due[n - 1]];
      assert due[n - 1] !in due[..n - 1];
    }
  }

  /** What a completed tick does to one job. */
  function TickJob(cal: Calendar, j: Job, now: Time, interval: int, failure: Option<string>): Job
  {
    if !Due(j, now) then j
    else if failure.None? then MarkOne(cal, j, now)
    else FailOne(MarkOne(cal, j, now), now, interval, failure.value)
  }

  function FailureOf(fails: map<Id, string>, id: Id): Option<string> { if id in fails then Some(fails[id]) else None }

  /** The jobs after the failed ones among the first `n` submissions. */
  function FailAll(jobs: Jobs, due: seq<Id>, fails: map<Id, string>, now: Time, interval: int, n: nat): Jobs
    requires n <= |due| && forall k :: k in due ==> k in jobs
    ensures FailAll(jobs, due, fails, now, interval, n).Keys == jobs.Keys
  {
    if n == 0 then jobs
    else
      var before, id := FailAll(jobs, due, fails, now, interval, n - 1), due[n - 1];
      if id in fails then before[id := FailOne(before[id], now, interval, fails[id])] else before
  }

  lemma {:induction false} FailAllAt(
      jobs: Jobs, due: seq<Id>, fails: map<Id, string>, now: Time, interval: int, n: nat, k: Id)
    requires n <= |due| && forall k :: k in due ==> k in jobs
    requires Distinct(due) && k in jobs
    ensures FailAll(jobs, due, fails, now, interval, n)[k]
         == if k in due[..n] && k in fails then FailOne(jobs[k], now, interval, fails[k]) else jobs[k]
  {
    if n > 0 {
      FailAllAt(jobs, due, fails, now, interval, n - 1, k);
      assert due[..n] == due[..n - 1] + [due[n - 1]];
      assert due[n - 1] !in due[..n - 1];
    }
  }

  lemma {:induction false} FailNext(jobs: Jobs, due: seq<Id>, fails: map<Id, string>, now: Time, interval: int, k: nat)
    requires k < |due| && forall k :: k in due ==> k in jobs
    ensures var id, before := due[k], FailAll(jobs, due, fails, now, interval, k);
      && id in before
      && FailAll(jobs, due, fails, now, interval, k + 1)
         == if id in fails then before[id := FailOne(before[id], now, interval, fails[id])] else before
  {
    assert due[k] in due;
  }

  /** The jobs whose submission did not raise, in order. */
  function Submitted(due: seq<Id>, fails: map<Id, string>, n: nat): seq<Id>
    requires n <= |due|
  {
    if n == 0 then []
    else if due[n - 1] in fails then Submitted(due, fails, n - 1)
    else Submitted(due, fails, n - 1) + [due[n - 1]]
  }

  class AutomationScheduler {
    const cal: Calendar
    const interval: int
    var jobs: Jobs
    var order: seq<Id>
    var disk: Jobs

    ghost predicate Valid()
      reads this
    {
      Orders(order, jobs.Keys) && AllValid(jobs)
    }

    function Now(): Stored
      reads this
    {
      Stored(jobs, disk)
    }

    /** Loads what the store holds. */
    constructor (cal: Calendar, interval: int, disk: Jobs, order: seq<Id>)
      requires Orders(order, disk.Keys) && AllValid(disk)
      ensures Valid() && Now() == Stored(AllReloaded(disk), disk)
      ensures this.cal == cal && this.interval == interval
    {
      this.cal, this.interval, this.disk, this.order := cal, interval, disk, order;
      jobs := AllReloaded(disk);
    }

    /** `saves` tells whether writing the file succeeds. */
    method Create(raw: Raw, now: Time, saves: bool) returns (r: Result<Job>)
      requires Valid()
      modifies this`jobs, this`order, this`disk
      ensures Valid()
      ensures var job := FromMapping(cal, raw, now);
        if job.Error? then r == job && Now() == old(Now())
        else && Now() == Effect(cal, interval, old(Now()), Created(job.value, saves))
             && (r == job <==> raw.id !in old(jobs) && saves) && (r.Error? <==> r != job)
    {
      var job := FromMapping(cal, raw, now);
      if job.Error? { return job; }
      if raw.id in jobs { return Error("cron job already exists"); }
      NewJobIsValid(cal, raw, now);
      jobs, order := jobs[raw.id := job.value], order + [raw.id];
      if !saves { return Error("save failed"); }
      disk := jobs;
      return job;
    }

    method Cancel(id: Id, saves: bool) returns (found: bool)
      requires Valid()
      modifies this`jobs, this`disk
      ensures Valid() && found == (id in old(jobs))
      ensures Now() == Effect(cal, interval, old(Now()), Cancelled(id, saves))
    {
      if id !in jobs { return false; }
      jobs := jobs[id := jobs[id].(enabled := false, status := "cancelled")];
      if saves { disk := jobs; }
      return true;
    }

    method CollectDue(now: Time) returns (due: seq<Id>)
      requires Valid()
      ensures due == DueIds(jobs, order, now, |order|)
      ensures IsDueList(jobs, due, now)
    {
      due := [];
      for k := 0 to |order|
        invariant due == DueIds(jobs, order, now, k)
      {
        assert order[k] in jobs;
        var job := jobs[order[k]];
        if job.enabled && job.next.Some? && job.next.value <= now { due := due + [order[k]]; }
      }
      DueExact(jobs, order, now, |order|);
      assert order[..|order|] == order;
    }

    /** The locked first half of a tick; not `ok` when a due job has no next match or the save fails. */
    method Mark(now: Time, saves: bool) returns (ok: bool, due: seq<Id>)
      requires Valid()
      modifies this`jobs, this`disk
      ensures Valid()
      ensures due == DueIds(old(jobs), order, now, |order|) && IsDueList(old(jobs), due, now)
      ensures Now() == Effect(cal, interval, old(Now()), Marked(0, now, due, saves))
      ensures ok <==> AllMatched(cal, old(jobs), now) && (saves || due == [])
    {
      due := CollectDue(now);
      MarkEffect(cal, interval, Now(), due, now, saves);
      ok := MarkDue(due, now);
      if ok && due != [] {
        if saves { disk := jobs; } else { ok := false; }
      }
    }

    method MarkDue(due: seq<Id>, now: Time) returns (ok: bool)
      requires Distinct(due) && forall k :: k in due ==> k in jobs
      modifies this`jobs
      ensures jobs == MarkAll(cal, old(jobs), due, now, Marks(cal, old(jobs), due, now))
      ensures ok <==> Reached(cal, old(jobs), due, now, 0) == |due|
    {
      ghost var n := Reached(cal, jobs, due, now, 0);
      for k := 0 to |due|
        invariant k <= n
        invariant jobs == MarkAll(cal, old(jobs), due, now, k)
      {
        MarkNext(cal, old(jobs), due, now, k);
        var job := jobs[due[k]];
        jobs := jobs[due[k] := MarkOne(cal, job, now)];
        if Unmatched(cal, job, now) { return false; }
      }
      return true;
    }

    /** A submission raised: under the lock again. */
    method Fail(id: Id, now: Time, message: string, saves: bool)
      requires Valid() && id in jobs
      modifies this`jobs, this`disk
      ensures Valid()
      ensures Now() == Effect(cal, interval, old(Now()), Failed(0, id, now, message, saves))
      ensures jobs == old(jobs)[id := FailOne(old(jobs)[id], now, interval, message)]
      ensures saves ==> disk == jobs
    {
      var job := jobs[id].(error := message, status := "submit_failed");
      if job.schedule.At? { job := job.(enabled := true, next := Some(now + interval)); }
      ValidWith(jobs, id, job);
      jobs := jobs[id := job];
      if saves { disk := jobs; }
    }

    /** The second half of a tick, every save succeeding; `fails` tells which submissions raise. */
    method SubmitAll(due: seq<Id>, now: Time, fails: map<Id, string>) returns (submitted: seq<Id>)
      requires Valid() && Distinct(due) && (forall k :: k in due ==> k in jobs) && (due != [] ==> disk == jobs)
      modifies this`jobs, this`disk
      ensures Valid()
      ensures jobs == FailAll(old(jobs), due, fails, now, interval, |due|)
      ensures submitted == Submitted(due, fails, |due|)
      ensures disk == if due == [] then old(disk) else jobs
    {
      submitted := [];
      for k := 0 to |due|
        invariant Valid() && jobs == FailAll(old(jobs), due, fails, now, interval, k)
        invariant submitted == Submitted(due, fails, k)
        invariant disk == if due == [] then old(disk) else jobs
      {
        assert due[k] in due;
        FailNext(old(jobs), due, fails, now, interval, k);
        if due[k] in fails { Fail(due[k], now, fails[due[k]], true); } else { submitted := submitted + [due[k]]; }
      }
    }

    /** A whole tick with nothing in between and every save succeeding. An incomplete one leaves the jobs
        marked up to the first without a next match, in memory only. */
    method Tick(now: Time, fails: map<Id, string>) returns (ok: bool, submitted: seq<Id>)
      requires Valid()
      modifies this`jobs, this`disk
      ensures Valid()
      ensures ok <==> AllMatched(cal, old(jobs), now)
      ensures ok ==> jobs == Ticked(cal, old(jobs), now, interval, fails)
      ensures ok ==> var due := DueIds(old(jobs), order, now, |order|);
        submitted == Submitted(due, fails, |due|) && disk == if due == [] then old(disk) else jobs
      ensures !ok ==> submitted == [] && disk == old(disk)
      ensures !ok ==>
        Now() == Effect(cal, interval, old(Now()), Marked(0, now, DueIds(old(jobs), order, now, |order|), true))
    {
      submitted := [];
      var due;
      ok, due := Mark(now, true);
      if !ok { return; }
      LaunchEffect(cal, interval, old(Now()), due, now);
      TickedIs(cal, old(jobs), due, now, interval, fails);
      submitted := SubmitAll(due, now, fails);
    }
  }

  lemma {:induction false} MarkEffect(cal: Calendar, interval: int, c: Stored, due: seq<Id>, now: Time, saves: bool)
    requires IsDueList(c.jobs, due, now) && AllValid(c.jobs)
    ensures var n := Reached(cal, c.jobs, due, now, 0);
      var marked := MarkAll(cal, c.jobs, due, now, Marks(cal, c.jobs, due, now));
      && AllValid(marked) && marked.Keys == c.jobs.Keys
      && (n == |due| <==> AllMatched(cal, c.jobs, now))
      && Effect(cal, interval, c, Marked(0, now, due, saves))
         == Stored(marked, if n == |due| && due != [] && saves then marked else c.disk)
  {
    ReachedAllIff(cal, c.jobs, due, now);
    MarkAllValid(cal, c.jobs, due, now, Marks(cal, c.jobs, due, now));
  }

  lemma {:induction false} MarkNext(cal: Calendar, jobs: Jobs, due: seq<Id>, now: Time, k: nat)
    requires k < |due| && Distinct(due) && forall k :: k in due ==> k in jobs
    requires k <= Reached(cal, jobs, due, now, 0)
    ensures var id, before := due[k], MarkAll(cal, jobs, due, now, k);
      && id in due && before[id] == jobs[id]
      && MarkAll(cal, jobs, due, now, k + 1) == before[id := MarkOne(cal, jobs[id], now)]
      && (if Unmatched(cal, jobs[id], now) then
            Reached(cal, jobs, due, now, 0) == k && Marks(cal, jobs, due, now) == k + 1
          else k < Reached(cal, jobs, due, now, 0))
  {
    assert due[k] in due && due[k] !in due[..k];
    MarkAllAt(cal, jobs, due, now, k, due[k]);
  }

  lemma {:induction false} LaunchEffect(cal: Calendar, interval: int, c: Stored, due: seq<Id>, now: Time)
    requires IsDueList(c.jobs, due, now) && AllMatched(cal, c.jobs, now)
    ensures var d := Effect(cal, interval, c, Marked(0, now, due, true));
      d.jobs == MarkAll(cal, c.jobs, due, now, |due|) && d.disk == if due == [] then c.disk else d.jobs
  {
    ReachedAllIff(cal, c.jobs, due, now);
  }

  /** All jobs after a completed tick. */
  function Ticked(cal: Calendar, jobs: Jobs, now: Time, interval: int, fails: map<Id, string>): Jobs
  {
    map k | k in jobs :: TickJob(cal, jobs[k], now, interval, FailureOf(fails, k))
  }

  lemma {:induction false} TickedIs(
      cal: Calendar, jobs: Jobs, due: seq<Id>, now: Time, interval: int, fails: map<Id, string>)
    requires IsDueList(jobs, due, now)
    ensures FailAll(MarkAll(cal, jobs, due, now, |due|), due, fails, now, interval, |due|) ==
      Ticked(cal, jobs, now, interval, fails)
  {
    var marked := MarkAll(cal, jobs, due, now, |due|);
    var a, b := FailAll(marked, due, fails, now, interval, |due|), Ticked(cal, jobs, now, interval, fails);
    assert due[..|due|] == due;
    forall k | k in jobs ensures a[k] == b[k] {
      MarkAllAt(cal, jobs, due, now, |due|, k);
      FailAllAt(marked, due, fails, now, interval, |due|, k);
    }
    assert a.Keys == b.Keys;
  }

  // ------------------------------------------------------------- interleaved runs

  /** The jobs in memory and in the file. */
  datatype Stored = Stored(jobs: Jobs, disk: Jobs)

  /** A submission that a tick has still to make or is making. */
  datatype Flight = Flight(tick: nat, id: Id)

  /** And the submissions under way, each tick's in order, and by job the ones that succeeded. */
  datatype State = State(stored: Stored, flights: seq<Flight>, successes: Id -> nat)

  datatype Event =
    | Created(job: Job, saves: bool)
    | Cancelled(id: Id, saves: bool)
    | Marked(tick: nat, now: Time, due: seq<Id>, saves: bool)
    | Succeeded(at: nat, id: Id)
    | Failed(at: nat, id: Id, now: Time, message: string, saves: bool)
    | Restarted

  function AllReloaded(jobs: Jobs): Jobs { map k | k in jobs :: Reloaded(jobs[k]) }

  function Saved(c: Stored, jobs: Jobs, saves: bool): Stored { Stored(jobs, if saves then jobs else c.disk) }

  predicate Known(jobs: Jobs, ids: seq<Id>) { forall k :: k in ids ==> k in jobs }

  /** The half of a tick under the lock went through. */
  predicate Launches(cal: Calendar, c: Stored, now: Time, due: seq<Id>, saves: bool)
  {
    Known(c.jobs, due) && Reached(cal, c.jobs, due, now, 0) == |due| && saves
  }

  /** What an event does to the jobs. */
  function Effect(cal: Calendar, interval: int, c: Stored, e: Event): Stored
  {
    match e
    case Created(job, saves) => if job.id in c.jobs then c else Saved(c, c.jobs[job.id := job], saves)
    case Cancelled(id, saves) =>
      if id in c.jobs then Saved(c, c.jobs[id := c.jobs[id].(enabled := false, status := "cancelled")], saves) else c
    case Marked(_, now, due, saves) =>
      if due == [] || !Known(c.jobs, due) then c
      else Saved(c, MarkAll(cal, c.jobs, due, now, Marks(cal, c.jobs, due, now)), Launches(cal, c, now, due, saves))
    case Succeeded(_, _) => c
    case Failed(_, id, now, message, saves) =>
      if id in c.jobs then Saved(c, c.jobs[id := FailOne(c.jobs[id], now, interval, message)], saves) else c
    case Restarted => Stored(AllReloaded(c.disk), c.disk)
  }

  function Launched(tick: nat, due: seq<Id>): seq<Flight>
  {
    seq(|due|, i requires 0 <= i < |due| => Flight(tick, due[i]))
  }

  /** The first `n` submissions but for those of one tick. */
  function Others(fs: seq<Flight>, n: nat, tick: nat): seq<Flight>
    requires n <= |fs|
  {
    if n == 0 then [] else Others(fs, n - 1, tick) + if fs[n - 1].tick == tick then [] else [fs[n - 1]]
  }

  /** A failure that cannot be saved ends its tick: what the tick had still to submit is abandoned. */
  function Flights(cal: Calendar, s: State, e: Event): seq<Flight>
  {
    match e
    case Marked(tick, now, due, saves) =>
      if Launches(cal, s.stored, now, due, saves) then s.flights + Launched(tick, due) else s.flights
    case Succeeded(at, _) => if at < |s.flights| then Without(s.flights, at) else s.flights
    case Failed(at, _, _, _, saves) =>
      if at >= |s.flights| then s.flights
      else if saves then Without(s.flights, at)
      else Others(s.flights, |s.flights|, s.flights[at].tick)
    case Restarted => []
    case _ => s.flights
  }

  function Plus(f: Id -> nat, id: Id): Id -> nat { k => if k == id then f(k) + 1 else f(k) }

  function NoSuccess(): Id -> nat { k => 0 }

  function Step(cal: Calendar, interval: int, s: State, e: Event): State
  {
    State(Effect(cal, interval, s.stored, e), Flights(cal, s, e),
          if e.Succeeded? then Plus(s.successes, e.id) else s.successes)
  }

  /** It is the turn of this submission in its tick. */
  predicate IsNext(fs: seq<Flight>, at: nat, id: Id)
  {
    at < |fs| && fs[at].id == id && forall i :: 0 <= i < at ==> fs[i].tick != fs[at].tick
  }

  /** The due list is exactly the due jobs, of a tick of its own; each tick submits in order. */
  ghost predicate Possible(s: State, e: Event)
  {
    && (e.Marked? ==> IsDueList(s.stored.jobs, e.due, e.now) && forall f :: f in s.flights ==> f.tick != e.tick)
    && (e.Succeeded? || e.Failed? ==> IsNext(s.flights, e.at, e.id))
  }

  // ------------------------------------------------------ submissions under way

  /** How many of the first `n` are for the job. */
  function FlyingTo(fs: seq<Flight>, n: nat, id: Id): nat
    requires n <= |fs|
  {
    if n == 0 then 0 else FlyingTo(fs, n - 1, id) + if fs[n - 1].id == id then 1 else 0
  }

  function Flying(s: State, id: Id): nat { FlyingTo(s.flights, |s.flights|, id) }

  lemma {:induction false} FlyingSame(a: seq<Flight>, b: seq<Flight>, n: nat, id: Id)
    requires n <= |a| && n <= |b| && forall i :: 0 <= i < n ==> a[i] == b[i]
    ensures FlyingTo(a, n, id) == FlyingTo(b, n, id)
  {
    if n > 0 { FlyingSame(a, b, n - 1, id); }
  }

  lemma {:induction false} FlyingLaunched(fs: seq<Flight>, tick: nat, due: seq<Id>, n: nat, id: Id)
    requires n <= |due| && Distinct(due)
    ensures FlyingTo(fs + Launched(tick, due), |fs| + n, id) == FlyingTo(fs, |fs|, id) + if id in due[..n] then 1 else 0
  {
    var all := fs + Launched(tick, due);
    if n == 0 {
      FlyingSame(all, fs, |fs|, id);
    } else {
      FlyingLaunched(fs, tick, due, n - 1, id);
      assert all[|fs| + n - 1].id == due[n - 1];
      assert due[..n] == due[..n - 1] + [due[n - 1]];
      assert due[n - 1] !in due[..n - 1];
    }
  }

  lemma {:induction false} FlyingWithout(fs: seq<Flight>, at: nat, n: nat, id: Id)
    requires at < n <= |fs|
    ensures FlyingTo(Without(fs, at), n - 1, id) == FlyingTo(fs, n, id) - if fs[at].id == id then 1 else 0
    decreases n
  {
    if n == at + 1 {
      FlyingSame(Without(fs, at), fs, at, id);
    } else {
      FlyingWithout(fs, at, n - 1, id);
      assert Without(fs, at)[n - 2] == fs[n - 1];
    }
  }

  lemma {:induction false} FlyingOthers(fs: seq<Flight>, n: nat, tick: nat, id: Id)
    requires n <= |fs|
    ensures var others := Others(fs, n, tick);
      && FlyingTo(others, |others|, id) <= FlyingTo(fs, n, id)
      && (FlyingTo(others, |others|, id) == FlyingTo(fs, n, id) ==>
            forall i :: 0 <= i < n && fs[i].tick == tick ==> fs[i].id != id)
  {
    if n > 0 {
      FlyingOthers(fs, n - 1, tick, id);
      var before := Others(fs, n - 1, tick);
      FlyingSame(before + [fs[n - 1]], before, |before|, id);
      assert before + [] == before;
    }
  }

  lemma {:induction false} FlyingAt(fs: seq<Flight>, n: nat, id: Id) returns (at: nat)
    requires n <= |fs| && FlyingTo(fs, n, id) > 0
    ensures at < n && fs[at].id == id
  {
    if fs[n - 1].id == id { at := n - 1; } else { at := FlyingAt(fs, n - 1, id); }
  }

  lemma {:induction false} FlyingIf(fs: seq<Flight>, n: nat, at: nat, id: Id)
    requires at < n <= |fs| && fs[at].id == id
    ensures FlyingTo(fs, n, id) > 0
  {
    if at < n - 1 { FlyingIf(fs, n - 1, at, id); }
  }

  lemma {:induction false} MarkFlights(cal: Calendar, interval: int, s: State, e: Event, id: Id)
    requires e.Marked? && Distinct(e.due)
    ensures Flying(Step(cal, interval, s, e), id)
         == Flying(s, id) + if Launches(cal, s.stored, e.now, e.due, e.saves) && id in e.due then 1 else 0
  {
    FlyingLaunched(s.flights, e.tick, e.due, |e.due|, id);
    assert e.due[..|e.due|] == e.due;
  }

  lemma {:induction false} SuccessFlights(cal: Calendar, interval: int, s: State, e: Event, id: Id)
    requires e.Succeeded? && IsNext(s.flights, e.at, e.id)
    ensures Flying(Step(cal, interval, s, e), id) == Flying(s, id) - if e.id == id then 1 else 0
    ensures Flying(s, e.id) > 0
  {
    FlyingWithout(s.flights, e.at, |s.flights|, id);
    FlyingIf(s.flights, |s.flights|, e.at, e.id);
  }

  lemma {:induction false} FailureFlights(cal: Calendar, interval: int, s: State, e: Event, id: Id)
    requires e.Failed? && IsNext(s.flights, e.at, e.id)
    ensures Flying(Step(cal, interval, s, e), id) <= Flying(s, id) - if e.id == id then 1 else 0
    ensures Flying(s, e.id) > 0
  {
    FlyingWithout(s.flights, e.at, |s.flights|, id);
    FlyingOthers(s.flights, |s.flights|, s.flights[e.at].tick, id);
    FlyingIf(s.flights, |s.flights|, e.at, e.id);
  }

  /** What an event does to the submissions under way for a job. */
  ghost predicate FlightsAfter(cal: Calendar, s: State, e: Event, id: Id, after: int)
  {
    && (e.Created? || e.Cancelled? ==> after == Flying(s, id))
    && (e.Marked? ==>
          after == Flying(s, id) + if Launches(cal, s.stored, e.now, e.due, e.saves) && id in e.due then 1 else 0)
    && (e.Succeeded? ==> after == Flying(s, id) - if e.id == id then 1 else 0)
    && (e.Failed? ==> after <= Flying(s, id) - if e.id == id then 1 else 0)
    && (e.Restarted? ==> after == 0)
    && (e.Succeeded? || e.Failed? ==> Flying(s, e.id) > 0)
  }

  lemma {:induction false} StepFlights(cal: Calendar, interval: int, s: State, e: Event, id: Id)
    requires Possible(s, e)
    ensures FlightsAfter(cal, s, e, id, Flying(Step(cal, interval, s, e), id))
  {
    if e.Marked? { MarkFlights(cal, interval, s, e, id); }
    else if e.Succeeded? { SuccessFlights(cal, interval, s, e, id); }
    else if e.Failed? { FailureFlights(cal, interval, s, e, id); }
  }

  // ------------------------------------------------------------------------- runs

  ghost predicate Leads(cal: Calendar, interval: int, s: State, run: seq<Event>, m: nat, t: State)
    requires m <= |run|
    decreases |run| - m
  {
    if m == |run| then s == t
    else Possible(s, run[m]) && Leads(cal, interval, Step(cal, interval, s, run[m]), run, m + 1, t)
  }

  /** Whether an `at` job may still be submitted, as one copy of the jobs has it. */
  function Chance(jobs: Jobs, id: Id): nat { if id !in jobs || jobs[id].enabled then 1 else 0 }

  predicate Tight(jobs: Jobs, s: State, id: Id)
  {
    (id in jobs ==> jobs[id].schedule.At?) ==> s.successes(id) + Flying(s, id) + Chance(jobs, id) <= 1
  }

  /** In memory and on disk: submitted, under way and still to come together are at most one. */
  predicate Once(s: State, id: Id) { Tight(s.stored.jobs, s, id) && Tight(s.stored.disk, s, id) }

  lemma {:induction false} MarkAllKeeps(cal: Calendar, jobs: Jobs, due: seq<Id>, now: Time, n: nat, k: Id)
    requires n <= |due| && Known(jobs, due) && Distinct(due) && k in jobs
    ensures var j := MarkAll(cal, jobs, due, now, n)[k];
      && j.schedule == jobs[k].schedule
      && (!jobs[k].enabled ==> !j.enabled)
      && (k in due[..n] && j.schedule.At? ==> !j.enabled)
  {
    MarkAllAt(cal, jobs, due, now, n, k);
  }

  /** One step keeps it, for every job. */
  lemma {:induction false} StepKeepsOnce(cal: Calendar, interval: int, s: State, e: Event, id: Id)
    requires Once(s, id) && Possible(s, e)
    ensures Once(Step(cal, interval, s, e), id)
  {
    StepFlights(cal, interval, s, e, id);
    if e.Marked? { MarkKeepsOnce(cal, interval, s, e, id); } else { OtherKeepsOnce(cal, interval, s, e, id); }
  }

  lemma {:induction false} OtherKeepsOnce(cal: Calendar, interval: int, s: State, e: Event, id: Id)
    requires Once(s, id) && !e.Marked?
    requires FlightsAfter(cal, s, e, id, Flying(Step(cal, interval, s, e), id))
    ensures Once(Step(cal, interval, s, e), id)
  {
  }

  lemma {:induction false} MarkKeepsOnce(cal: Calendar, interval: int, s: State, e: Event, id: Id)
    requires Once(s, id) && e.Marked? && Possible(s, e)
    requires FlightsAfter(cal, s, e, id, Flying(Step(cal, interval, s, e), id))
    ensures Once(Step(cal, interval, s, e), id)
  {
    var jobs, due := s.stored.jobs, e.due;
    var n := Marks(cal, jobs, due, e.now);
    var marked := MarkAll(cal, jobs, due, e.now, n);
    assert due[..|due|] == due;
    if id in jobs {
      MarkAllKeeps(cal, jobs, due, e.now, n, id);
    }
    assert id in jobs <==> id in marked;
  }

  /** Over every run of creations, cancellations, ticks, failing submissions, failing saves and
      restarts, an `at` job is submitted successfully at most once. */
  lemma {:induction false} AtMostOnce(cal: Calendar, interval: int, s: State, run: seq<Event>, m: nat, t: State, id: Id)
    requires m <= |run| && Leads(cal, interval, s, run, m, t) && Once(s, id)
    ensures Once(t, id)
    ensures id in t.stored.jobs && t.stored.jobs[id].schedule.At? ==> t.successes(id) <= 1
    decreases |run| - m
  {
    if m < |run| {
      StepKeepsOnce(cal, interval, s, run[m], id);
      AtMostOnce(cal, interval, Step(cal, interval, s, run[m]), run, m + 1, t, id);
    }
  }

  /** So from the moment a scheduler starts on a store, whatever the store holds. */
  lemma {:induction false} SubmittedAtMostOnce(
      cal: Calendar, interval: int, disk: Jobs, run: seq<Event>, t: State, id: Id)
    requires Leads(cal, interval, Started(disk), run, 0, t)
    ensures id in t.stored.jobs && t.stored.jobs[id].schedule.At? ==> t.successes(id) <= 1
  {
    AtMostOnce(cal, interval, Started(disk), run, 0, t, id);
  }

  function Started(disk: Jobs): State { State(Stored(AllReloaded(disk), disk), [], NoSuccess()) }

  // --------------------------------------------------------------- cancelling a job

  /** The job is disabled in memory and on disk, and no failing submission can enable it. */
  predicate Final(s: State, id: Id)
  {
    var c := s.stored;
    && id in c.jobs && !c.jobs[id].enabled && id in c.disk && !c.disk[id].enabled
    && c.jobs[id].schedule == c.disk[id].schedule
    && (c.jobs[id].schedule.At? ==> Flying(s, id) == 0)
  }

  lemma {:induction false} StepKeepsFinal(cal: Calendar, interval: int, s: State, e: Event, id: Id)
    requires Final(s, id) && Possible(s, e)
    ensures Final(Step(cal, interval, s, e), id)
    ensures s.stored.jobs[id].schedule.At? ==> Step(cal, interval, s, e).successes(id) == s.successes(id)
  {
    StepFlights(cal, interval, s, e, id);
    if e.Marked? {
      var jobs, due := s.stored.jobs, e.due;
      MarkAllKeeps(cal, jobs, due, e.now, Marks(cal, jobs, due, e.now), id);
      assert id !in due;
    }
  }

  lemma {:induction false} FinalStays(cal: Calendar, interval: int, s: State, run: seq<Event>, m: nat, t: State, id: Id)
    requires m <= |run| && Leads(cal, interval, s, run, m, t) && Final(s, id)
    ensures Final(t, id)
    decreases |run| - m
  {
    if m < |run| {
      StepKeepsFinal(cal, interval, s, run[m], id);
      FinalStays(cal, interval, Step(cal, interval, s, run[m]), run, m + 1, t, id);
    }
  }

  ghost predicate StaysDisabled(cal: Calendar, interval: int, s: State, run: seq<Event>, t: State, id: Id)
  {
    Leads(cal, interval, s, run, 0, t) ==> id in t.stored.jobs && !t.stored.jobs[id].enabled
  }

  /** Whatever happens from here on, the job stays disabled. */
  ghost predicate NeverEnabled(cal: Calendar, interval: int, s: State, id: Id)
  {
    forall run, t :: StaysDisabled(cal, interval, s, run, t, id)
  }

  /** A cancellation written to the file holds in every later run, restarts included, exactly when no
      submission of the job is under way or it is not an `at` job: an `at` submission that fails after
      the cancellation enables the job again. */
  lemma {:induction false} CancelHoldsIff(cal: Calendar, interval: int, s: State, id: Id)
    requires id in s.stored.jobs
    ensures NeverEnabled(cal, interval, Step(cal, interval, s, Cancelled(id, true)), id)
      <==> !(s.stored.jobs[id].schedule.At? && Flying(s, id) > 0)
  {
    var t := Step(cal, interval, s, Cancelled(id, true));
    if s.stored.jobs[id].schedule.At? && Flying(s, id) > 0 {
      var at := FlyingAt(s.flights, |s.flights|, id);
      var run, u := FailureCanCome(cal, interval, t, at, id);
      assert !StaysDisabled(cal, interval, t, run, u, id);
    } else {
      forall run, u ensures StaysDisabled(cal, interval, t, run, u, id) {
        if Leads(cal, interval, t, run, 0, u) { FinalStays(cal, interval, t, run, 0, u, id); }
      }
    }
  }

  /** The submissions before it in its tick may succeed, and then it may fail. */
  lemma {:induction false} FailureCanCome(
      cal: Calendar, interval: int, s: State, at: nat, id: Id) returns (run: seq<Event>, t: State)
    requires at < |s.flights| && s.flights[at].id == id && id in s.stored.jobs && s.stored.jobs[id].schedule.At?
    ensures Leads(cal, interval, s, run, 0, t) && id in t.stored.jobs && t.stored.jobs[id].enabled
    decreases at
  {
    if IsNext(s.flights, at, id) {
      var e := Failed(at, id, 0, "", true);
      t := Step(cal, interval, s, e);
      LeadsEmpty(cal, interval, t);
      LeadsFirst(cal, interval, s, e, [], t);
      run := [e] + [];
    } else {
      var i := FirstOf(s.flights, at);
      var e := Succeeded(i, s.flights[i].id);
      var next := Step(cal, interval, s, e);
      assert next.flights[at - 1] == s.flights[at];
      var rest;
      rest, t := FailureCanCome(cal, interval, next, at - 1, id);
      LeadsFirst(cal, interval, s, e, rest, t);
      run := [e] + rest;
    }
  }

  /** The first submission of the same tick. */
  lemma {:induction false} FirstOf(fs: seq<Flight>, at: nat) returns (i: nat)
    requires at < |fs|
    ensures i <= at && fs[i].tick == fs[at].tick && IsNext(fs, i, fs[i].id)
  {
    i := at;
    if !IsNext(fs, at, fs[at].id) {
      var j :| 0 <= j < at && fs[j].tick == fs[at].tick;
      i := FirstOf(fs, j);
    }
  }

  lemma {:induction false} LeadsEmpty(cal: Calendar, interval: int, s: State)
    ensures Leads(cal, interval, s, [], 0, s)
  {
  }

  lemma {:induction false} LeadsFirst(cal: Calendar, interval: int, s: State, e: Event, run: seq<Event>, t: State)
    requires Possible(s, e) && Leads(cal, interval, Step(cal, interval, s, e), run, 0, t)
    ensures Leads(cal, interval, s, [e] + run, 0, t)
  {
    LeadsShifted(cal, interval, Step(cal, interval, s, e), e, run, 0, t);
  }

  lemma {:induction false} LeadsShifted(
      cal: Calendar, interval: int, s: State, e: Event, run: seq<Event>, m: nat, t: State)
    requires m <= |run| && Leads(cal, interval, s, run, m, t)
    ensures Leads(cal, interval, s, [e] + run, m + 1, t)
    decreases |run| - m
  {
    if m < |run| {
      assert ([e] + run)[m + 1] == run[m];
      LeadsShifted(cal, interval, Step(cal, interval, s, run[m]), e, run, m + 1, t);
    }
  }

  // ------------------------------------------------------------------ after a tick

  predicate Ahead(j: Job, now: Time) { j.enabled && j.next.Some? ==> j.next.value > now }

  /** After a completed tick a job is disabled or its next run lies strictly ahead, exactly when the
      delay that was applied to it, if any, is at least one clock unit. */
  lemma {:induction false} TickSettlesIff(cal: Calendar, j: Job, now: Time, interval: int, failure: Option<string>)
    requires !Unmatched(cal, j, now)
    ensures Ahead(TickJob(cal, j, now, interval, failure), now)
      <==> (Due(j, now) ==>
              && (j.schedule.Every? ==> j.schedule.seconds * 1000000.0 > 0.5)
              && (j.schedule.At? && failure.Some? ==> interval >= 1))
  {
    if j.schedule.Cron? {
      NextIsFirstMatch(cal, j.schedule.cron, now, NextMatch(cal, j.schedule.cron, now).value);
    } else if j.schedule.Every? {
      MicrosPositiveIff(j.schedule.seconds);
    }
  }

  /** What a completed tick does to a job, field by field. One that is disabled, or whose time has not come, is
      untouched. A submitted `at` job is completed and disabled; one whose submission raised is enabled for one
      tick interval later. An `every` job runs next after its period, to the nearest microsecond; a cron job at
      the first later minute that matches. */
  lemma {:induction false} TickByKind(
      cal: Calendar, jobs: Jobs, now: Time, interval: int, fails: map<Id, string>, k: Id)
    requires k in jobs && AllMatched(cal, jobs, now)
    ensures k in Ticked(cal, jobs, now, interval, fails)
    ensures var j, t := jobs[k], Ticked(cal, jobs, now, interval, fails)[k];
      if !j.enabled || j.next.None? || j.next.value > now then t == j
      else
        && t.submitted == Some(now)
        && t.schedule == j.schedule && t.message == j.message && t.session == j.session
        && t.conversation == j.conversation
        && (if k in fails then t.error == fails[k] && t.status == "submit_failed"
            else t.error == "" && t.status == if j.schedule.At? then "completed" else "scheduled")
        && (match j.schedule
            case At(_) =>
              if k in fails then t.enabled && t.next == Some(now + interval) else !t.enabled && t.next == None
            case Every(seconds) =>
              t.enabled && t.next.Some?
              && -0.5 <= (t.next.value - now) as real - seconds * 1000000.0 <= 0.5
            case Cron(c) =>
              && t.enabled && t.next.Some? && t.next.value > now && WholeMinute(t.next.value)
              && Matches(cal, c, t.next.value)
              && forall u :: now < u < t.next.value && WholeMinute(u) ==> !Matches(cal, c, u))
  {
    var j := jobs[k];
    if Due(j, now) && j.schedule.Cron? {
      NextIsFirstMatch(cal, j.schedule.cron, now, NextMatch(cal, j.schedule.cron, now).value);
    }
  }

  /** Which mappings are refused: a bad id, no session or message, a schedule that does not parse or has no
      positive period, and a cron schedule that never matches, unless the time of its next run is given. */
  lemma {:induction false} RefusedIff(cal: Calendar, raw: Raw, now: Time)
    ensures FromMapping(cal, raw, now).Error? <==>
      || |raw.id| < 1 || |raw.id| > 96
      || (exists c :: c in raw.id && c !in {'_', '.', '-'}
                      && (c < '0' || '9' < c) && (c < 'A' || 'Z' < c) && (c < 'a' || 'z' < c))
      || raw.session == "" || raw.message == "" || raw.schedule.None?
      || (raw.schedule.value.Every? && raw.schedule.value.seconds <= 0.0)
      || (raw.schedule.value.Cron? && raw.next.None? && NextMatch(cal, raw.schedule.value.cron, now).None?)
  {
    assert (forall i :: 0 <= i < |raw.id| ==> IdChar(raw.id[i])) <==> forall c :: c in raw.id ==> IdChar(c);
  }

  /** When a new job first runs: at the given time if there is one; else an `at` job at its time, an `every` job
      one period from now, a cron job at the first matching minute; without one it is refused. */
  lemma {:induction false} FirstRunByKind(cal: Calendar, raw: Raw, now: Time)
    requires ValidId(raw.id) && raw.session != "" && raw.message != "" && raw.schedule.Some?
    requires raw.schedule.value.Every? ==> raw.schedule.value.seconds > 0.0
    ensures var r := FromMapping(cal, raw, now);
      && (r.Error? <==>
          raw.next.None? && raw.schedule.value.Cron? && NextMatch(cal, raw.schedule.value.cron, now).None?)
      && (r.Ok? ==>
            && r.value.enabled == raw.enabled && r.value.next.Some?
            && (raw.next.Some? ==> r.value.next == raw.next)
            && (raw.next.None? ==> match raw.schedule.value
                 case At(t) => r.value.next.value == t
                 case Every(seconds) => -0.5 <= (r.value.next.value - now) as real - seconds * 1000000.0 <= 0.5
                 case Cron(c) =>
                   && r.value.next.value > now && Matches(cal, c, r.value.next.value)
                   && forall u :: now < u < r.value.next.value && WholeMinute(u) ==> !Matches(cal, c, u)))
  {
    if raw.next.None? && raw.schedule.value.Cron? && NextMatch(cal, raw.schedule.value.cron, now).Some? {
      NextIsFirstMatch(cal, raw.schedule.value.cron, now, NextMatch(cal, raw.schedule.value.cron, now).value);
    }
  }

  /** So after a completed tick no job is due, with delays of at least one unit. */
  lemma {:induction false} NothingDueAfterTick(
      cal: Calendar, jobs: Jobs, now: Time, interval: int, fails: map<Id, string>)
    requires AllMatched(cal, jobs, now) && interval >= 1
    requires forall k :: k in jobs && jobs[k].schedule.Every? ==> jobs[k].schedule.seconds * 1000000.0 > 0.5
    ensures forall k :: k in jobs ==> Ahead(Ticked(cal, jobs, now, interval, fails)[k], now)
  {
    forall k | k in jobs ensures Ahead(Ticked(cal, jobs, now, interval, fails)[k], now) {
      if Due(jobs[k], now) {
        TickSettlesIff(cal, jobs[k], now, interval, FailureOf(fails, k));
      }
    }
  }

  /** A due cron job without a next match stops the tick for everyone: nothing is submitted or saved,
      and the `at` jobs before it in the order stay disabled in memory, though not on disk. */
  lemma {:induction false} UnmatchedStopsTick(
      cal: Calendar, interval: int, s: State, tick: nat, now: Time, due: seq<Id>, saves: bool, i: nat)
    requires IsDueList(s.stored.jobs, due, now) && !AllMatched(cal, s.stored.jobs, now)
    requires i < Reached(cal, s.stored.jobs, due, now, 0) && s.stored.jobs[due[i]].schedule.At?
    ensures var t := Step(cal, interval, s, Marked(tick, now, due, saves));
      && t.stored.disk == s.stored.disk && t.flights == s.flights && t.successes == s.successes
      && due[i] in t.stored.jobs && !t.stored.jobs[due[i]].enabled
  {
    var jobs := s.stored.jobs;
    ReachedAllIff(cal, jobs, due, now);
    var n := Marks(cal, jobs, due, now);
    assert due[i] in due;
    assert due[..n][i] == due[i];
    MarkAllKeeps(cal, jobs, due, now, n, due[i]);
  }

  /** And when it goes through, every due job is under way once more, and no other. */
  lemma {:induction false} LaunchesExactlyDue(
      cal: Calendar, interval: int, s: State, tick: nat, now: Time, due: seq<Id>, id: Id)
    requires IsDueList(s.stored.jobs, due, now) && AllMatched(cal, s.stored.jobs, now)
    ensures Flying(Step(cal, interval, s, Marked(tick, now, due, true)), id)
         == Flying(s, id) + if id in s.stored.jobs && Due(s.stored.jobs[id], now) then 1 else 0
  {
    ReachedAllIff(cal, s.stored.jobs, due, now);
    MarkFlights(cal, interval, s, Marked(tick, now, due, true), id);
  }

  /** When a failure cannot be saved, nothing of its tick is under way any more. */
  lemma {:induction false} UnsavedFailureEndsTick(cal: Calendar, interval: int, s: State, e: Event, f: Flight)
    requires e.Failed? && !e.saves && e.at < |s.flights|
    ensures f in Step(cal, interval, s, e).flights <==> f in s.flights && f.tick != s.flights[e.at].tick
  {
    OthersOnly(s.flights, |s.flights|, s.flights[e.at].tick, f);
    assert s.flights[..|s.flights|] == s.flights;
  }

  lemma {:induction false} OthersOnly(fs: seq<Flight>, n: nat, tick: nat, f: Flight)
    requires n <= |fs|
    ensures f in Others(fs, n, tick) <==> f in fs[..n] && f.tick != tick
  {
    if n > 0 {
      OthersOnly(fs, n - 1, tick, f);
      assert fs[..n] == fs[..n - 1] + [fs[n - 1]];
    }
  }
}
