/** How the prompt's sections are rendered within their budgets: recalled notes share a budget, and
    the transcript is filled from its newest entry backwards. */
module PromptSections {
  import opened Wrappers
  import opened Text
  import opened TokenBudget

  function Page(title: string, lines: seq<string>): string { Join([title] + lines, |lines| + 1, "\n") }

  predicate Blank(s: string) { forall i :: 0 <= i < |s| ==> IsSpace(s[i]) }

  // -------------------------------------------------------------- recalled notes

  const NotesTitle := "Relevant memory:"

  const NoNotes := Page(NotesTitle, ["- none"])

  function Shown(notes: seq<string>, n: nat): (r: seq<string>)
    requires n <= |notes|
    ensures |r| <= n
    ensures r == [] <==> forall i :: 0 <= i < n ==> Blank(notes[i])
  {
    if n == 0 then [] else if Blank(notes[n - 1]) then Shown(notes, n - 1) else Shown(notes, n - 1) + [notes[n - 1]]
  }

  function Bullets(m: Meter, notes: seq<string>, each: int): seq<string>
  {
    seq(|notes|, i requires 0 <= i < |notes| => "- " + Clip(m, notes[i], each))
  }

  function RawBullets(notes: seq<string>): seq<string>
  {
    seq(|notes|, i requires 0 <= i < |notes| => "- " + notes[i])
  }

  function NotesPage(m: Meter, notes: seq<string>, each: int): string { Page(NotesTitle, Bullets(m, notes, each)) }

  function PerNote(budget: int, count: nat): int
    requires count > 0
  {
    var usable := budget - (|NotesTitle| + 3 * count);
    if usable / count < 1 then 1 else usable / count
  }

  /** The first share is the largest with which all notes, with their marks and the title, keep within the budget
      in characters; or one. */
  lemma {:induction false} PerNoteIsLargest(budget: int, count: nat)
    requires count > 0
    ensures var each := PerNote(budget, count);
      && (each > 1 ==> 16 + 3 * count + count * each <= budget)
      && each >= 1 && budget < 16 + 3 * count + count * each + count
  {
    var usable := budget - (|NotesTitle| + 3 * count);
    assert |NotesTitle| == 16;
    assert count * (usable / count) + usable % count == usable;
    if usable / count < 1 { AtMostOne(count, usable / count); }
  }

  lemma {:induction false} AtMostOne(k: nat, q: int)
    requires k > 0 && q < 1
    ensures k * q <= k * 1
  {
  }

  predicate NotesFit(m: Meter, notes: seq<string>, budget: int, each: int)
  {
    Measure(m, NotesPage(m, notes, each)) <= budget
  }

  /** The share of each note once it has been lowered far enough. */
  function Share(m: Meter, notes: seq<string>, budget: int, each: int): (r: int)
    requires each >= 1
    ensures 1 <= r <= each
    ensures r == 1 || NotesFit(m, notes, budget, r)
    ensures forall x :: r < x <= each ==> !NotesFit(m, notes, budget, x)
  {
    if NotesFit(m, notes, budget, each) || each <= 1 then each else Share(m, notes, budget, each - 1)
  }

  function NotesText(m: Meter, notes: seq<string>, budget: int): string
  {
    var shown := Shown(notes, |notes|);
    if shown == [] then NoNotes
    else
      var page := NotesPage(m, shown, Share(m, shown, budget, PerNote(budget, |shown|)));
      if Measure(m, page) > budget > 0 then Clip(m, Page(NotesTitle, RawBullets(shown)), budget) else page
  }

  method RenderRelevantMemory(m: Meter, notes: seq<string>, budget: int) returns (text: string)
    ensures text == NotesText(m, notes, budget)
  {
    var shown: seq<string> := [];
    for k := 0 to |notes|
      invariant shown == Shown(notes, k)
    {
      if !Blank(notes[k]) { shown := shown + [notes[k]]; }
    }
    if shown == [] { return NoNotes; }
    var each := PerNote(budget, |shown|);
    text := NotesPage(m, shown, each);
    while Measure(m, text) > budget && each > 1
      invariant each >= 1 && text == NotesPage(m, shown, each)
      invariant Share(m, shown, budget, PerNote(budget, |shown|)) == Share(m, shown, budget, each)
      decreases each
    {
      each := each - 1;
      text := NotesPage(m, shown, each);
    }
    if Measure(m, text) > budget > 0 { text := Clip(m, Page(NotesTitle, RawBullets(shown)), budget); }
  }

  /** For a positive budget the section measures within it, exactly when there is a note to show or
      the fixed text for no notes happens to fit: that text is never clipped. */
  lemma {:induction false} NotesFitIff(m: Meter, notes: seq<string>, budget: int)
    requires Sane(m) && budget > 0
    ensures Measure(m, NotesText(m, notes, budget)) <= budget
      <==> (exists i :: 0 <= i < |notes| && !Blank(notes[i])) || Measure(m, NoNotes) <= budget
  {
    var shown := Shown(notes, |notes|);
    if shown != [] { ClipFits(m, Page(NotesTitle, RawBullets(shown)), budget); }
  }

  // --------------------------------------------------------------------- transcript

  const Title := "Transcript:"

  const NoHistory := Page(Title, ["- empty"])

  datatype Entry = Entry(recent: bool, lines: seq<string>)

  function Clipped(m: Meter, lines: seq<string>, limit: int): seq<string>
  {
    seq(|lines|, i requires 0 <= i < |lines| => Clip(m, lines[i], limit))
  }

  function Lengths(lines: seq<string>, n: nat): nat
    requires n <= |lines|
  {
    if n == 0 then 0 else Lengths(lines, n - 1) + |lines[n - 1]| + 1
  }

  lemma {:induction false} PageHolds(title: string, lines: seq<string>, i: nat)
    requires i < |lines|
    ensures Holds(Page(title, lines), lines[i])
  {
    assert ([title] + lines)[i + 1] == lines[i];
    JoinHolds([title] + lines, |lines| + 1, "\n", i + 1);
  }

  /** A recalled note that measures within the first share stands in its section, complete, when all notes
      clipped to that share fit. */
  lemma {:induction false} NoteIsShown(m: Meter, notes: seq<string>, budget: int, i: nat)
    requires Sane(m) && i < |Shown(notes, |notes|)|
    requires var shown := Shown(notes, |notes|); var each := PerNote(budget, |shown|);
      Measure(m, NotesPage(m, shown, each)) <= budget && Measure(m, shown[i]) <= each
    ensures Holds(NotesText(m, notes, budget), "- " + Shown(notes, |notes|)[i])
  {
    var shown := Shown(notes, |notes|);
    var each := PerNote(budget, |shown|);
    ClipKeepsIff(m, shown[i], each);
    PageHolds(NotesTitle, Bullets(m, shown, each), i);
  }

  /** To what an entry's lines are clipped when they do not fit whole. */
  function LineLimit(entry: Entry, later: seq<string>, budget: int): int
  {
    if !entry.recent then 20
    else
      var left := budget - |Title| - Lengths(later, |later|) - 1;
      if left > 20 then left else 20
  }

  predicate PageFits(m: Meter, lines: seq<string>, budget: int) { Measure(m, Page(Title, lines)) <= budget }

  /** One more entry in front of the later lines: whole if it fits, else clipped if that fits. */
  function Prepend(m: Meter, entry: Entry, later: seq<string>, budget: int): seq<string>
  {
    if PageFits(m, entry.lines + later, budget) then entry.lines + later
    else
      var short := Clipped(m, entry.lines, LineLimit(entry, later, budget)) + later;
      if PageFits(m, short, budget) then short else later
  }

  /** The lines kept of the entries from `i` on. */
  function Kept(m: Meter, entries: seq<Entry>, budget: int, i: nat): seq<string>
    requires i <= |entries|
    decreases |entries| - i
  {
    if i == |entries| then [] else Prepend(m, entries[i], Kept(m, entries, budget, i + 1), budget)
  }

  function HistoryText(m: Meter, entries: seq<Entry>, raw: string, isEmpty: bool, budget: int): string
  {
    if isEmpty then NoHistory
    else
      var page := Page(Title, Kept(m, entries, budget, 0));
      if Measure(m, page) > budget > 0 then Clip(m, raw, budget) else page
  }

  method RenderHistory(m: Meter, entries: seq<Entry>, raw: string, isEmpty: bool, budget: int) returns (text: string)
    ensures text == HistoryText(m, entries, raw, isEmpty, budget)
  {
    if isEmpty { return NoHistory; }
    var rendered: seq<string> := [];
    for k := |entries| downto 0
      invariant rendered == Kept(m, entries, budget, k)
    {
      var candidate := entries[k].lines + rendered;
      if Measure(m, Page(Title, candidate)) <= budget {
        rendered := candidate;
      } else {
        var limit := 20;
        if entries[k].recent {
          var available := budget - |Title| - Lengths(rendered, |rendered|) - 1;
          if available > 20 { limit := available; }
        }
        candidate := Clipped(m, entries[k].lines, limit) + rendered;
        if Measure(m, Page(Title, candidate)) <= budget { rendered := candidate; }
      }
    }
    text := Page(Title, rendered);
    if Measure(m, text) > budget > 0 { text := Clip(m, raw, budget); }
  }

  /** Whatever the counter, the lines kept at any point are none or fit. */
  lemma {:induction false} KeptFits(m: Meter, entries: seq<Entry>, budget: int, i: nat)
    requires i <= |entries|
    ensures Kept(m, entries, budget, i) == [] || PageFits(m, Kept(m, entries, budget, i), budget)
    decreases |entries| - i
  {
    if i < |entries| { KeptFits(m, entries, budget, i + 1); }
  }

  /** For a positive budget the section measures within it, exactly when there is some history or the
      fixed text for no history happens to fit. */
  lemma {:induction false} HistoryFitsIff(m: Meter, entries: seq<Entry>, raw: string, isEmpty: bool, budget: int)
    requires Sane(m) && budget > 0
    ensures Measure(m, HistoryText(m, entries, raw, isEmpty, budget)) <= budget
      <==> !isEmpty || Measure(m, NoHistory) <= budget
  {
    ClipFits(m, raw, budget);
  }

  /** The raw transcript is clipped only when no line was kept and even the title is over budget. */
  lemma {:induction false} RawOnlyWhenNothingKept(m: Meter, entries: seq<Entry>, raw: string, budget: int)
    requires budget > 0
    ensures var kept := Kept(m, entries, budget, 0);
      Measure(m, Page(Title, kept)) > budget <==> kept == [] && Measure(m, Title) > budget
  {
    KeptFits(m, entries, budget, 0);
    TitleOnly();
  }

  lemma {:induction false} TitleOnly()
    ensures Page(Title, []) == Title
  {
    assert ([Title] + [])[0] == Title;
  }

  /** Older entries never displace or shorten what was kept of newer ones. */
  lemma {:induction false} NewerLinesStay(m: Meter, entries: seq<Entry>, budget: int, i: nat, j: nat)
    requires i <= j <= |entries|
    ensures IsSuffix(Kept(m, entries, budget, j), Kept(m, entries, budget, i))
    decreases j - i
  {
    if i < j {
      NewerLinesStay(m, entries, budget, i + 1, j);
      PrependSuffix(m, entries[i], Kept(m, entries, budget, i + 1), budget, Kept(m, entries, budget, j));
    }
  }

  lemma {:induction false} PrependSuffix(m: Meter, e: Entry, later: seq<string>, budget: int, a: seq<string>)
    requires IsSuffix(a, later)
    ensures IsSuffix(a, Prepend(m, e, later, budget))
  {
  }

  /** What an entry adds in front of the later lines: all its lines when these fit with them, else nothing, or
      every line clipped, to twenty for an older entry and to no less than that for a recent one. */
  lemma {:induction false} EntryAdds(m: Meter, entries: seq<Entry>, budget: int, i: nat) returns (limit: int)
    requires i < |entries|
    ensures limit >= 20 && (!entries[i].recent ==> limit == 20)
    ensures var e, later, kept := entries[i], Kept(m, entries, budget, i + 1), Kept(m, entries, budget, i);
      if Measure(m, Page(Title, e.lines + later)) <= budget then kept == e.lines + later
      else kept == later || (|kept| == |e.lines| + |later| && kept[|e.lines|..] == later
                             && forall k :: 0 <= k < |e.lines| ==> kept[k] == Clip(m, e.lines[k], limit))
  {
    limit := LineLimit(entries[i], Kept(m, entries, budget, i + 1), budget);
  }

  /** When the newest entry fits, each of its lines stands in the transcript, complete. */
  lemma {:induction false} NewestIsShown(m: Meter, entries: seq<Entry>, raw: string, budget: int, i: nat)
    requires entries != [] && i < |entries[|entries| - 1].lines| && PageFits(m, entries[|entries| - 1].lines, budget)
    ensures Holds(HistoryText(m, entries, raw, false, budget), entries[|entries| - 1].lines[i])
  {
    var n, lines := |entries| - 1, entries[|entries| - 1].lines;
    assert lines + [] == lines;
    assert Kept(m, entries, budget, n) == lines;
    NewerLinesStay(m, entries, budget, 0, n);
    KeptFits(m, entries, budget, 0);
    var kept := Kept(m, entries, budget, 0);
    var k := |kept| - |lines| + i;
    assert kept[|kept| - |lines|..][i] == kept[k];
    PageHolds(Title, kept, k);
  }

  /** All lines of the entries from `i` on. */
  function AllLines(entries: seq<Entry>, i: nat): seq<string>
    requires i <= |entries|
    decreases |entries| - i
  {
    if i == |entries| then [] else entries[i].lines + AllLines(entries, i + 1)
  }

  /** When every later part of the transcript fits whole, nothing is dropped or clipped. */
  lemma {:induction false} FittingHistoryIsWhole(m: Meter, entries: seq<Entry>, budget: int, i: nat)
    requires i <= |entries|
    requires forall j :: i <= j <= |entries| ==> PageFits(m, AllLines(entries, j), budget)
    ensures Kept(m, entries, budget, i) == AllLines(entries, i)
    decreases |entries| - i
  {
    if i < |entries| {
      FittingHistoryIsWhole(m, entries, budget, i + 1);
      assert PageFits(m, AllLines(entries, i), budget);
    }
  }

  // ------------------------------------------------------- the transcript's entries

  datatype Item = Tool(name: string, path: string, text: string) | Said(role: string, text: string)

  /** How items are put into lines, and the summaries known of files. */
  datatype Style = Style(lines: (Item, nat) -> seq<string>, oldTool: Item -> string, summary: string -> string)

  predicate IsRead(item: Item) { item.Tool? && item.name == "read_file" }

  const RecentWindow := 6

  function RecentStart(n: nat): nat { if n > RecentWindow then n - RecentWindow else 0 }

  function EntryOf(style: Style, item: Item, recent: bool): Entry
  {
    if recent then Entry(true, style.lines(item, 900))
    else if IsRead(item) && style.summary(item.path) != "" then
      Entry(false, [item.path + " -> " + style.summary(item.path)])
    else if item.Tool? then Entry(false, [style.oldTool(item)])
    else Entry(false, style.lines(item, 60))
  }

  /** An older read of a path that an earlier item read already. */
  predicate Repeated(history: seq<Item>, start: nat, i: nat)
    requires i < |history|
  {
    i < start && IsRead(history[i]) && exists j ::
      0 <= j < i && IsRead(history[j]) && history[j].path == history[i].path
  }

  /** The first `n` items but for repeated reads. */
  function Entries(style: Style, history: seq<Item>, start: nat, n: nat): seq<Entry>
    requires n <= |history|
  {
    if n == 0 then []
    else if Repeated(history, start, n - 1) then Entries(style, history, start, n - 1)
    else Entries(style, history, start, n - 1) + [EntryOf(style, history[n - 1], n - 1 >= start)]
  }

  method CompressedHistory(style: Style, history: seq<Item>) returns (entries: seq<Entry>)
    ensures entries == Entries(style, history, RecentStart(|history|), |history|)
  {
    var start := RecentStart(|history|);
    var seen: set<string> := {};
    entries := [];
    for i := 0 to |history|
      invariant entries == Entries(style, history, start, i)
      invariant forall p ::
                  p in seen <==> exists j :: 0 <= j < i && j < start && IsRead(history[j]) && history[j].path == p
    {
      var item := history[i];
      if i >= start {
        entries := entries + [Entry(true, style.lines(item, 900))];
      } else if IsRead(item) && item.path in seen {
        assert Repeated(history, start, i);
      } else {
        if IsRead(item) { seen := seen + {item.path}; }
        entries := entries + [EntryOf(style, item, false)];
      }
    }
  }

  /** The last six items are always entries of their own, at the end and in order. */
  lemma {:induction false} RecentItemsStay(style: Style, history: seq<Item>, n: nat, i: nat)
    requires |history| - 6 <= i < n <= |history|
    ensures var e := Entries(style, history, RecentStart(|history|), n);
      |e| >= n - i && e[|e| - (n - i)] == Entry(true, style.lines(history[i], 900))
  {
    if i < n - 1 { RecentItemsStay(style, history, n - 1, i); }
  }

  /** What becomes of an older item. A read of a file that was read before leaves nothing; any other item becomes
      one entry, a read of a file with a known summary the line with that summary. */
  lemma {:induction false} OlderItems(style: Style, history: seq<Item>, i: nat)
    requires i < |history| - 6
    ensures var start, item := RecentStart(|history|), history[i];
      var before, after := Entries(style, history, start, i), Entries(style, history, start, i + 1);
      if item.Tool? && item.name == "read_file"
         && exists j :: 0 <= j < i && history[j].Tool? && history[j].name == "read_file" && history[j].path == item.path
      then after == before
      else
        && |after| == |before| + 1 && after[..|before|] == before && !after[|before|].recent
        && (item.Tool? && item.name == "read_file" && style.summary(item.path) != "" ==>
              after[|before|].lines == [item.path + " -> " + style.summary(item.path)])
        && (item.Said? ==> after[|before|].lines == style.lines(item, 60))
  {
  }
}
