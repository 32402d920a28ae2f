/** Assembling one prompt: the four sections rendered in their budgets, then the request, whole. */
module PromptBuild {
  import opened Wrappers
  import opened Text
  import opened TokenBudget
  import opened PromptSections
  import opened PromptReduction

  /** What a prompt is made of. */
  datatype Input = Input(
    prefix: string, memory: string, notes: seq<string>,
    entries: seq<Entry>, rawHistory: string, noHistory: bool, message: string)

  datatype Limits = Limits(window: Option<int>, maxNew: int, margin: int, total: int)

  const Prefix := "prefix"
  const Memory := "memory"
  const Relevant := "relevant_memory"
  const History := "history"
  const Gap := "\n\n"

  function Request(x: Input): string { "Current user request:\n" + x.message }

  /** A section without a budget is not clipped. */
  function Plain(m: Meter, raw: string, b: Budgets, s: Section): string
  {
    if s in b then Clip(m, raw, b[s]) else raw
  }

  function Head(m: Meter, x: Input, b: Budgets): string
  {
    Plain(m, x.prefix, b, Prefix) + Gap + Plain(m, x.memory, b, Memory) + Gap
    + NotesText(m, x.notes, Get(b, Relevant)) + Gap
    + HistoryText(m, x.entries, x.rawHistory, x.noHistory, Get(b, History)) + Gap
  }

  function Prompt(m: Meter, x: Input, b: Budgets): string { Strip(Head(m, x, b) + Request(x)) }

  function PromptSize(m: Meter, x: Input): Budgets -> nat { b => Measure(m, Prompt(m, x, b)) }

  /** The limit: what the model's window leaves, when tokens are counted and the window is known. */
  function TotalBudget(m: Meter, l: Limits): int
  {
    var tokens := PromptBudget(l.window, l.maxNew, l.margin);
    if m.Tokens? && tokens.Some? then tokens.value else l.total
  }

  function Values(b: Budgets, names: seq<Section>): seq<int>
  {
    seq(|names|, i requires 0 <= i < |names| => Get(b, names[i]))
  }

  /** The section budgets to start from; `names` lists the budgeted sections. */
  function StartBudgets(m: Meter, l: Limits, b: Budgets, names: seq<Section>): Budgets
  {
    var tokens := PromptBudget(l.window, l.maxNew, l.margin);
    if m.Chars? || tokens.None? then b
    else
      var sum := Sum(Values(b, names), |names|);
      if sum <= tokens.value then b else map s | s in b :: ShareOf(b[s], tokens.value, sum)
  }

  /** With a token budget, the starting budgets exceed it by at most one token for each section whose
      share would be less than one. */
  lemma {:induction false} StartWithinTotal(m: Meter, l: Limits, b: Budgets, names: seq<Section>)
    requires forall s :: s in names ==> s in b && b[s] >= 0
    requires m.Tokens? && PromptBudget(l.window, l.maxNew, l.margin).Some?
    ensures var total := PromptBudget(l.window, l.maxNew, l.margin).value;
      var values := Values(b, names); var sum := Sum(values, |values|);
      Sum(Values(StartBudgets(m, l, b, names), names), |names|)
        <= total + if sum <= total then 0 else Small(values, total, sum, |values|)
  {
    var total := PromptBudget(l.window, l.maxNew, l.margin).value;
    assert forall i :: 0 <= i < |names| ==> names[i] in names;
    assert Values(StartBudgets(m, l, b, names), names) == Fitted(Values(b, names), total);
    FittedWithinTotal(Values(b, names), total);
  }

  method RenderPrompt(m: Meter, x: Input, b: Budgets) returns (prompt: string)
    ensures prompt == Prompt(m, x, b)
  {
    var relevant := RenderRelevantMemory(m, x.notes, Get(b, Relevant));
    var history := RenderHistory(m, x.entries, x.rawHistory, x.noHistory, Get(b, History));
    prompt := Strip(
      Plain(m, x.prefix, b, Prefix) + Gap + Plain(m, x.memory, b, Memory) + Gap + relevant + Gap + history + Gap
        + Request(x));
  }

  method Build(
      m: Meter, x: Input, l: Limits, budgets: Budgets, names: seq<Section>, floors: Budgets, order: seq<Section>)
    returns (prompt: string, over: bool, b: Budgets, log: seq<Cutback>)
    ensures var start := StartBudgets(m, l, budgets, names);
      && b == Reduced(PromptSize(m, x), start, floors, order, TotalBudget(m, l))
      && log == Cutbacks(PromptSize(m, x), start, floors, order, TotalBudget(m, l))
    ensures prompt == Prompt(m, x, b)
    ensures over <==> Measure(m, prompt) > TotalBudget(m, l)
    ensures over ==> forall i :: 0 <= i < |order| ==> Get(b, order[i]) <= Get(floors, order[i])
  {
    var start, total := StartBudgets(m, l, budgets, names), TotalBudget(m, l);
    b, log := ReduceBudgets(PromptSize(m, x), start, floors, order, total);
    prompt := RenderPrompt(m, x, b);
    over := Measure(m, prompt) > total;
    ReductionEnds(PromptSize(m, x), start, floors, order, total);
  }

  // ------------------------------------------------------------- the request survives

  /** Whatever the budgets, the prompt ends with the request, complete but for white space at its end. */
  lemma {:induction false} RequestSurvives(m: Meter, x: Input, b: Budgets)
    ensures Prompt(m, x, b) == StripLeft(Head(m, x, b)) + StripRight(Request(x))
  {
    StripLeftKeeps(Head(m, x, b), Request(x));
    StripRightKeeps(StripLeft(Head(m, x, b)), Request(x));
  }

  /** So a request that does not end in white space is the prompt's last part, to the letter. */
  lemma {:induction false} RequestVerbatim(m: Meter, x: Input, b: Budgets)
    requires x.message != "" && !IsSpace(x.message[|x.message| - 1])
    ensures var p := Prompt(m, x, b); |p| >= |x.message| && p[|p| - |x.message|..] == x.message
  {
    RequestSurvives(m, x, b);
    var r := Request(x);
    assert r[|r| - 1] == x.message[|x.message| - 1];
    assert StripRight(r) == r;
    Ending(StripLeft(Head(m, x, b)), "Current user request:\n", x.message);
  }

  lemma {:induction false} Ending(a: string, b: string, c: string)
    ensures var p := a + (b + c); |p| >= |c| && p[|p| - |c|..] == c
  {
  }

  lemma {:induction false} OneOfFour(a: string, b: string, c: string, d: string, t: string)
    requires Holds(a, t) || Holds(b, t) || Holds(c, t) || Holds(d, t)
    ensures Holds(a + Gap + b + Gap + c + Gap + d + Gap, t)
  {
    if Holds(a, t) { HoldsBeside(a, Gap, t); }
    if Holds(a + Gap, t) || Holds(b, t) {
      HoldsBeside(a + Gap, b, t);
      HoldsBeside(a + Gap + b, Gap, t);
    }
    if Holds(a + Gap + b + Gap, t) || Holds(c, t) {
      HoldsBeside(a + Gap + b + Gap, c, t);
      HoldsBeside(a + Gap + b + Gap + c, Gap, t);
    }
    HoldsBeside(a + Gap + b + Gap + c + Gap, d, t);
    HoldsBeside(a + Gap + b + Gap + c + Gap + d, Gap, t);
  }

  /** Whatever solid text stands in the prefix or the memory, when these keep within their budgets or have none, or
      in the sections of notes and history as they are rendered, stands in the prompt. */
  lemma {:induction false} PromptShows(m: Meter, x: Input, b: Budgets, t: string)
    requires Solid(t) && Sane(m)
    requires || (Holds(x.prefix, t) && (Prefix in b ==> b[Prefix] > 0 && Measure(m, x.prefix) <= b[Prefix]))
             || (Holds(x.memory, t) && (Memory in b ==> b[Memory] > 0 && Measure(m, x.memory) <= b[Memory]))
             || Holds(NotesText(m, x.notes, Get(b, Relevant)), t)
             || Holds(HistoryText(m, x.entries, x.rawHistory, x.noHistory, Get(b, History)), t)
    ensures Holds(Prompt(m, x, b), t)
  {
    if Prefix in b && b[Prefix] > 0 { ClipKeepsIff(m, x.prefix, b[Prefix]); }
    if Memory in b && b[Memory] > 0 { ClipKeepsIff(m, x.memory, b[Memory]); }
    OneOfFour(
      Plain(m, x.prefix, b, Prefix), Plain(m, x.memory, b, Memory), NotesText(m, x.notes, Get(b, Relevant)),
      HistoryText(m, x.entries, x.rawHistory, x.noHistory, Get(b, History)), t);
    var whole := Head(m, x, b) + Request(x);
    HoldsBeside(Head(m, x, b), Request(x), t);
    StripHolds(whole, t);
  }

  /** The limit, in numbers: with a token counter and a known window, what the answer and the margin leave of it,
      but not less than nothing; else the given total, and section budgets as they are given. */
  lemma {:induction false} LimitOfWindow(m: Meter, l: Limits, b: Budgets, names: seq<Section>)
    ensures TotalBudget(m, l) ==
      if m.Tokens? && l.window.Some? && l.window.value != 0
      then (if l.window.value >= l.maxNew + l.margin then l.window.value - l.maxNew - l.margin else 0)
      else l.total
    ensures m.Chars? || l.window.None? || l.window.value == 0 ==> StartBudgets(m, l, b, names) == b
  {
  }

  /** Text in front of this one never makes it measure less; in characters that is so for every text. */
  ghost predicate Grows(m: Meter, tail: string) { m.Tokens? ==> forall a :: m.count(a + tail) >= m.count(tail) }

  /** A prompt whose request alone is over the limit is over it whatever is cut, so every section ends at
      its floor. */
  lemma {:induction false} RequestOverBudget(
      m: Meter, x: Input, floors: Budgets, start: Budgets, order: seq<Section>, total: int)
    requires Grows(m, StripRight(Request(x))) && Measure(m, StripRight(Request(x))) > total
    ensures forall b :: Measure(m, Prompt(m, x, b)) > total
    ensures var b := Reduced(PromptSize(m, x), start, floors, order, total);
      forall i :: 0 <= i < |order| ==> Get(b, order[i]) <= Get(floors, order[i])
  {
    forall b ensures Measure(m, Prompt(m, x, b)) > total { RequestSurvives(m, x, b); }
    ReductionEnds(PromptSize(m, x), start, floors, order, total);
  }

  /** Every section with a positive budget measures within it, but for the two fixed texts that stand
      for no notes and no history. */
  lemma {:induction false} SectionsFit(m: Meter, x: Input, b: Budgets)
    requires Sane(m)
    ensures Get(b, Prefix) > 0 ==> Measure(m, Plain(m, x.prefix, b, Prefix)) <= Get(b, Prefix)
    ensures Get(b, Memory) > 0 ==> Measure(m, Plain(m, x.memory, b, Memory)) <= Get(b, Memory)
    ensures Get(b, Relevant) > 0 ==>
      var text := NotesText(m, x.notes, Get(b, Relevant)); Measure(m, text) <= Get(b, Relevant) || text == NoNotes
    ensures Get(b, History) > 0 ==>
      var text := HistoryText(m, x.entries, x.rawHistory, x.noHistory, Get(b, History));
      Measure(m, text) <= Get(b, History) || text == NoHistory
  {
    if Get(b, Prefix) > 0 { ClipFits(m, x.prefix, b[Prefix]); }
    if Get(b, Memory) > 0 { ClipFits(m, x.memory, b[Memory]); }
    if Get(b, Relevant) > 0 { NotesFitIff(m, x.notes, b[Relevant]); }
    if Get(b, History) > 0 { HistoryFitsIff(m, x.entries, x.rawHistory, x.noHistory, b[History]); }
  }
}
