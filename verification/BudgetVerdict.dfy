/** The validator's budget check on a compiled legacy prompt, and the status it leads to. */
module BudgetVerdict {
  import opened Wrappers
  import opened LegacyBudget

  /** Metadata and requirement keys the budget check looks at. */
  datatype Field =
    | CompiledContextTokens | EstimatedPromptTokens | PromptTokens | PromptChars
    | CompilerBudget | Budget | ValidationBudget | UsableInputBudget | PromptBudget | PromptBudgetChars
    | ValidationBudgetUnit | BudgetUnit | BudgetMode | Compiler | BudgetSource | PromptOverBudget

  datatype Value = Num(n: int) | Flag(b: bool) | Text(t: string)

  type Meta = map<Field, Value>

  /** A number, or a text that parses as one; flags do not count. */
  function Number(m: Meta, f: Field, parse: string -> Option<int>): Option<int>
  {
    if f !in m then None
    else match m[f]
      case Num(n) => Some(n)
      case Flag(_) => None
      case Text(t) => parse(t)
  }

  /** The first field with a number. */
  function FirstNumber(m: Meta, fields: seq<Field>, i: nat, parse: string -> Option<int>): Option<int>
    requires i <= |fields|
    decreases |fields| - i
  {
    if i == |fields| then None
    else var v := Number(m, fields[i], parse); if v.Some? then v else FirstNumber(m, fields, i + 1, parse)
  }

  /** For each field the requirements come before the metadata. */
  function FirstOfBoth(
      requirements: Meta, m: Meta, fields: seq<Field>, i: nat, parse: string -> Option<int>): Option<int>
    requires i <= |fields|
    decreases |fields| - i
  {
    if i == |fields| then None
    else if Number(requirements, fields[i], parse).Some? then Number(requirements, fields[i], parse)
    else if Number(m, fields[i], parse).Some? then Number(m, fields[i], parse)
    else FirstOfBoth(requirements, m, fields, i + 1, parse)
  }

  function TextOf(m: Meta, f: Field): string { if f in m && m[f].Text? then m[f].t else "" }

  /** The legacy token count: recorded, else characters in character mode, else counted afresh. */
  function FinalTokens(m: Meta, prompt: string, count: Option<string -> int>, parse: string -> Option<int>): Option<int>
  {
    var recorded := FirstNumber(m, [CompiledContextTokens, EstimatedPromptTokens, PromptTokens], 0, parse);
    if recorded.Some? then recorded
    else if TextOf(m, BudgetMode) == "char" && Number(m, PromptChars, parse).Some? then Number(m, PromptChars, parse)
    else if count.Some? then Some(if count.value(prompt) > 0 then count.value(prompt) else 0)
    else None
  }

  predicate CharacterUnit(unit: string)
  {
    unit == "char" || unit == "chars" || unit == "character" || unit == "characters"
  }

  function Lower(t: string): string
  {
    seq(|t|, i requires 0 <= i < |t| => if 'A' <= t[i] <= 'Z' then (t[i] as int + 32) as char else t[i])
  }

  /** The unit the budget is counted in, as far as it is named, in lower case. */
  function Unit(m: Meta): string
  {
    Lower(NamedUnit(m))
  }

  function NamedUnit(m: Meta): string
  {
    if TextOf(m, ValidationBudgetUnit) != "" then TextOf(m, ValidationBudgetUnit)
    else if TextOf(m, BudgetUnit) != "" then TextOf(m, BudgetUnit)
    else TextOf(m, BudgetMode)
  }

  function BudgetLimit(m: Meta, requirements: Meta, parse: string -> Option<int>): Option<int>
  {
    var explicit := FirstOfBoth(requirements, m, [CompilerBudget, Budget], 0, parse);
    if explicit.Some? then explicit
    else
      var characters :=
        if !CharacterUnit(Unit(m)) then None
        else if TextOf(m, Compiler) == "context_compiler"
        then
          FirstOfBoth(requirements, m, [ValidationBudget, UsableInputBudget, PromptBudgetChars, PromptBudget], 0, parse)
        else FirstOfBoth(requirements, m, [ValidationBudget, PromptBudgetChars, PromptBudget], 0, parse);
      if characters.Some? then characters
      else FirstOfBoth(requirements, m, [UsableInputBudget, PromptBudget, PromptBudgetChars], 0, parse)
  }

  function CheckBudget(m: Meta, tokens: Option<int>, limit: Option<int>): Option<bool>
  {
    if PromptOverBudget in m && m[PromptOverBudget] == Flag(true) then Some(false)
    else if limit.None? || tokens.None? then None
    else if TextOf(m, Compiler) == "context_compiler" && TextOf(m, BudgetSource) == "fallback"
            && tokens.value > limit.value then None
    else Some(tokens.value <= limit.value)
  }

  // ------------------------------------------------------------ the decision

  datatype Check = Check(ok: Option<bool>, required: bool, hard: bool, retryable: bool)

  datatype Status = Valid | ValidWithFallback | Invalid
  datatype Action = Allow | RetryAssembly | Reject

  predicate HardFailure(c: Check) { c.required && c.hard && c.ok == Some(false) }

  predicate SoftFailure(c: Check) { !c.hard && c.ok == Some(false) }

  function Decide(checks: seq<Check>, fallbackUsed: bool): (Status, Action)
  {
    if exists i :: 0 <= i < |checks| && HardFailure(checks[i]) then
      var retry := forall i :: 0 <= i < |checks| && HardFailure(checks[i]) ==> checks[i].retryable;
      (Invalid, if retry then RetryAssembly else Reject)
    else
      var soft := exists i :: 0 <= i < |checks| && SoftFailure(checks[i]);
      (if fallbackUsed || soft then ValidWithFallback else Valid, Allow)
  }

  /** A decision rejects exactly when some check that is required and hard has failed and may not be retried; it
      asks for reassembly when such checks failed and all may be retried; otherwise it allows, with a fallback
      noted when one was used or a soft check failed. */
  lemma {:induction false} DecisionIs(checks: seq<Check>, fallbackUsed: bool)
    ensures var (status, action) := Decide(checks, fallbackUsed);
      && (action == Reject <==>
            exists c :: c in checks && c.required && c.hard && c.ok == Some(false) && !c.retryable)
      && (action == Allow <==> forall c :: c in checks && c.required && c.hard ==> c.ok != Some(false))
      && (status == Invalid <==> action != Allow)
      && (status == ValidWithFallback <==>
            action == Allow && (fallbackUsed || exists c :: c in checks && !c.hard && c.ok == Some(false)))
  {
    forall c | c in checks ensures exists i :: 0 <= i < |checks| && checks[i] == c { }
    forall i | 0 <= i < |checks| ensures checks[i] in checks { }
  }

  /** A limit the requirements name for the compiler comes first, then one the metadata names for it; a flag
      in its place does not count. */
  lemma {:induction false} NamedLimitComesFirst(m: Meta, requirements: Meta, parse: string -> Option<int>, v: int)
    ensures CompilerBudget in requirements && requirements[CompilerBudget] == Num(v) ==>
              BudgetLimit(m, requirements, parse) == Some(v)
    ensures
              (CompilerBudget in requirements ==> requirements[CompilerBudget].Flag?)
              && CompilerBudget in m && m[CompilerBudget] == Num(v) ==>
              BudgetLimit(m, requirements, parse) == Some(v)
  {
    assert [CompilerBudget, Budget][0] == CompilerBudget;
  }

  /** Without a limit named for the compiler, the one required in characters decides when the budget is
      counted in characters, whatever other limits there are; else the one required of the usable input. */
  lemma {:induction false} UnitDecidesLimit(m: Meta, requirements: Meta, parse: string -> Option<int>, v: int)
    requires {CompilerBudget, Budget} !! (requirements.Keys + m.Keys)
    ensures ValidationBudgetUnit in m && m[ValidationBudgetUnit] in {Text("char"), Text("Characters")}
            && ValidationBudget in requirements && requirements[ValidationBudget] == Num(v) ==>
              BudgetLimit(m, requirements, parse) == Some(v)
    ensures {ValidationBudgetUnit, BudgetUnit, BudgetMode} !! m.Keys
            && UsableInputBudget in requirements && requirements[UsableInputBudget] == Num(v) ==>
              BudgetLimit(m, requirements, parse) == Some(v)
  {
    assert Lower("char") == "char" && Lower("Characters") == "characters" && Lower("") == "";
    assert FirstOfBoth(requirements, m, [CompilerBudget, Budget], 2, parse) == None;
    assert FirstOfBoth(requirements, m, [CompilerBudget, Budget], 1, parse) == None;
  }

  /** The count the compiler recorded comes before any other, and before counting again. */
  lemma {:induction false} RecordedCountComesFirst(
      m: Meta, prompt: string, count: Option<string -> int>, parse: string -> Option<int>, v: int)
    ensures CompiledContextTokens in m && m[CompiledContextTokens] == Num(v) ==>
              FinalTokens(m, prompt, count, parse) == Some(v)
    ensures {CompiledContextTokens, EstimatedPromptTokens, PromptTokens, BudgetMode} !! m.Keys ==>
              FinalTokens(m, prompt, count, parse) ==
                if count.None? then None else Some(if count.value(prompt) < 0 then 0 else count.value(prompt))
  {
    var fields := [CompiledContextTokens, EstimatedPromptTokens, PromptTokens];
    assert fields[0] == CompiledContextTokens && fields[1] == EstimatedPromptTokens && fields[2] == PromptTokens;
    if {CompiledContextTokens, EstimatedPromptTokens, PromptTokens, BudgetMode} !! m.Keys {
      assert FirstNumber(m, fields, 3, parse) == None;
      assert FirstNumber(m, fields, 2, parse) == None;
      assert FirstNumber(m, fields, 1, parse) == None;
    }
  }

  /** The budget check is hard, its failure can be retried, and it is required when there is a limit. */
  function BudgetCheck(ok: Option<bool>, limit: Option<int>, m: Meta): Check
  {
    Check(ok, limit.Some? || PromptOverBudget in m, true, true)
  }

  // ----------------------------------------------------- compile, then check

  /** What the legacy compiler records about its result. */
  function Recorded(s: Setup, out: Layers): Meta
  {
    map[CompiledContextTokens := Num(s.count(Assemble(out))), UsableInputBudget := Num(s.budget),
        Compiler := Text("context_compiler"), BudgetSource := Text(if s.fallback then "fallback" else "configured")]
  }

  /** `m` carries the compiler's records, and nothing that names another limit or count. */
  predicate Carries(m: Meta, recorded: Meta)
  {
    && (forall f :: f in recorded ==> f in m && m[f] == recorded[f])
    && forall f :: f in {CompilerBudget, Budget, ValidationBudget, PromptOverBudget} ==> f !in m
  }

  lemma {:induction false} RecordsDecide(
      s: Setup, out: Layers, m: Meta, prompt: string, count: Option<string -> int>, parse: string -> Option<int>)
    requires Carries(m, Recorded(s, out))
    ensures FinalTokens(m, prompt, count, parse) == Some(s.count(Assemble(out)))
    ensures BudgetLimit(m, map[], parse) == Some(s.budget)
  {
    var r := Recorded(s, out);
    assert CompiledContextTokens in r && UsableInputBudget in r && Compiler in r;
    assert FirstNumber(m, [CompiledContextTokens, EstimatedPromptTokens, PromptTokens], 0, parse) ==
      Some(s.count(Assemble(out)));
    LimitIs(m, parse, s.budget);
  }

  lemma {:induction false} LimitIs(m: Meta, parse: string -> Option<int>, budget: int)
    requires UsableInputBudget in m && m[UsableInputBudget] == Num(budget)
    requires TextOf(m, Compiler) == "context_compiler"
    requires CompilerBudget !in m && Budget !in m && ValidationBudget !in m
    ensures BudgetLimit(m, map[], parse) == Some(budget)
  {
    var explicit := [CompilerBudget, Budget];
    assert FirstOfBoth(map[], m, explicit, 2, parse) == None;
    assert FirstOfBoth(map[], m, explicit, 1, parse) == None;
    var characters := [ValidationBudget, UsableInputBudget, PromptBudgetChars, PromptBudget];
    assert FirstOfBoth(map[], m, characters, 1, parse) == Some(budget);
    var usual := [UsableInputBudget, PromptBudget, PromptBudgetChars];
    assert FirstOfBoth(map[], m, usual, 0, parse) == Some(budget);
  }

  /** For a positive, known budget the check fails exactly when the first text overflowed and the
      required base overflows too; otherwise it passes. */
  lemma {:induction false} BudgetCheckFailsIff(
      s: Setup, l: Layers, m: Meta, prompt: string, count: Option<string -> int>, parse: string -> Option<int>)
    requires s.budget > 0 && !s.fallback && Carries(m, Recorded(s, Guarded(s, l)))
    ensures var ok := CheckBudget(m, FinalTokens(m, prompt, count, parse), BudgetLimit(m, map[], parse));
      ok.Some? && (ok == Some(false) <==> Over(s, l) && Over(s, Base(l)))
  {
    var out := Guarded(s, l);
    RecordsDecide(s, out, m, prompt, count, parse);
    GuardedFitsIff(s, l);
    assert BudgetSource in Recorded(s, out) && m[BudgetSource] == Text("configured");
    assert |"configured"| != |"fallback"|;
  }

  /** When every other required check passes, a legacy prompt that cannot fit is retried, not
      rejected, and every other one is allowed. */
  lemma {:induction false} LegacyPromptDecision(
      s: Setup, l: Layers, m: Meta, prompt: string, count: Option<string -> int>, parse: string -> Option<int>,
      others: seq<Check>, fallbackUsed: bool)
    requires s.budget > 0 && !s.fallback && Carries(m, Recorded(s, Guarded(s, l)))
    requires forall i :: 0 <= i < |others| ==> !HardFailure(others[i])
    ensures var limit := BudgetLimit(m, map[], parse);
      var check := BudgetCheck(CheckBudget(m, FinalTokens(m, prompt, count, parse), limit), limit, m);
      Decide([check] + others, fallbackUsed).1 == if Over(s, l) && Over(s, Base(l)) then RetryAssembly else Allow
  {
    BudgetCheckFailsIff(s, l, m, prompt, count, parse);
    RecordsDecide(s, Guarded(s, l), m, prompt, count, parse);
    var limit := BudgetLimit(m, map[], parse);
    var check := BudgetCheck(CheckBudget(m, FinalTokens(m, prompt, count, parse), limit), limit, m);
    OnlyFirstDecides(check, others, fallbackUsed);
  }

  lemma {:induction false} OnlyFirstDecides(check: Check, others: seq<Check>, fallbackUsed: bool)
    requires check.retryable && forall i :: 0 <= i < |others| ==> !HardFailure(others[i])
    ensures Decide([check] + others, fallbackUsed).1 == if HardFailure(check) then RetryAssembly else Allow
  {
    var checks := [check] + others;
    assert checks[0] == check;
    assert forall i :: 1 <= i < |checks| ==> checks[i] == others[i - 1];
  }

  /** Under the fallback budget the guard stands back and the check never fails: it passes or abstains. */
  lemma {:induction false} FallbackNeverFails(
      s: Setup, l: Layers, m: Meta, prompt: string, count: Option<string -> int>, parse: string -> Option<int>)
    requires s.fallback && Carries(m, Recorded(s, Guarded(s, l)))
    ensures Guarded(s, l) == l
    ensures CheckBudget(m, FinalTokens(m, prompt, count, parse), BudgetLimit(m, map[], parse)) ==
      if Over(s, l) then None else Some(true)
  {
    RecordsDecide(s, l, m, prompt, count, parse);
    assert BudgetSource in Recorded(s, l) && Compiler in Recorded(s, l);
  }
}
