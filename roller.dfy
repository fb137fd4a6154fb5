/** `roll_dice` (dice_roller.py:703-792): parse, evaluate, and turn the outcome into
    the response record, or the error into the error record. The JSON dictionaries
    of the source are the `Response` datatype; `to_dict` and the command-line
    `main` are not part of this model. */
module Roller {
  import opened DiceTypes
  import opened Csprng
  import opened EvalSpec
  import EvalProps
  import ParserSpec
  import Parser
  import Evaluator

  /** `ResultType`: a sum, or a count of successes. */
  datatype ResultType = SumResult | SuccessCount

  /** The `final` field: Python's `int(result)` when the value is a whole number,
      the value itself otherwise. */
  datatype Final = Int(i: int) | Float(f: real)

  /** The response dictionary, with `"ok"` telling the two kinds apart; the
      error kinds other than `ParseError` carry no position. */
  datatype Response =
    | Success(final: Final, resultType: ResultType, trace: seq<DiceTrace>, rngSource: string, rngMethod: string,
              maxDice: nat, maxExplosions: nat, version: string)
    | Failure(errorType: string, message: string, position: Option<nat>, input: string)

  /** `any(t.successes is not None for t in traces)`. */
  function ResultTypeOf(traces: seq<DiceTrace>): (t: ResultType) {
    if exists i :: 0 <= i < |traces| && traces[i].successes.Some? then SuccessCount else SumResult
  }

  predicate IsWhole(x: real) {
    x.Floor as real == x
  }

  function FinalOf(x: real): (f: Final) {
    if IsWhole(x) then Int(x.Floor) else Float(x)
  }

  /** The number a `final` field stands for. */
  function FinalValue(f: Final): real {
    match f
    case Int(i) => i as real
    case Float(x) => x
  }

  /** The `final` field stands for the value computed, and is an integer exactly
      when that value is a whole number. */
  lemma FinalKeepsValue(x: real)
    ensures FinalValue(FinalOf(x)) == x
    ensures FinalOf(x).Int? <==> IsWhole(x)
  {
  }

  /** The error record of each `except` clause: a parse error with its position
      and the stripped input; the dice errors with their class name and the
      expression as given; anything else as an unexpected `RuntimeError`. */
  function Failed(e: Error, expression: string): (r: Response)
    ensures r.Failure?
  {
    match e
    case ParseError(m, p, inp) => Failure("ParseError", m, Some(p), inp)
    case SemanticError(m) => Failure("SemanticError", m, None, expression)
    case LimitError(m) => Failure("LimitError", m, None, expression)
    case DiceError(m) => Failure("DiceError", m, None, expression)
    case ValueError(m) => Failure("RuntimeError", "Unexpected error: " + m, None, expression)
  }

  /** The error record keeps the error's message (behind a prefix for an
      unexpected error), reports a position exactly for a parse error, and names
      the expression as given unless the parser named its stripped text. */
  lemma FailedKeepsMessage(e: Error, expression: string)
    ensures var r := Failed(e, expression);
      && (r.position.Some? <==> e.ParseError?)
      && (e.ParseError? ==> r.position == Some(e.position) && r.input == e.input)
      && (!e.ParseError? ==> r.input == expression)
      && (e.ValueError? <==> r.errorType == "RuntimeError")
      && |e.message| <= |r.message| && r.message[|r.message| - |e.message|..] == e.message
  {
  }

  /** The success record for a value and the traces of its evaluation. */
  function Succeeded(value: real, traces: seq<DiceTrace>): (r: Response)
    ensures r.Success?
  {
    Success(FinalOf(value), ResultTypeOf(traces), traces, "CSPRNG", "rejectionSampling", MAX_DICE, MAX_EXPLOSIONS,
            VERSION)
  }

  /** `roll_dice` on the entropy source read from `c`: the response and the cursor
      after the dice rolled. A failed parse draws nothing. */
  function Respond(src: EntropySource, c: Cursor, expression: string): (Response, Cursor) {
    match ParserSpec.Parse(expression)
    case Err(e) => (Failed(e, expression), c)
    case Ok(ast) =>
      var run := Eval(src, c, ast, []);
      match run.result
      case Err(e) => (Failed(e, expression), run.cursor)
      case Ok(v) => (Succeeded(v, run.traces), run.cursor)
  }

  /** `roll_dice`: a fresh parser and evaluator for each expression. */
  method RollDice(expression: string, rng: EntropySource) returns (r: Response)
    modifies rng
    ensures r == Respond(rng, old(rng.State()), expression).0
    ensures rng.State() == Respond(rng, old(rng.State()), expression).1
  {
    var parser := new Parser.DiceParser(expression);
    assert parser.Current() == ParserSpec.Tokens(expression);
    var ast := parser.Parse();
    if ast.Err? {
      return Failed(ast.error, expression);
    }
    var evaluator := new Evaluator.DiceEvaluator(rng);
    var result := evaluator.Evaluate(ast.value);
    if result.Err? {
      return Failed(result.error, expression);
    }
    r := Succeeded(result.value, evaluator.traces);
  }

  /** A successful roll reports a success count exactly when some dice term of the
      expression has a comparator, and one trace per dice term. */
  lemma RollType(src: EntropySource, c: Cursor, expression: string)
    ensures var (r, _) := Respond(src, c, expression);
      r.Success? ==>
        var ast := ParserSpec.Parse(expression).value;
        && (r.resultType == SuccessCount <==> EvalProps.Counts(ast))
        && |r.trace| == EvalProps.DiceCount(ast)
  {
    var p := ParserSpec.Parse(expression);
    if p.Ok? {
      EvalProps.EvalCounts(src, c, p.value, []);
      EvalProps.EvalTraces(src, c, p.value, []);
    }
  }

  /** An expression that parses to plain arithmetic draws nothing, records no
      trace, reports a sum, and fails only on division by zero. */
  lemma RollArithmetic(src: EntropySource, c: Cursor, expression: string)
    requires ParserSpec.Parse(expression).Ok? && EvalProps.DiceFree(ParserSpec.Parse(expression).value)
    ensures var (r, after) := Respond(src, c, expression);
      var v := EvalProps.Value(ParserSpec.Parse(expression).value);
      && after == c
      && (v.Ok? ==> r.Success? && r.trace == [] && r.resultType == SumResult && FinalValue(r.final) == v.value)
      && (v.Err? ==> r == Failure("DiceError", "Division by zero", None, expression))
  {
    var ast := ParserSpec.Parse(expression).value;
    EvalProps.DiceFreeEval(src, c, ast, []);
    if EvalProps.Value(ast).Ok? {
      FinalKeepsValue(EvalProps.Value(ast).value);
    } else {
      EvalProps.ValueFails(ast);
    }
  }
}
