/** The dice evaluator (`DiceEvaluator`, dice_roller.py:449-700) as functions of
    where the entropy source stands: each takes the source's cursor and yields what
    the evaluator computes (or the error it raises) together with the cursor after
    the dice it rolled. `Evaluator.DiceEvaluator` is proved to follow them. */
module EvalSpec {
  import opened DiceTypes
  import opened Csprng

  /** `_check_condition`: an exact comparison of a value with a threshold. */
  predicate Meets(value: int, c: Comparison) {
    match c.op
    case Eq => value == c.value
    case Gt => value > c.value
    case Ge => value >= c.value
    case Lt => value < c.value
    case Le => value <= c.value
  }

  /** `_format_condition`: a bare number for `=`, the comparator and number
      otherwise. */
  function FormatCondition(c: Comparison): string {
    if c.op == Eq then NatToString(c.value) else OpText(c.op) + NatToString(c.value)
  }

  /** The faces a die of the term can show. */
  predicate IsFace(v: int, sides: nat, kind: DieKind) {
    if kind == Fate then -1 <= v <= 1 else 1 <= v <= sides
  }

  /** A three-sided face moved onto the Fate faces -1, 0 and 1. */
  function Shift(r: Result<int>): Result<int> {
    if r.Ok? then Ok(r.value - 2) else r
  }

  /** One die: `roll_die(3) - 2` for a Fate die, `roll_die(sides)` otherwise. */
  function DrawFace(src: EntropySource, c: Cursor, sides: nat, kind: DieKind): (d: Drawn<int>)
    ensures (kind == Fate || sides <= MAX_SIDES) && 1 <= sides ==> d.result.Ok? && IsFace(d.result.value, sides, kind)
    ensures sides == 1 && kind != Fate ==> d == Drawn(Ok(1), c)
    ensures d.result.Err? ==> d.cursor == c
  {
    var r := Roll(src, c, if kind == Fate then 3 else sides);
    if kind == Fate then Drawn(Shift(r.result), r.cursor) else r
  }

  function Fresh(v: int): DieRoll {
    DieRoll(v, [], [], None)
  }

  /** The first loop of `_eval_dice`: `count` fresh dice, in the order drawn. */
  function RollAll(src: EntropySource, c: Cursor, count: nat, sides: nat, kind: DieKind): Drawn<seq<DieRoll>>
    decreases count
  {
    if count == 0 then Drawn(Ok([]), c)
    else
      var prev := RollAll(src, c, count - 1, sides, kind);
      if prev.result.Err? then prev
      else
        var x := DrawFace(src, prev.cursor, sides, kind);
        if x.result.Err? then Drawn(Err(x.result.error), x.cursor)
        else Drawn(Ok(prev.result.value + [Fresh(x.result.value)]), x.cursor)
  }

  /** Visits every die in order, threading the source through `step` and stopping
      at the first error (the `for roll in rolls` loops of `_apply_rerolls` and
      `_apply_explosions`). */
  function Each(rs: seq<DieRoll>, c: Cursor, step: (DieRoll, Cursor) -> Drawn<DieRoll>): Drawn<seq<DieRoll>>
    decreases |rs|
  {
    if rs == [] then Drawn(Ok([]), c)
    else
      var prev := Each(rs[..|rs| - 1], c, step);
      if prev.result.Err? then prev
      else
        var x := step(rs[|rs| - 1], prev.cursor);
        if x.result.Err? then Drawn(Err(x.result.error), x.cursor)
        else Drawn(Ok(prev.result.value + [x.result.value]), x.cursor)
  }

  /** The reroll loop of one die, after `n` rerolls: while the value meets the
      condition and fewer than `MAX_REROLLS` rerolls were made, the value is
      superseded (and kept in `rerolls`) by a new draw; `ro` stops after one. */
  function RerollDie(src: EntropySource, c: Cursor, d: DieRoll, sides: nat, kind: DieKind, spec: Reroll, n: nat)
    : Drawn<DieRoll>
    decreases MAX_REROLLS - n, 1
  {
    if Meets(d.value, spec.cond) && n < MAX_REROLLS then Redraw(src, c, d, sides, kind, spec, n)
    else RerollsDone(d, n, c)
  }

  /** One reroll: the die takes a new draw and keeps its old value in `rerolls`. */
  function Redraw(src: EntropySource, c: Cursor, d: DieRoll, sides: nat, kind: DieKind, spec: Reroll, n: nat)
    : Drawn<DieRoll>
    requires n < MAX_REROLLS
    decreases MAX_REROLLS - n, 0
  {
    var x := DrawFace(src, c, sides, kind);
    if x.result.Err? then Drawn(Err(x.result.error), x.cursor)
    else
      var next := d.(value := x.result.value, rerolls := d.rerolls + [d.value]);
      if spec.once then RerollsDone(next, n + 1, x.cursor)
      else RerollDie(src, x.cursor, next, sides, kind, spec, n + 1)
  }

  /** The check after the reroll loop. */
  function RerollsDone(d: DieRoll, n: nat, c: Cursor): Drawn<DieRoll> {
    if n >= MAX_REROLLS then Drawn(Err(LimitError("Exceeded maximum rerolls of 10000")), c)
    else Drawn(Ok(d), c)
  }

  function RerollStep(src: EntropySource, sides: nat, kind: DieKind, spec: Reroll): (DieRoll, Cursor) -> Drawn<DieRoll> {
    (d: DieRoll, c: Cursor) => RerollDie(src, c, d, sides, kind, spec, 0)
  }

  /** The explosion threshold `'max'` stands for: the die's sides, 1 for a Fate
      die. */
  function Resolve(e: Explode, sides: nat, kind: DieKind): Comparison {
    Comparison(e.op, match e.threshold case Num(n) => n case Max => if kind == Fate then 1 else sides)
  }

  /** A penetrating explosion takes one off a positive increment. */
  function Penetrate(v: int, penetrating: bool): int {
    if penetrating && v > 0 then v - 1 else v
  }

  /** The explosion loop of one die, after `n` explosions, whose latest value is
      `current`: while it meets the condition and fewer than `MAX_EXPLOSIONS`
      explosions happened, a new increment is drawn and recorded; the die's own
      value stays as it was. */
  function ExplodeDie(src: EntropySource, c: Cursor, d: DieRoll, current: int, sides: nat, kind: DieKind,
                      penetrating: bool, cond: Comparison, n: nat): Drawn<DieRoll>
    decreases MAX_EXPLOSIONS - n, 1
  {
    if Meets(current, cond) && n < MAX_EXPLOSIONS then Explosion(src, c, d, sides, kind, penetrating, cond, n)
    else if n >= MAX_EXPLOSIONS then
      Drawn(Err(LimitError("Exceeded maximum explosions of 100")), c)
    else
      Drawn(Ok(d), c)
  }

  /** One explosion: a new increment is drawn and recorded, and the loop goes on
      from it. */
  function Explosion(src: EntropySource, c: Cursor, d: DieRoll, sides: nat, kind: DieKind,
                     penetrating: bool, cond: Comparison, n: nat): Drawn<DieRoll>
    requires n < MAX_EXPLOSIONS
    decreases MAX_EXPLOSIONS - n, 0
  {
    var x := DrawFace(src, c, sides, kind);
    if x.result.Err? then Drawn(Err(x.result.error), x.cursor)
    else
      var inc := Penetrate(x.result.value, penetrating);
      ExplodeDie(src, x.cursor, d.(explodes := d.explodes + [inc]), inc, sides, kind, penetrating, cond, n + 1)
  }

  function ExplodeStep(src: EntropySource, sides: nat, kind: DieKind, penetrating: bool, cond: Comparison)
    : (DieRoll, Cursor) -> Drawn<DieRoll>
  {
    (d: DieRoll, c: Cursor) => ExplodeDie(src, c, d, d.value, sides, kind, penetrating, cond, 0)
  }

  function Sum(xs: seq<int>): int
    decreases |xs|
  {
    if xs == [] then 0 else Sum(xs[..|xs| - 1]) + xs[|xs| - 1]
  }

  /** A die's value plus its explosion increments. */
  function Total(d: DieRoll): int {
    d.value + Sum(d.explodes)
  }

  function Totals(rs: seq<DieRoll>): (t: seq<int>)
    ensures |t| == |rs|
  {
    seq(|rs|, i requires 0 <= i < |rs| => Total(rs[i]))
  }

  /** `sorted(values, reverse=True)`, by insertion. */
  function SortDesc(xs: seq<int>): (s: seq<int>)
    decreases |xs|
    ensures |s| == |xs|
  {
    if xs == [] then [] else InsertDesc(SortDesc(xs[..|xs| - 1]), xs[|xs| - 1])
  }

  function InsertDesc(s: seq<int>, x: int): (r: seq<int>)
    decreases |s|
    ensures |r| == |s| + 1
  {
    if s == [] then [x]
    else if x >= s[0] then [x] + s
    else [s[0]] + InsertDesc(s[1..], x)
  }

  /** The slice a keep/drop takes of the values sorted high to low, with Python's
      reading of `[-0:]` (everything) and `[:-0]` (nothing). */
  function Select(s: seq<int>, k: Keep): seq<int>
    requires k.count <= |s|
  {
    match k.kind
    case KeepHigh => s[..k.count]
    case KeepLow => if k.count == 0 then s else s[|s| - k.count..]
    case DropHigh => s[k.count..]
    case DropLow => if k.count == 0 then [] else s[..|s| - k.count]
  }

  /** `_apply_keep_drop`: the kept per-die totals. */
  function KeepDrop(rs: seq<DieRoll>, k: Keep): Result<seq<int>> {
    var totals := Totals(rs);
    if k.count > |totals| then
      Err(SemanticError("Cannot keep/drop " + NatToString(k.count) + " from " + NatToString(|totals|) + " dice"))
    else
      Ok(Select(SortDesc(totals), k))
  }

  /** Whether `x` goes strictly before `y` in the sort order. */
  predicate Before(x: DieRoll, y: DieRoll, dir: SortDir) {
    if dir == Ascending then x.value < y.value else x.value > y.value
  }

  /** `rolls.sort(key=value)`, ascending or with `reverse=True`: a stable insertion,
      so a later die goes after the dice of equal value. */
  function SortRolls(rs: seq<DieRoll>, dir: SortDir): seq<DieRoll>
    decreases |rs|
  {
    if rs == [] then [] else InsertRoll(SortRolls(rs[..|rs| - 1], dir), rs[|rs| - 1], dir)
  }

  function InsertRoll(s: seq<DieRoll>, x: DieRoll, dir: SortDir): seq<DieRoll>
    decreases |s|
  {
    if s == [] then [x]
    else if Before(x, s[0], dir) then [x] + s
    else [s[0]] + InsertRoll(s[1..], x, dir)
  }

  function Values(rs: seq<DieRoll>): (v: seq<int>)
    ensures |v| == |rs|
  {
    seq(|rs|, i requires 0 <= i < |rs| => rs[i].value)
  }

  /** The success flags of `_count_successes`: set on the first `marked` dice. */
  function MarkSuccesses(rs: seq<DieRoll>, comp: Comparison, marked: nat): (m: seq<DieRoll>)
    ensures |m| == |rs|
  {
    seq(|rs|, i requires 0 <= i < |rs| =>
      if i < marked then rs[i].(success := Some(Meets(rs[i].value, comp))) else rs[i])
  }

  /** How many of the values meet the comparison. */
  function CountMeeting(xs: seq<int>, comp: Comparison): nat
    decreases |xs|
  {
    if xs == [] then 0
    else CountMeeting(xs[..|xs| - 1], comp) + (if Meets(xs[|xs| - 1], comp) then 1 else 0)
  }

  /** The explosion increments of all dice, die by die. */
  function Increments(rs: seq<DieRoll>): seq<int>
    decreases |rs|
  {
    if rs == [] then [] else Increments(rs[..|rs| - 1]) + rs[|rs| - 1].explodes
  }

  /** The plain sum of a term without keep/drop: the dice values, plus the
      explosion increments for Fate dice only. */
  function PlainSum(rs: seq<DieRoll>, kind: DieKind): int {
    Sum(Values(rs) + (if kind == Fate then Increments(rs) else []))
  }

  function SidesText(sides: nat, kind: DieKind): string {
    match kind
    case Standard => NatToString(sides)
    case Percentile => "%"
    case Fate => "F"
  }

  function KeepText(k: KeepKind): string {
    match k
    case KeepHigh => "kh"
    case KeepLow => "kl"
    case DropHigh => "dh"
    case DropLow => "dl"
  }

  function RerollText(r: Reroll): string {
    "r" + (if r.once then "o" else "") + FormatCondition(r.cond)
  }

  function ExplodeText(e: Explode): string {
    "!" + (if e.compound then "!" else "") + (if e.penetrating then "p" else "")
    + (match e.threshold case Num(n) => FormatCondition(Comparison(e.op, n)) case Max => "")
  }

  /** The term string of a trace, before the comparator: count, die, then the
      reroll, explosion and keep/drop modifiers in the order the parser lists
      them. */
  function TermString(count: nat, sides: nat, kind: DieKind, mods: Modifiers): string {
    NatToString(count) + "d" + SidesText(sides, kind)
    + (match mods.reroll case Some(r) => RerollText(r) case None => "")
    + (match mods.explode case Some(e) => ExplodeText(e) case None => "")
    + (match mods.keep case Some(k) => KeepText(k.kind) + NatToString(k.count) case None => "")
  }

  /** The modifiers as the trace shows them: resolving `'max'` rewrote the
      explosion condition in place. */
  function Shown(mods: Modifiers, sides: nat, kind: DieKind): Modifiers {
    match mods.explode
    case Some(e) => mods.(explode := Some(e.(threshold := Num(Resolve(e, sides, kind).value))))
    case None => mods
  }

  /** The random part of `_eval_dice`: roll, then reroll, then explode. */
  function Rolled(src: EntropySource, c: Cursor, count: nat, sides: nat, kind: DieKind, mods: Modifiers)
    : Drawn<seq<DieRoll>>
  {
    var rolled := RollAll(src, c, count, sides, kind);
    if rolled.result.Err? || mods.reroll.None? then Exploded(src, rolled, sides, kind, mods)
    else
      var rerolled := Each(rolled.result.value, rolled.cursor, RerollStep(src, sides, kind, mods.reroll.value));
      Exploded(src, rerolled, sides, kind, mods)
  }

  function Exploded(src: EntropySource, d: Drawn<seq<DieRoll>>, sides: nat, kind: DieKind, mods: Modifiers)
    : Drawn<seq<DieRoll>>
  {
    if d.result.Err? || mods.explode.None? then d
    else
      var e := mods.explode.value;
      Each(d.result.value, d.cursor, ExplodeStep(src, sides, kind, e.penetrating, Resolve(e, sides, kind)))
  }

  /** The rest of `_eval_dice` on the rolled dice: keep/drop, sort, then either the
      success count or the sum, with the term's trace. */
  function Settle(rs: seq<DieRoll>, count: nat, sides: nat, kind: DieKind, mods: Modifiers)
    : Result<(int, DiceTrace)>
  {
    match mods.keep
    case None => Ok(Finish(rs, None, count, sides, kind, mods))
    case Some(k) =>
      match KeepDrop(rs, k)
      case Err(e) => Err(e)
      case Ok(kept) => Ok(Finish(rs, Some(kept), count, sides, kind, mods))
  }

  function Finish(rs: seq<DieRoll>, kept: Option<seq<int>>, count: nat, sides: nat, kind: DieKind,
                  mods: Modifiers): (int, DiceTrace)
  {
    var sorted := match mods.sort case Some(dir) => SortRolls(rs, dir) case None => rs;
    var term := TermString(count, sides, kind, Shown(mods, sides, kind));
    match mods.comparator
    case Some(comp) =>
      var values := match kept case Some(k) => k case None => Values(sorted);
      var marked := match kept case Some(k) => |k| case None => |sorted|;
      var n := CountMeeting(values, comp);
      var threshold := OpText(comp.op) + NatToString(comp.value);
      (n, DiceTrace(term + threshold, MarkSuccesses(sorted, comp, marked), None, None, Some(threshold), Some(n)))
    case None =>
      match kept
      case Some(k) => (Sum(k), DiceTrace(term, sorted, kept, Some(Sum(k)), None, None))
      case None => (PlainSum(sorted, kind), DiceTrace(term, sorted, None, Some(PlainSum(sorted, kind)), None, None))
  }

  /** `_eval_dice`: the term's value and trace. */
  function DiceTerm(src: EntropySource, c: Cursor, count: nat, sides: nat, kind: DieKind, mods: Modifiers)
    : Drawn<(int, DiceTrace)>
  {
    var d := Rolled(src, c, count, sides, kind, mods);
    if d.result.Err? then Drawn(Err(d.result.error), d.cursor)
    else Drawn(Settle(d.result.value, count, sides, kind, mods), d.cursor)
  }

  /** An evaluation's result, the traces collected, and the cursor after it. */
  datatype Run = Run(result: Result<real>, traces: seq<DiceTrace>, cursor: Cursor)

  /** The arithmetic of `_eval_node`, true division giving an exact quotient. */
  function Apply(op: BinOp, x: real, y: real): Result<real> {
    match op
    case Add => Ok(x + y)
    case Sub => Ok(x - y)
    case Mul => Ok(x * y)
    case Div => if y == 0.0 then Err(DiceError("Division by zero")) else Ok(x / y)
  }

  /** Negation of an operand's value; an error passes through. */
  function Negate(x: Result<real>): Result<real> {
    if x.Ok? then Ok(-x.value) else x
  }

  /** The operator applied to a left value and the right operand's outcome. */
  function Combine(op: BinOp, x: Result<real>, y: Result<real>): Result<real>
    requires x.Ok?
  {
    if y.Err? then y else Apply(op, x.value, y.value)
  }

  /** `_eval_node`: operands left to right, each dice term appending its trace to
      the traces `acc` collected so far. */
  function Eval(src: EntropySource, c: Cursor, e: Expr, acc: seq<DiceTrace>): Run
    decreases e
  {
    match e
    case Number(n) => Run(Ok(n as real), acc, c)
    case UnaryOp(x) =>
      var a := Eval(src, c, x, acc);
      Run(Negate(a.result), a.traces, a.cursor)
    case BinaryOp(op, l, r) =>
      var a := Eval(src, c, l, acc);
      if a.result.Err? then a
      else
        var b := Eval(src, a.cursor, r, a.traces);
        Run(Combine(op, a.result, b.result), b.traces, b.cursor)
    case Dice(count, sides, kind, mods) =>
      var t := DiceTerm(src, c, count, sides, kind, mods);
      if t.result.Err? then Run(Err(t.result.error), acc, t.cursor)
      else Run(Ok(t.result.value.0 as real), acc + [t.result.value.1], t.cursor)
  }
}
