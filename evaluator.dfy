/** `DiceEvaluator` (dice_roller.py:449-700): walks the AST, rolls each dice term on
    the entropy source and applies its modifiers in the fixed order reroll,
    explode, keep/drop, sort, then success counting or summing, appending one trace
    per term. Every method is proved to compute what `EvalSpec` says, cursor
    included. The list of `DieRoll` records the source mutates is a local sequence
    that the loops update die by die. */
module Evaluator {
  import opened DiceTypes
  import opened Csprng
  import opened EvalSpec

  class DiceEvaluator {
    /** The traces of the dice terms evaluated so far. */
    var traces: seq<DiceTrace>
    const rng: EntropySource

    constructor (rng: EntropySource)
      ensures this.rng == rng && traces == []
    {
      this.rng := rng;
      traces := [];
    }

    /** `evaluate`: the value of the AST, with the traces of this evaluation only. */
    method Evaluate(ast: Expr) returns (r: Result<real>)
      modifies this, rng
      ensures var run := Eval(rng, old(rng.State()), ast, []);
        r == run.result && traces == run.traces && rng.State() == run.cursor
    {
      traces := [];
      r := EvalNode(ast);
    }

    /** `_eval_node`. */
    method EvalNode(node: Expr) returns (r: Result<real>)
      modifies this, rng
      decreases node, 1
      ensures var run := Eval(rng, old(rng.State()), node, old(traces));
        r == run.result && traces == run.traces && rng.State() == run.cursor
    {
      match node
      case Number(n) =>
        r := Ok(n as real);
      case BinaryOp(op, left, right) =>
        r := EvalBinary(op, left, right);
      case UnaryOp(operand) =>
        r := EvalUnary(operand);
      case Dice(count, sides, kind, mods) =>
        var value := EvalDice(count, sides, kind, mods);
        r := if value.Ok? then Ok(value.value as real) else Err(value.error);
    }

    /** The `BinaryOpNode` branch of `_eval_node`: left operand, then right, then the
        operator. */
    method EvalBinary(op: BinOp, left: Expr, right: Expr) returns (r: Result<real>)
      modifies this, rng
      decreases BinaryOp(op, left, right), 0
      ensures var run := Eval(rng, old(rng.State()), BinaryOp(op, left, right), old(traces));
        r == run.result && traces == run.traces && rng.State() == run.cursor
    {
      var leftVal := EvalNode(left);
      if leftVal.Err? {
        return leftVal;
      }
      var rightVal := EvalNode(right);
      r := Combine(op, leftVal, rightVal);
    }

    /** The `UnaryOpNode` branch of `_eval_node`: negation. */
    method EvalUnary(operand: Expr) returns (r: Result<real>)
      modifies this, rng
      decreases UnaryOp(operand), 0
      ensures var run := Eval(rng, old(rng.State()), UnaryOp(operand), old(traces));
        r == run.result && traces == run.traces && rng.State() == run.cursor
    {
      var operandVal := EvalNode(operand);
      r := Negate(operandVal);
    }

    /** `_eval_dice`: the term's value; its trace is appended when it succeeds. */
    method EvalDice(count: nat, sides: nat, kind: DieKind, mods: Modifiers) returns (r: Result<int>)
      modifies this, rng
      ensures var t := DiceTerm(rng, old(rng.State()), count, sides, kind, mods);
        && rng.State() == t.cursor
        && (t.result.Ok? ==> r == Ok(t.result.value.0) && traces == old(traces) + [t.result.value.1])
        && (t.result.Err? ==> r == Err(t.result.error) && traces == old(traces))
    {
      var rolls := RollDice(count, sides, kind, mods);
      if rolls.Err? {
        return Err(rolls.error);
      }
      var settled := SettleDice(rolls.value, count, sides, kind, mods);
      if settled.Err? {
        return Err(settled.error);
      }
      traces := traces + [settled.value.1];
      r := Ok(settled.value.0);
    }

    /** The rolling half of `_eval_dice`: roll, then reroll, then explode. */
    method RollDice(count: nat, sides: nat, kind: DieKind, mods: Modifiers) returns (r: Result<seq<DieRoll>>)
      modifies rng
      ensures var d := Rolled(rng, old(rng.State()), count, sides, kind, mods);
        r == d.result && rng.State() == d.cursor
    {
      r := RollAllDice(count, sides, kind);
      if r.Ok? && mods.reroll.Some? {
        r := ApplyRerolls(r.value, sides, kind, mods.reroll.value);
      }
      if r.Ok? && mods.explode.Some? {
        var cond;
        r, cond := ApplyExplosions(r.value, sides, kind, mods.explode.value);
      }
    }

    /** The settling half of `_eval_dice`: keep/drop, sort, then count or sum. */
    method SettleDice(rolls: seq<DieRoll>, count: nat, sides: nat, kind: DieKind, mods: Modifiers)
      returns (r: Result<(int, DiceTrace)>)
      ensures r == Settle(rolls, count, sides, kind, mods)
    {
      var keptValues: Option<seq<int>> := None;
      if mods.keep.Some? {
        var kept := ApplyKeepDrop(rolls, mods.keep.value);
        if kept.Err? {
          return Err(kept.error);
        }
        keptValues := Some(kept.value);
      }
      var sorted := rolls;
      if mods.sort.Some? {
        sorted := SortRolls(rolls, mods.sort.value);
      }
      var term := TermString(count, sides, kind, Shown(mods, sides, kind));
      if mods.comparator.Some? {
        var comp := mods.comparator.value;
        var threshold := OpText(comp.op) + NatToString(comp.value);
        var marked, successes := CountSuccesses(sorted, comp, keptValues);
        return Ok((successes, DiceTrace(term + threshold, marked, None, None, Some(threshold), Some(successes))));
      }
      if keptValues.Some? {
        var result := Sum(keptValues.value);
        return Ok((result, DiceTrace(term, sorted, keptValues, Some(result), None, None)));
      }
      var result := PlainSum(sorted, kind);
      r := Ok((result, DiceTrace(term, sorted, None, Some(result), None, None)));
    }

    /** One die: `roll_die(3) - 2` for a Fate die, `roll_die(sides)` otherwise. */
    method Face(sides: nat, kind: DieKind) returns (r: Result<int>)
      modifies rng
      ensures var d := DrawFace(rng, old(rng.State()), sides, kind);
        r == d.result && rng.State() == d.cursor
    {
      if kind == Fate {
        var v := rng.RollDie(3);
        r := Shift(v);
      } else {
        r := rng.RollDie(sides);
      }
    }

    /** The first loop of `_eval_dice`. */
    method RollAllDice(count: nat, sides: nat, kind: DieKind) returns (r: Result<seq<DieRoll>>)
      modifies rng
      ensures var d := RollAll(rng, old(rng.State()), count, sides, kind);
        r == d.result && rng.State() == d.cursor
    {
      var rolls: seq<DieRoll> := [];
      var i := 0;
      while i < count
        invariant i <= count
        invariant RollAll(rng, old(rng.State()), i, sides, kind) == Drawn(Ok(rolls), rng.State())
      {
        label Before:
        var value := Face(sides, kind);
        RollAllNext(rng, old(rng.State()), i, sides, kind, rolls, old@Before(rng.State()), value, rng.State());
        if value.Err? {
          RollAllStops(rng, old(rng.State()), i + 1, count, sides, kind);
          return Err(value.error);
        }
        rolls := rolls + [Fresh(value.value)];
        i := i + 1;
      }
      r := Ok(rolls);
    }

    /** `_apply_rerolls`. */
    method ApplyRerolls(rolls: seq<DieRoll>, sides: nat, kind: DieKind, spec: Reroll) returns (r: Result<seq<DieRoll>>)
      modifies rng
      ensures var d := Each(rolls, old(rng.State()), RerollStep(rng, sides, kind, spec));
        r == d.result && rng.State() == d.cursor
    {
      var updated := rolls;
      var i := 0;
      while i < |rolls|
        invariant i <= |rolls| && |updated| == |rolls|
        invariant updated[i..] == rolls[i..]
        invariant var d := Each(rolls[..i], old(rng.State()), RerollStep(rng, sides, kind, spec));
          d.result == Ok(updated[..i]) && d.cursor == rng.State()
      {
        var roll := RerollOne(updated[i], sides, kind, spec);
        EachNext(rolls, i, old(rng.State()), RerollStep(rng, sides, kind, spec));
        if roll.Err? {
          EachStops(rolls, i + 1, old(rng.State()), RerollStep(rng, sides, kind, spec));
          return Err(roll.error);
        }
        updated := updated[i := roll.value];
        assert updated[..i + 1] == updated[..i] + [roll.value];
        i := i + 1;
      }
      assert rolls[..i] == rolls && updated[..i] == updated;
      r := Ok(updated);
    }

    /** The reroll loop of one die. */
    method RerollOne(roll: DieRoll, sides: nat, kind: DieKind, spec: Reroll) returns (r: Result<DieRoll>)
      modifies rng
      ensures var d := RerollDie(rng, old(rng.State()), roll, sides, kind, spec, 0);
        r == d.result && rng.State() == d.cursor
    {
      ghost var outcome := RerollDie(rng, rng.State(), roll, sides, kind, spec, 0);
      var d := roll;
      var rerollCount := 0;
      while Meets(d.value, spec.cond) && rerollCount < MAX_REROLLS
        invariant rerollCount <= MAX_REROLLS
        invariant outcome == RerollDie(rng, rng.State(), d, sides, kind, spec, rerollCount)
        decreases MAX_REROLLS - rerollCount
      {
        var oldValue := d.value;
        ghost var before, prev := rng.State(), d;
        var value := Face(sides, kind);
        if value.Err? {
          RerollFails(rng, before, prev, sides, kind, spec, rerollCount, value, outcome);
          return Err(value.error);
        }
        d := d.(value := value.value, rerolls := d.rerolls + [oldValue]);
        rerollCount := rerollCount + 1;
        RerollNext(rng, before, prev, sides, kind, spec, rerollCount - 1, value.value, d, outcome);
        if spec.once {
          break;
        }
      }
      if !(Meets(d.value, spec.cond) && rerollCount < MAX_REROLLS) {
        RerollStop(rng, rng.State(), d, sides, kind, spec, rerollCount);
      }
      assert outcome == RerollsDone(d, rerollCount, rng.State());
      if rerollCount >= MAX_REROLLS {
        return Err(LimitError("Exceeded maximum rerolls of 10000"));
      }
      r := Ok(d);
    }

    /** `_apply_explosions`, which resolves a `'max'` threshold first and returns the
        condition it used. */
    method ApplyExplosions(rolls: seq<DieRoll>, sides: nat, kind: DieKind, spec: Explode)
      returns (r: Result<seq<DieRoll>>, cond: Comparison)
      modifies rng
      ensures cond == Resolve(spec, sides, kind)
      ensures var d := Each(rolls, old(rng.State()), ExplodeStep(rng, sides, kind, spec.penetrating, cond));
        r == d.result && rng.State() == d.cursor
    {
      cond := Resolve(spec, sides, kind);
      var step := ExplodeStep(rng, sides, kind, spec.penetrating, cond);
      var updated := rolls;
      var i := 0;
      while i < |rolls|
        invariant i <= |rolls| && |updated| == |rolls|
        invariant updated[i..] == rolls[i..]
        invariant var d := Each(rolls[..i], old(rng.State()), step);
          d.result == Ok(updated[..i]) && d.cursor == rng.State()
      {
        var roll := ExplodeOne(updated[i], sides, kind, spec.penetrating, cond);
        EachNext(rolls, i, old(rng.State()), step);
        if roll.Err? {
          EachStops(rolls, i + 1, old(rng.State()), step);
          return Err(roll.error), cond;
        }
        updated := updated[i := roll.value];
        assert updated[..i + 1] == updated[..i] + [roll.value];
        i := i + 1;
      }
      assert rolls[..i] == rolls && updated[..i] == updated;
      r := Ok(updated);
    }

    /** The explosion loop of one die. */
    method ExplodeOne(roll: DieRoll, sides: nat, kind: DieKind, penetrating: bool, cond: Comparison)
      returns (r: Result<DieRoll>)
      modifies rng
      ensures var d := ExplodeDie(rng, old(rng.State()), roll, roll.value, sides, kind, penetrating, cond, 0);
        r == d.result && rng.State() == d.cursor
    {
      ghost var outcome := ExplodeDie(rng, rng.State(), roll, roll.value, sides, kind, penetrating, cond, 0);
      var d := roll;
      var explosionCount := 0;
      var currentValue := roll.value;
      while Meets(currentValue, cond) && explosionCount < MAX_EXPLOSIONS
        invariant explosionCount <= MAX_EXPLOSIONS
        invariant outcome == ExplodeDie(rng, rng.State(), d, currentValue, sides, kind, penetrating, cond, explosionCount)
        decreases MAX_EXPLOSIONS - explosionCount
      {
        ghost var before, prev, prevValue := rng.State(), d, currentValue;
        var value := Face(sides, kind);
        if value.Err? {
          ExplodeFails(rng, before, prev, prevValue, sides, kind, penetrating, cond, explosionCount, value, outcome);
          return Err(value.error);
        }
        var newValue := Penetrate(value.value, penetrating);
        d := d.(explodes := d.explodes + [newValue]);
        currentValue := newValue;
        explosionCount := explosionCount + 1;
        ExplodeNext(rng, before, prev, prevValue, sides, kind, penetrating, cond, explosionCount - 1,
                    value.value, d, outcome);
      }
      ExplodeStop(rng, rng.State(), d, currentValue, sides, kind, penetrating, cond, explosionCount, outcome);
      if explosionCount >= MAX_EXPLOSIONS {
        return Err(LimitError("Exceeded maximum explosions of 100"));
      }
      r := Ok(d);
    }

    /** `_apply_keep_drop`: per-die totals, then the slice of them sorted high to
        low. */
    method ApplyKeepDrop(rolls: seq<DieRoll>, spec: Keep) returns (r: Result<seq<int>>)
      ensures r == KeepDrop(rolls, spec)
    {
      var allValues: seq<int> := [];
      var i := 0;
      while i < |rolls|
        invariant i <= |rolls|
        invariant allValues == Totals(rolls[..i])
      {
        var total := rolls[i].value;
        if rolls[i].explodes != [] {
          total := total + Sum(rolls[i].explodes);
        }
        allValues := allValues + [total];
        i := i + 1;
      }
      assert rolls[..i] == rolls;
      if spec.count > |allValues| {
        return Err(SemanticError("Cannot keep/drop " + NatToString(spec.count) + " from " + NatToString(|allValues|) + " dice"));
      }
      r := Ok(Select(SortDesc(allValues), spec));
    }

    /** `_count_successes`: flags the first `|kept|` dice (all of them without
        keep/drop) and counts the kept values, or the dice values, that meet the
        comparison. */
    method CountSuccesses(rolls: seq<DieRoll>, comp: Comparison, keptValues: Option<seq<int>>)
      returns (marked: seq<DieRoll>, successes: nat)
      ensures var n := match keptValues case Some(k) => |k| case None => |rolls|;
        marked == MarkSuccesses(rolls, comp, n)
      ensures successes == CountMeeting(match keptValues case Some(k) => k case None => Values(rolls), comp)
    {
      var values := if keptValues.Some? then keptValues.value else Values(rolls);
      marked := rolls;
      var i := 0;
      while i < |rolls|
        invariant i <= |rolls| && |marked| == |rolls|
        invariant marked[i..] == rolls[i..]
        invariant marked[..i] == MarkSuccesses(rolls, comp, |values|)[..i]
      {
        if keptValues.None? || i < |values| {
          marked := marked[i := marked[i].(success := Some(Meets(marked[i].value, comp)))];
        }
        i := i + 1;
      }
      successes := CountMeeting(values, comp);
    }
  }

  /** One more die drawn by the roll loop. */
  lemma RollAllNext(src: EntropySource, c: Cursor, i: nat, sides: nat, kind: DieKind,
                    rolls: seq<DieRoll>, before: Cursor, value: Result<int>, after: Cursor)
    requires RollAll(src, c, i, sides, kind) == Drawn(Ok(rolls), before)
    requires DrawFace(src, before, sides, kind).result == value && DrawFace(src, before, sides, kind).cursor == after
    ensures value.Err? ==> RollAll(src, c, i + 1, sides, kind) == Drawn(Err(value.error), after)
    ensures value.Ok? ==> RollAll(src, c, i + 1, sides, kind) == Drawn(Ok(rolls + [Fresh(value.value)]), after)
  {
  }

  /** A failed draw ends the reroll loop with its error. */
  lemma RerollFails(src: EntropySource, before: Cursor, d: DieRoll, sides: nat, kind: DieKind, spec: Reroll, n: nat,
                    value: Result<int>, outcome: Drawn<DieRoll>)
    requires Meets(d.value, spec.cond) && n < MAX_REROLLS
    requires DrawFace(src, before, sides, kind).result == value && value.Err?
    requires outcome == RerollDie(src, before, d, sides, kind, spec, n)
    ensures outcome == Drawn(Err(value.error), before)
  {
    assert outcome == Redraw(src, before, d, sides, kind, spec, n);
  }

  /** A drawn face replaces the die's value, which joins its rerolls; a single
      reroll then stops, otherwise the loop goes on. */
  lemma RerollNext(src: EntropySource, before: Cursor, d: DieRoll, sides: nat, kind: DieKind, spec: Reroll, n: nat,
                   face: int, next: DieRoll, outcome: Drawn<DieRoll>)
    requires Meets(d.value, spec.cond) && n < MAX_REROLLS
    requires DrawFace(src, before, sides, kind).result == Ok(face)
    requires next == d.(value := face, rerolls := d.rerolls + [d.value])
    requires outcome == RerollDie(src, before, d, sides, kind, spec, n)
    ensures spec.once ==> outcome == RerollsDone(next, n + 1, DrawFace(src, before, sides, kind).cursor)
    ensures !spec.once ==> outcome == RerollDie(src, DrawFace(src, before, sides, kind).cursor, next, sides, kind, spec, n + 1)
  {
    assert outcome == Redraw(src, before, d, sides, kind, spec, n);
  }

  /** The reroll loop stops once the value no longer meets the condition or the cap
      is reached. */
  lemma RerollStop(src: EntropySource, c: Cursor, d: DieRoll, sides: nat, kind: DieKind, spec: Reroll, n: nat)
    requires !(Meets(d.value, spec.cond) && n < MAX_REROLLS)
    ensures RerollDie(src, c, d, sides, kind, spec, n) == RerollsDone(d, n, c)
  {
  }

  /** A failed draw ends the explosion loop with its error. */
  lemma ExplodeFails(src: EntropySource, before: Cursor, d: DieRoll, current: int, sides: nat, kind: DieKind,
                     penetrating: bool, cond: Comparison, n: nat, value: Result<int>, outcome: Drawn<DieRoll>)
    requires Meets(current, cond) && n < MAX_EXPLOSIONS
    requires DrawFace(src, before, sides, kind).result == value && value.Err?
    requires outcome == ExplodeDie(src, before, d, current, sides, kind, penetrating, cond, n)
    ensures outcome == Drawn(Err(value.error), before)
  {
    assert outcome == Explosion(src, before, d, sides, kind, penetrating, cond, n);
  }

  /** A drawn face, penetrated, is recorded and the explosion loop goes on from it. */
  lemma ExplodeNext(src: EntropySource, before: Cursor, d: DieRoll, current: int, sides: nat, kind: DieKind,
                    penetrating: bool, cond: Comparison, n: nat, face: int, next: DieRoll, outcome: Drawn<DieRoll>)
    requires Meets(current, cond) && n < MAX_EXPLOSIONS
    requires DrawFace(src, before, sides, kind).result == Ok(face)
    requires next == d.(explodes := d.explodes + [Penetrate(face, penetrating)])
    requires outcome == ExplodeDie(src, before, d, current, sides, kind, penetrating, cond, n)
    ensures outcome == ExplodeDie(src, DrawFace(src, before, sides, kind).cursor, next, Penetrate(face, penetrating),
                                  sides, kind, penetrating, cond, n + 1)
  {
    assert outcome == Explosion(src, before, d, sides, kind, penetrating, cond, n);
  }

  /** The explosion loop stops once the value no longer meets the condition or the
      cap is reached, failing at the cap. */
  lemma ExplodeStop(src: EntropySource, c: Cursor, d: DieRoll, current: int, sides: nat, kind: DieKind,
                    penetrating: bool, cond: Comparison, n: nat, outcome: Drawn<DieRoll>)
    requires !(Meets(current, cond) && n < MAX_EXPLOSIONS)
    requires outcome == ExplodeDie(src, c, d, current, sides, kind, penetrating, cond, n)
    ensures n >= MAX_EXPLOSIONS ==> outcome == Drawn(Err(LimitError("Exceeded maximum explosions of 100")), c)
    ensures n < MAX_EXPLOSIONS ==> outcome == Drawn(Ok(d), c)
  {
  }

  /** Once a prefix of the roll loop fails, the whole loop fails the same way. */
  lemma {:induction false} RollAllStops(src: EntropySource, c: Cursor, i: nat, count: nat, sides: nat, kind: DieKind)
    requires i <= count && RollAll(src, c, i, sides, kind).result.Err?
    decreases count - i
    ensures RollAll(src, c, count, sides, kind) == RollAll(src, c, i, sides, kind)
  {
    if i < count {
      RollAllStops(src, c, i, count - 1, sides, kind);
    }
  }

  /** One more die visited by `Each`. */
  lemma EachNext(rs: seq<DieRoll>, i: nat, c: Cursor, step: (DieRoll, Cursor) -> Drawn<DieRoll>)
    requires i < |rs|
    ensures var prev := Each(rs[..i], c, step);
      Each(rs[..i + 1], c, step) ==
        if prev.result.Err? then prev
        else
          var x := step(rs[i], prev.cursor);
          if x.result.Err? then Drawn(Err(x.result.error), x.cursor)
          else Drawn(Ok(prev.result.value + [x.result.value]), x.cursor)
  {
    assert rs[..i + 1][..i] == rs[..i];
  }

  /** Once a prefix fails, `Each` fails the same way. */
  lemma {:induction false} EachStops(rs: seq<DieRoll>, i: nat, c: Cursor, step: (DieRoll, Cursor) -> Drawn<DieRoll>)
    requires i <= |rs| && Each(rs[..i], c, step).result.Err?
    decreases |rs| - i
    ensures Each(rs, c, step) == Each(rs[..i], c, step)
  {
    if i < |rs| {
      assert rs[..|rs| - 1][..i] == rs[..i];
      EachStops(rs[..|rs| - 1], i, c, step);
    } else {
      assert rs[..i] == rs;
    }
  }
}
