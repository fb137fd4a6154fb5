/** Whole expressions whose outcome does not depend on the entropy drawn: dice with
    a single face, and conditions every face meets, from the expression's text to
    the response `roll_dice` gives. */
module Scenarios {
  import opened DiceTypes
  import opened Csprng
  import opened EvalSpec
  import EvalProps
  import Expressions
  import Roller

  /** `Nd1` without modifiers. */
  function OneSided(count: nat): Expr {
    Dice(count, 1, Standard, NoModifiers)
  }

  /** `Nd1` is `N`, whatever the entropy source holds. */
  lemma OneSidedSum(src: EntropySource, c: Cursor, count: nat, acc: seq<DiceTrace>)
    ensures Eval(src, c, OneSided(count), acc).result == Ok(count as real)
  {
    EvalProps.PlainTermRange(src, c, count, 1, Standard);
  }

  /** `roll_dice("1d1")` answers 1 whatever the entropy source holds. */
  lemma RollsOneSided(src: EntropySource, c: Cursor)
    ensures var (r, _) := Roller.Respond(src, c, "1d1");
      r.Success? && r.final == Roller.Int(1)
  {
    Expressions.OneDieParse("1d1");
    OneSidedSum(src, c, 1, []);
  }

  /** The tree of `2d1+3d1*2`, `2d1 + (3d1 * 2)`, comes to 8. */
  lemma ArithmeticValue(src: EntropySource, c: Cursor)
    ensures Eval(src, c, BinaryOp(Add, OneSided(2), BinaryOp(Mul, OneSided(3), Number(2))), []).result == Ok(8.0)
  {
    var a := Eval(src, c, OneSided(2), []);
    OneSidedSum(src, c, 2, []);
    var b := Eval(src, a.cursor, OneSided(3), a.traces);
    OneSidedSum(src, a.cursor, 3, a.traces);
  }

  /** `roll_dice("2d1+3d1*2")` answers 8: the product is read first, so the sum is
      `2 + (3 * 2)` and not `(2 + 3) * 2`. */
  lemma OneSidedArithmetic(src: EntropySource, c: Cursor)
    ensures var (r, _) := Roller.Respond(src, c, "2d1+3d1*2");
      r.Success? && r.final == Roller.Int(8)
  {
    Expressions.ArithmeticParse("2d1+3d1*2");
    ArithmeticValue(src, c);
  }

  /** A valid die draws a count of dice, which the reroll and explosion loops keep. */
  lemma RolledCount(src: EntropySource, c: Cursor, count: nat, sides: nat, kind: DieKind, mods: Modifiers)
    requires EvalProps.ValidDie(sides, kind)
    ensures var r := Rolled(src, c, count, sides, kind, mods);
      r.result.Ok? ==> |r.result.value| == count
  {
    EvalProps.RollAllFresh(src, c, count, sides, kind);
    var rolled := RollAll(src, c, count, sides, kind);
    var any := (a: DieRoll, b: DieRoll) => true;
    var rerolled := rolled;
    if mods.reroll.Some? {
      EvalProps.EachKeeps(rolled.result.value, rolled.cursor, RerollStep(src, sides, kind, mods.reroll.value), any);
      rerolled := Each(rolled.result.value, rolled.cursor, RerollStep(src, sides, kind, mods.reroll.value));
    }
    if rerolled.result.Ok? && mods.explode.Some? {
      var e := mods.explode.value;
      EvalProps.EachKeeps(rerolled.result.value, rerolled.cursor,
                          ExplodeStep(src, sides, kind, e.penetrating, Resolve(e, sides, kind)), any);
    }
  }

  /** On the same dice, `dhK` and `kl(N-K)` keep the same values, so the term
      comes to the same value. */
  lemma SettleDropHighKeepLow(rs: seq<DieRoll>, count: nat, sides: nat, kind: DieKind, mods: Modifiers, k: nat)
    requires k < |rs|
    ensures var dh := Settle(rs, count, sides, kind, mods.(keep := Some(Keep(DropHigh, k))));
      var kl := Settle(rs, count, sides, kind, mods.(keep := Some(Keep(KeepLow, |rs| - k))));
      dh.Ok? && kl.Ok? && dh.value.0 == kl.value.0
  {
    EvalProps.DropHighIsKeepLow(rs, k);
    EvalProps.KeepDropFails(rs, Keep(DropHigh, k));
    var kept := KeepDrop(rs, Keep(DropHigh, k)).value;
    var m1 := mods.(keep := Some(Keep(DropHigh, k)));
    var m2 := mods.(keep := Some(Keep(KeepLow, |rs| - k)));
    assert Finish(rs, Some(kept), count, sides, kind, m1).0 == Finish(rs, Some(kept), count, sides, kind, m2).0;
  }

  /** The dice drawn depend on the reroll and explosion modifiers only. */
  lemma RolledIgnoresKeep(src: EntropySource, c: Cursor, count: nat, sides: nat, kind: DieKind, m1: Modifiers,
                          m2: Modifiers)
    requires m1.reroll == m2.reroll && m1.explode == m2.explode
    ensures Rolled(src, c, count, sides, kind, m1) == Rolled(src, c, count, sides, kind, m2)
  {
  }

  /** `NdSdhK` and `NdSkl(N-K)` draw the same dice and come to the same value; only
      their term strings differ. */
  lemma DropHighMatchesKeepLow(src: EntropySource, c: Cursor, count: nat, sides: nat, kind: DieKind,
                               mods: Modifiers, k: nat)
    requires EvalProps.ValidDie(sides, kind) && k < count
    ensures var dh := DiceTerm(src, c, count, sides, kind, mods.(keep := Some(Keep(DropHigh, k))));
      var kl := DiceTerm(src, c, count, sides, kind, mods.(keep := Some(Keep(KeepLow, count - k))));
      && dh.cursor == kl.cursor
      && dh.result.Ok? == kl.result.Ok?
      && (dh.result.Ok? ==> dh.result.value.0 == kl.result.value.0)
  {
    var m1 := mods.(keep := Some(Keep(DropHigh, k)));
    var m2 := mods.(keep := Some(Keep(KeepLow, count - k)));
    var d := Rolled(src, c, count, sides, kind, m1);
    RolledIgnoresKeep(src, c, count, sides, kind, m1, m2);
    RolledCount(src, c, count, sides, kind, m1);
    if d.result.Ok? {
      SettleDropHighKeepLow(d.result.value, count, sides, kind, mods, k);
      assert DiceTerm(src, c, count, sides, kind, m1) == Drawn(Settle(d.result.value, count, sides, kind, m1), d.cursor);
      assert DiceTerm(src, c, count, sides, kind, m2) == Drawn(Settle(d.result.value, count, sides, kind, m2), d.cursor);
    }
  }

  /** Four one-sided dice show four ones. */
  lemma FourOnes(src: EntropySource, c: Cursor, mods: Modifiers)
    requires mods.reroll.None? && mods.explode.None?
    ensures Rolled(src, c, 4, 1, Standard, mods).result == Ok([Fresh(1), Fresh(1), Fresh(1), Fresh(1)])
  {
    EvalProps.RollAllFresh(src, c, 4, 1, Standard);
    var rs := RollAll(src, c, 4, 1, Standard).result.value;
    assert Rolled(src, c, 4, 1, Standard, mods).result == Ok(rs);
    assert rs == [Fresh(1), Fresh(1), Fresh(1), Fresh(1)];
  }

  lemma {:induction false} SumOfOnes(xs: seq<int>)
    requires forall i :: 0 <= i < |xs| ==> xs[i] == 1
    decreases |xs|
    ensures Sum(xs) == |xs|
  {
    if xs != [] {
      SumOfOnes(xs[..|xs| - 1]);
    }
  }

  /** `klK` of dice that all come to 1 keeps `K` ones. */
  lemma KeepLowOfOnes(rs: seq<DieRoll>, k: nat)
    requires forall i :: 0 <= i < |rs| ==> Total(rs[i]) == 1
    requires 0 < k <= |rs|
    ensures KeepDrop(rs, Keep(KeepLow, k)).Ok? && Sum(KeepDrop(rs, Keep(KeepLow, k)).value) == k
  {
    var t := Totals(rs);
    assert forall j :: 0 <= j < |t| ==> t[j] == 1;
    var s := SortDesc(t);
    EvalProps.SortDescSorted(t);
    forall i | 0 <= i < |s|
      ensures s[i] == 1
    {
      assert s[i] in multiset(t);
      assert s[i] in t;
    }
    var kept := s[|s| - k..];
    assert KeepDrop(rs, Keep(KeepLow, k)) == Ok(kept);
    assert forall i :: 0 <= i < |kept| ==> kept[i] == s[|s| - k + i];
    SumOfOnes(kept);
  }

  /** `4d1dh1` and `4d1kl3` both come to 3. */
  lemma FourOneSidedKeepThree(src: EntropySource, c: Cursor)
    ensures Eval(src, c, Dice(4, 1, Standard, NoModifiers.(keep := Some(Keep(DropHigh, 1)))), []).result == Ok(3.0)
    ensures Eval(src, c, Dice(4, 1, Standard, NoModifiers.(keep := Some(Keep(KeepLow, 3)))), []).result == Ok(3.0)
  {
    FourOnes(src, c, NoModifiers.(keep := Some(Keep(KeepLow, 3))));
    var one := Fresh(1);
    KeepLowOfOnes([one, one, one, one], 3);
    DropHighMatchesKeepLow(src, c, 4, 1, Standard, NoModifiers, 1);
  }

  /** A single one-sided die shows 1 and draws nothing. */
  lemma OneOne(src: EntropySource, c: Cursor)
    ensures RollAll(src, c, 1, 1, Standard) == Drawn(Ok([Fresh(1)]), c)
  {
    assert RollAll(src, c, 0, 1, Standard) == Drawn(Ok([]), c);
    assert DrawFace(src, c, 1, Standard) == Drawn(Ok(1), c);
    assert [] + [Fresh(1)] == [Fresh(1)];
  }

  /** The per-die loop over a single die. */
  lemma EachSingle(d: DieRoll, c: Cursor, step: (DieRoll, Cursor) -> Drawn<DieRoll>)
    ensures var x := step(d, c);
      Each([d], c, step) == if x.result.Err? then Drawn(Err(x.result.error), x.cursor) else Drawn(Ok([x.result.value]), x.cursor)
  {
    assert [d][..0] == [];
    assert Each([], c, step) == Drawn(Ok([]), c);
    var x := step(d, c);
    if x.result.Ok? {
      assert [] + [x.result.value] == [x.result.value];
    }
  }

  /** `1d1!`: the single face meets the default condition `>=` its maximum, so the
      die explodes until the ceiling and the roll fails with a `LimitError`. */
  lemma OneSidedExplodes(src: EntropySource, c: Cursor)
    ensures Eval(src, c, Dice(1, 1, Standard, NoModifiers.(explode := Some(Explode(false, false, Ge, Max)))), []).result
         == Err(LimitError("Exceeded maximum explosions of 100"))
  {
    var mods := NoModifiers.(explode := Some(Explode(false, false, Ge, Max)));
    var cond := Resolve(mods.explode.value, 1, Standard);
    var step := ExplodeStep(src, 1, Standard, false, cond);
    OneOne(src, c);
    EachSingle(Fresh(1), c, step);
    EvalProps.OneSidedExplodesForever(src, c, Fresh(1), cond, 0);
    assert Rolled(src, c, 1, 1, Standard, mods) == Each([Fresh(1)], c, step);
  }

  /** `NdS>=1` on a standard or percentile die: every face meets the condition,
      so the term counts `N` successes. */
  lemma EveryFaceSucceeds(src: EntropySource, c: Cursor, count: nat, sides: nat, kind: DieKind)
    requires EvalProps.ValidDie(sides, kind) && kind != Fate
    ensures var t := DiceTerm(src, c, count, sides, kind, NoModifiers.(comparator := Some(Comparison(Ge, 1))));
      t.result.Ok? && t.result.value.0 == count && t.result.value.1.successes == Some(count)
  {
    var comp := Comparison(Ge, 1);
    EvalProps.RollAllFresh(src, c, count, sides, kind);
    var rs := RollAll(src, c, count, sides, kind).result.value;
    assert forall i :: 0 <= i < |rs| ==> Meets(Values(rs)[i], comp);
    EvalProps.CountMeetingBound(Values(rs), comp);
  }

  /** `roll_dice("4d1dh1")` and `roll_dice("4d1kl3")` both answer 3. */
  lemma RollsKeepThree(src: EntropySource, c: Cursor)
    ensures var (dh, _) := Roller.Respond(src, c, "4d1dh1");
      dh.Success? && dh.final == Roller.Int(3)
    ensures var (kl, _) := Roller.Respond(src, c, "4d1kl3");
      kl.Success? && kl.final == Roller.Int(3)
  {
    Expressions.DropHighParse("4d1dh1");
    Expressions.KeepLowParse("4d1kl3");
    FourOneSidedKeepThree(src, c);
  }

  /** `roll_dice("1d1!")` answers the `LimitError` of the explosion ceiling. */
  lemma RollsExplosionLimit(src: EntropySource, c: Cursor)
    ensures Roller.Respond(src, c, "1d1!").0
         == Roller.Failure("LimitError", "Exceeded maximum explosions of 100", None, "1d1!")
  {
    Expressions.ExplodeParse("1d1!");
    OneSidedExplodes(src, c);
    var run := Eval(src, c, Dice(1, 1, Standard, NoModifiers.(explode := Some(Explode(false, false, Ge, Max)))), []);
    assert Roller.Respond(src, c, "1d1!") == (Roller.Failed(LimitError("Exceeded maximum explosions of 100"), "1d1!"), run.cursor);
  }

  /** The tree of `5d6>=1` counts 5 successes and leaves one trace that reports
      them. */
  lemma AllSucceedValue(src: EntropySource, c: Cursor)
    ensures var run := Eval(src, c, Dice(5, 6, Standard, NoModifiers.(comparator := Some(Comparison(Ge, 1)))), []);
      run.result == Ok(5.0) && |run.traces| == 1 && run.traces[0].successes == Some(5)
  {
    var mods := NoModifiers.(comparator := Some(Comparison(Ge, 1)));
    EveryFaceSucceeds(src, c, 5, 6, Standard);
    var t := DiceTerm(src, c, 5, 6, Standard, mods);
    assert Eval(src, c, Dice(5, 6, Standard, mods), []) == Run(Ok(5.0), [] + [t.result.value.1], t.cursor);
  }

  /** `roll_dice("5d6>=1")` counts 5 successes and says it is a success count. */
  lemma RollsAllSucceed(src: EntropySource, c: Cursor)
    ensures var (r, _) := Roller.Respond(src, c, "5d6>=1");
      r.Success? && r.final == Roller.Int(5) && r.resultType == Roller.SuccessCount
  {
    Expressions.CountParse("5d6>=1");
    AllSucceedValue(src, c);
    var run := Eval(src, c, Dice(5, 6, Standard, NoModifiers.(comparator := Some(Comparison(Ge, 1)))), []);
    assert Roller.ResultTypeOf(run.traces) == Roller.SuccessCount by {
      assert run.traces[0].successes.Some?;
    }
  }

  /** `roll_dice("10d10>=7!")` answers a parse error at the `!`, and draws nothing. */
  lemma RollsLeftoverExplosion(src: EntropySource, c: Cursor)
    ensures Roller.Respond(src, c, "10d10>=7!")
         == (Roller.Failure("ParseError", "Unexpected token '!' after expression", Some(8), "10d10>=7!"), c)
  {
    Expressions.ComparatorThenExplode("10d10>=7!");
  }
}
