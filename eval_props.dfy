/** What the evaluator's specification promises: the keep/drop selection over
    sorted totals, the sort of the dice, success counting, the reroll and
    explosion loops, and evaluation as a whole. */
module EvalProps {
  import opened DiceTypes
  import opened Csprng
  import opened EvalSpec
  import Lexer

  // ---------------------------------------------------------------------------
  // Sorting the per-die totals (`sorted(all_values, reverse=True)`)
  // ---------------------------------------------------------------------------

  predicate Descending(s: seq<int>) {
    forall i, j :: 0 <= i < j < |s| ==> s[i] >= s[j]
  }

  /** Inserting keeps the values, with `x` added. */
  lemma {:induction false} InsertDescKeeps(s: seq<int>, x: int)
    decreases |s|
    ensures multiset(InsertDesc(s, x)) == multiset(s) + multiset{x}
  {
    if s != [] && x < s[0] {
      InsertDescKeeps(s[1..], x);
      assert s == [s[0]] + s[1..];
    }
  }

  /** Inserting a value no larger than `b` into values no larger than `b` keeps
      them all no larger than `b`. */
  lemma {:induction false} InsertDescBelow(s: seq<int>, x: int, b: int)
    requires forall i :: 0 <= i < |s| ==> s[i] <= b
    requires x <= b
    decreases |s|
    ensures forall i :: 0 <= i < |InsertDesc(s, x)| ==> InsertDesc(s, x)[i] <= b
  {
    if s != [] && x < s[0] {
      InsertDescBelow(s[1..], x, b);
    }
  }

  lemma {:induction false} InsertDescSorted(s: seq<int>, x: int)
    requires Descending(s)
    decreases |s|
    ensures Descending(InsertDesc(s, x))
  {
    if s != [] && x < s[0] {
      var rest := InsertDesc(s[1..], x);
      InsertDescSorted(s[1..], x);
      InsertDescBelow(s[1..], x, s[0]);
      assert InsertDesc(s, x) == [s[0]] + rest;
    }
  }

  /** `sorted(xs, reverse=True)` is ordered high to low and holds the same values. */
  lemma {:induction false} SortDescSorted(xs: seq<int>)
    decreases |xs|
    ensures Descending(SortDesc(xs))
    ensures multiset(SortDesc(xs)) == multiset(xs)
  {
    if xs != [] {
      var init := xs[..|xs| - 1];
      SortDescSorted(init);
      InsertDescSorted(SortDesc(init), xs[|xs| - 1]);
      InsertDescKeeps(SortDesc(init), xs[|xs| - 1]);
      assert xs == init + [xs[|xs| - 1]];
    }
  }

  // ---------------------------------------------------------------------------
  // `_apply_keep_drop`
  // ---------------------------------------------------------------------------

  /** Keep/drop fails exactly when it asks for more dice than the term rolled. */
  lemma KeepDropFails(rs: seq<DieRoll>, k: Keep)
    ensures KeepDrop(rs, k).Err? <==> k.count > |rs|
    ensures KeepDrop(rs, k).Err? ==> KeepDrop(rs, k).error.SemanticError?
  {
  }

  /** How many totals each kind keeps, with Python's slices at a count of 0. */
  function KeptCount(k: Keep, n: nat): nat
    requires k.count <= n
  {
    match k.kind
    case KeepHigh => k.count
    case KeepLow => if k.count == 0 then n else k.count
    case DropHigh => n - k.count
    case DropLow => if k.count == 0 then 0 else n - k.count
  }

  /** Whether a kind keeps the high end of the sorted totals (`kh`, `dl`) rather
      than the low end (`kl`, `dh`). */
  predicate KeepsHigh(kind: KeepKind) {
    kind == KeepHigh || kind == DropLow
  }

  /** `kept` is `n` of the values of `all`, none smaller than a value left out. */
  predicate KeepsLargest(all: seq<int>, kept: seq<int>, n: nat) {
    && |kept| == n
    && multiset(kept) <= multiset(all)
    && forall x, y :: x in multiset(kept) && y in multiset(all) - multiset(kept) ==> x >= y
  }

  /** `kept` is `n` of the values of `all`, none larger than a value left out. */
  predicate KeepsSmallest(all: seq<int>, kept: seq<int>, n: nat) {
    && |kept| == n
    && multiset(kept) <= multiset(all)
    && forall x, y :: x in multiset(kept) && y in multiset(all) - multiset(kept) ==> x <= y
  }

  /** In values sorted high to low, everything before a cut is at least
      everything after it. */
  lemma CutDominates(s: seq<int>, m: nat)
    requires Descending(s) && m <= |s|
    ensures forall x, y :: x in s[..m] && y in s[m..] ==> x >= y
  {
    forall x, y | x in s[..m] && y in s[m..]
      ensures x >= y
    {
      var i :| 0 <= i < m && s[..m][i] == x;
      var j :| 0 <= j < |s| - m && s[m..][j] == y;
      assert s[i] == x && s[m + j] == y;
    }
  }

  /** A cut splits the values into the two sides' multisets. */
  lemma CutSplits(s: seq<int>, all: seq<int>, m: nat)
    requires multiset(s) == multiset(all) && m <= |s|
    ensures multiset(s[..m]) <= multiset(all) && multiset(s[m..]) <= multiset(all)
    ensures multiset(all) - multiset(s[..m]) == multiset(s[m..])
    ensures multiset(all) - multiset(s[m..]) == multiset(s[..m])
  {
    assert s == s[..m] + s[m..];
  }

  /** The first `n` values sorted high to low are the `n` largest. */
  lemma TopSlice(s: seq<int>, all: seq<int>, n: nat)
    requires Descending(s) && multiset(s) == multiset(all) && n <= |s|
    ensures KeepsLargest(all, s[..n], n)
  {
    CutSplits(s, all, n);
    CutDominates(s, n);
  }

  /** The values after a cut of those sorted high to low are the smallest. */
  lemma BottomSlice(s: seq<int>, all: seq<int>, m: nat)
    requires Descending(s) && multiset(s) == multiset(all) && m <= |s|
    ensures KeepsSmallest(all, s[m..], |s| - m)
  {
    CutSplits(s, all, m);
    CutDominates(s, m);
  }

  /** The slice of the sorted values each kind takes: a prefix for `kh`/`dl`, a
      suffix for `kl`/`dh`. */
  lemma SelectSlice(s: seq<int>, k: Keep)
    requires k.count <= |s|
    ensures KeepsHigh(k.kind) ==> Select(s, k) == s[..KeptCount(k, |s|)]
    ensures !KeepsHigh(k.kind) ==> Select(s, k) == s[|s| - KeptCount(k, |s|)..]
  {
  }

  /** `kh` and `dl` keep the largest totals, `kl` and `dh` the smallest, as many as
      `KeptCount` says. */
  lemma KeepDropSelects(rs: seq<DieRoll>, k: Keep)
    requires k.count <= |rs|
    ensures KeepDrop(rs, k).Ok?
    ensures KeepsHigh(k.kind) ==> KeepsLargest(Totals(rs), KeepDrop(rs, k).value, KeptCount(k, |rs|))
    ensures !KeepsHigh(k.kind) ==> KeepsSmallest(Totals(rs), KeepDrop(rs, k).value, KeptCount(k, |rs|))
  {
    assert KeepDrop(rs, k) == Ok(Select(SortDesc(Totals(rs)), k));
    if KeepsHigh(k.kind) {
      SelectHigh(Totals(rs), k);
    } else {
      SelectLow(Totals(rs), k);
    }
  }

  /** Selecting from the front of the sorted totals keeps the largest. */
  lemma SelectHigh(all: seq<int>, k: Keep)
    requires k.count <= |all| && KeepsHigh(k.kind)
    ensures KeepsLargest(all, Select(SortDesc(all), k), KeptCount(k, |all|))
  {
    var s := SortDesc(all);
    SortDescSorted(all);
    SelectSlice(s, k);
    TopSlice(s, all, KeptCount(k, |all|));
  }

  /** Selecting from the back of the sorted totals keeps the smallest. */
  lemma SelectLow(all: seq<int>, k: Keep)
    requires k.count <= |all| && !KeepsHigh(k.kind)
    ensures KeepsSmallest(all, Select(SortDesc(all), k), KeptCount(k, |all|))
  {
    var s := SortDesc(all);
    var m := |s| - KeptCount(k, |all|);
    SortDescSorted(all);
    SelectSlice(s, k);
    assert Select(s, k) == s[m..];
    BottomSlice(s, all, m);
    assert |s| - m == KeptCount(k, |all|);
  }

  /** Dropping the `K` highest of `N` dice keeps what keeping the `N - K` lowest
      keeps, for `0 <= K < N`. */
  lemma DropHighIsKeepLow(rs: seq<DieRoll>, count: nat)
    requires count < |rs|
    ensures KeepDrop(rs, Keep(DropHigh, count)) == KeepDrop(rs, Keep(KeepLow, |rs| - count))
  {
  }

  /** Dropping the `K` lowest of `N` dice keeps what keeping the `N - K` highest
      keeps, for `0 < K <= N`. */
  lemma DropLowIsKeepHigh(rs: seq<DieRoll>, count: nat)
    requires 0 < count <= |rs|
    ensures KeepDrop(rs, Keep(DropLow, count)) == KeepDrop(rs, Keep(KeepHigh, |rs| - count))
  {
  }

  /** Python's slices at a count of 0: `kl0` keeps every total and `dl0` none. */
  lemma ZeroCountSlices(rs: seq<DieRoll>)
    ensures KeepDrop(rs, Keep(KeepLow, 0)) == Ok(SortDesc(Totals(rs)))
    ensures KeepDrop(rs, Keep(DropLow, 0)) == Ok([])
    ensures KeepDrop(rs, Keep(KeepHigh, 0)) == Ok([])
    ensures KeepDrop(rs, Keep(DropHigh, 0)) == Ok(SortDesc(Totals(rs)))
  {
  }

  // ---------------------------------------------------------------------------
  // Sorting the dice (`rolls.sort(key=lambda r: r.value)`)
  // ---------------------------------------------------------------------------

  /** No die goes strictly before an earlier one. */
  predicate Ordered(s: seq<DieRoll>, dir: SortDir) {
    forall i, j :: 0 <= i < j < |s| ==> !Before(s[j], s[i], dir)
  }

  lemma {:induction false} InsertRollKeeps(s: seq<DieRoll>, x: DieRoll, dir: SortDir)
    decreases |s|
    ensures multiset(InsertRoll(s, x, dir)) == multiset(s) + multiset{x}
  {
    if s != [] && !Before(x, s[0], dir) {
      InsertRollKeeps(s[1..], x, dir);
      assert s == [s[0]] + s[1..];
    }
  }

  /** Inserting a die that `b` does not go after into dice that `b` does not go
      after keeps `b` from going after any of them. */
  lemma {:induction false} InsertRollAfter(s: seq<DieRoll>, x: DieRoll, b: DieRoll, dir: SortDir)
    requires forall i :: 0 <= i < |s| ==> !Before(s[i], b, dir)
    requires !Before(x, b, dir)
    decreases |s|
    ensures forall i :: 0 <= i < |InsertRoll(s, x, dir)| ==> !Before(InsertRoll(s, x, dir)[i], b, dir)
  {
    if s != [] && !Before(x, s[0], dir) {
      InsertRollAfter(s[1..], x, b, dir);
    }
  }

  lemma {:induction false} InsertRollSorted(s: seq<DieRoll>, x: DieRoll, dir: SortDir)
    requires Ordered(s, dir)
    decreases |s|
    ensures Ordered(InsertRoll(s, x, dir), dir)
  {
    if s != [] && !Before(x, s[0], dir) {
      var rest := InsertRoll(s[1..], x, dir);
      InsertRollSorted(s[1..], x, dir);
      InsertRollAfter(s[1..], x, s[0], dir);
      assert InsertRoll(s, x, dir) == [s[0]] + rest;
    }
  }

  /** The sort orders the dice by value in the chosen direction and keeps every
      die. */
  lemma {:induction false} SortRollsSorted(rs: seq<DieRoll>, dir: SortDir)
    decreases |rs|
    ensures Ordered(SortRolls(rs, dir), dir)
    ensures multiset(SortRolls(rs, dir)) == multiset(rs)
  {
    if rs != [] {
      var init := rs[..|rs| - 1];
      SortRollsSorted(init, dir);
      InsertRollSorted(SortRolls(init, dir), rs[|rs| - 1], dir);
      InsertRollKeeps(SortRolls(init, dir), rs[|rs| - 1], dir);
      assert rs == init + [rs[|rs| - 1]];
    }
  }

  // ---------------------------------------------------------------------------
  // `_count_successes`
  // ---------------------------------------------------------------------------

  /** The number of dice flagged as successes. */
  function Flagged(rs: seq<DieRoll>): nat
    decreases |rs|
  {
    if rs == [] then 0 else Flagged(rs[..|rs| - 1]) + (if rs[|rs| - 1].success == Some(true) then 1 else 0)
  }

  /** A count of successes never exceeds the number of values counted. */
  lemma {:induction false} CountMeetingBound(xs: seq<int>, comp: Comparison)
    decreases |xs|
    ensures CountMeeting(xs, comp) <= |xs|
    ensures CountMeeting(xs, comp) == |xs| <==> forall i :: 0 <= i < |xs| ==> Meets(xs[i], comp)
  {
    if xs != [] {
      CountMeetingBound(xs[..|xs| - 1], comp);
    }
  }

  function Sign(x: int): int {
    if x < 0 then -1 else if x == 0 then 0 else 1
  }

  /** The outcomes of comparing a value with a threshold (-1 below, 0 equal, 1
      above) that each comparator accepts. */
  function Admits(op: CompOp): set<int> {
    match op
    case Eq => {0}
    case Gt => {1}
    case Ge => {0, 1}
    case Lt => {-1}
    case Le => {-1, 0}
  }

  /** `_check_condition` depends only on how the value compares with the
      threshold, and each comparator accepts the outcomes its symbol names. */
  lemma MeetsBySign(value: int, c: Comparison)
    ensures Meets(value, c) <==> Sign(value - c.value) in Admits(c.op)
  {
  }

  /** Counting with complementary comparators splits the values: `<` and `>=`
      count every value once between them, so do `<=` and `>`, and `>=` counts
      the values `>` counts plus those `=` counts. */
  lemma {:induction false} CountsComplement(xs: seq<int>, t: nat)
    decreases |xs|
    ensures CountMeeting(xs, Comparison(Lt, t)) + CountMeeting(xs, Comparison(Ge, t)) == |xs|
    ensures CountMeeting(xs, Comparison(Le, t)) + CountMeeting(xs, Comparison(Gt, t)) == |xs|
    ensures CountMeeting(xs, Comparison(Ge, t)) == CountMeeting(xs, Comparison(Gt, t)) + CountMeeting(xs, Comparison(Eq, t))
  {
    if xs != [] {
      CountsComplement(xs[..|xs| - 1], t);
    }
  }

  /** Without keep/drop every die is flagged, and the flags count exactly the dice
      whose value meets the comparison. */
  lemma {:induction false} FlagsMatchCount(rs: seq<DieRoll>, comp: Comparison)
    decreases |rs|
    ensures Flagged(MarkSuccesses(rs, comp, |rs|)) == CountMeeting(Values(rs), comp)
  {
    if rs != [] {
      var init := rs[..|rs| - 1];
      FlagsMatchCount(init, comp);
      assert MarkSuccesses(rs, comp, |rs|)[..|rs| - 1] == MarkSuccesses(init, comp, |init|);
      assert Values(rs)[..|rs| - 1] == Values(init);
    }
  }

  /** `_check_condition` against `_format_condition`: distinct conditions print
      differently. */
  lemma FormatConditionInjective(a: Comparison, b: Comparison)
    requires FormatCondition(a) == FormatCondition(b)
    ensures a == b
  {
    var sa, sb := NatToString(a.value), NatToString(b.value);
    var pa := if a.op == Eq then "" else OpText(a.op);
    var pb := if b.op == Eq then "" else OpText(b.op);
    assert FormatCondition(a) == pa + sa && FormatCondition(b) == pb + sb;
    assert IsDigit(sa[0]) && IsDigit(sb[0]);
    PrefixedDigits(pa, sa, pb, sb);
    assert pa == pb;
    assert a.op == b.op by {
      if a.op != Eq && b.op != Eq {
        assert CompOpOf(pa) == Some(a.op) && CompOpOf(pb) == Some(b.op);
      }
    }
    DigitsRoundTrip(a.value);
    DigitsRoundTrip(b.value);
  }

  /** Where one concatenation has a longer prefix than the other, the shorter
      prefix's tail starts with a character of the longer prefix. */
  lemma CharAfterPrefix(p: string, s: string, q: string, t: string)
    requires p + s == q + t && |p| < |q|
    ensures |s| > 0 && s[0] == q[|p|]
  {
    assert (p + s)[|p|] == (q + t)[|p|];
  }

  /** A comparator prefix followed by digits splits in one way only. */
  lemma PrefixedDigits(pa: string, sa: string, pb: string, sb: string)
    requires pa in ["", "=", ">", ">=", "<", "<="] && pb in ["", "=", ">", ">=", "<", "<="]
    requires IsDigits(sa) && IsDigits(sb)
    requires pa + sa == pb + sb
    ensures pa == pb && sa == sb
  {
    if |pa| < |pb| {
      CharAfterPrefix(pa, sa, pb, sb);
      assert false;
    } else if |pb| < |pa| {
      CharAfterPrefix(pb, sb, pa, sa);
      assert false;
    } else {
      assert pa == (pa + sa)[..|pa|] == (pb + sb)[..|pb|] == pb;
      assert sa == (pa + sa)[|pa|..] == (pb + sb)[|pb|..] == sb;
    }
  }

  // ---------------------------------------------------------------------------
  // `_eval_dice`'s first loop, `_apply_rerolls`, `_apply_explosions`
  // ---------------------------------------------------------------------------

  /** A die the source can roll: at least one side, and at most `MAX_SIDES` unless
      it is a Fate die. */
  predicate ValidDie(sides: nat, kind: DieKind) {
    1 <= sides && (kind == Fate || sides <= MAX_SIDES)
  }

  /** Dice as the first loop of `_eval_dice` creates them: no rerolls, no
      explosions, no success flag, each showing a face of the die. */
  predicate FreshFaces(rs: seq<DieRoll>, sides: nat, kind: DieKind) {
    forall i :: 0 <= i < |rs| ==>
      rs[i].rerolls == [] && rs[i].explodes == [] && rs[i].success == None && IsFace(rs[i].value, sides, kind)
  }

  /** `count` fresh dice showing faces of the die, drawn without error. */
  predicate FreshRolls(r: Drawn<seq<DieRoll>>, count: nat, sides: nat, kind: DieKind) {
    r.result.Ok? && |r.result.value| == count && FreshFaces(r.result.value, sides, kind)
  }

  /** With a valid die every draw succeeds: `count` fresh dice showing faces of the
      die. */
  lemma {:induction false} RollAllFresh(src: EntropySource, c: Cursor, count: nat, sides: nat, kind: DieKind)
    requires ValidDie(sides, kind)
    decreases count
    ensures FreshRolls(RollAll(src, c, count, sides, kind), count, sides, kind)
  {
    if count > 0 {
      RollAllFresh(src, c, count - 1, sides, kind);
      FreshStep(src, c, count, sides, kind);
    }
  }

  /** One more draw of a valid die keeps the dice fresh faces. */
  lemma FreshStep(src: EntropySource, c: Cursor, count: nat, sides: nat, kind: DieKind)
    requires ValidDie(sides, kind) && count > 0
    requires FreshRolls(RollAll(src, c, count - 1, sides, kind), count - 1, sides, kind)
    ensures FreshRolls(RollAll(src, c, count, sides, kind), count, sides, kind)
  {
    var prev := RollAll(src, c, count - 1, sides, kind);
    var x := DrawFace(src, prev.cursor, sides, kind);
    assert x.result.Ok? && IsFace(x.result.value, sides, kind);
    RollAllSnoc(src, c, count, sides, kind, prev.result.value, prev.cursor, x.result.value, x.cursor);
    FreshAppended(prev.result.value, x.result.value, sides, kind);
  }

  /** One more die on top of the dice drawn so far. */
  lemma RollAllSnoc(src: EntropySource, c: Cursor, count: nat, sides: nat, kind: DieKind,
                    rs: seq<DieRoll>, at: Cursor, v: int, after: Cursor)
    requires count > 0
    requires RollAll(src, c, count - 1, sides, kind).result == Ok(rs)
    requires RollAll(src, c, count - 1, sides, kind).cursor == at
    requires DrawFace(src, at, sides, kind).result == Ok(v) && DrawFace(src, at, sides, kind).cursor == after
    ensures RollAll(src, c, count, sides, kind).result == Ok(rs + [Fresh(v)])
  {
  }

  lemma FreshAppended(rs: seq<DieRoll>, v: int, sides: nat, kind: DieKind)
    requires FreshFaces(rs, sides, kind) && IsFace(v, sides, kind)
    ensures FreshFaces(rs + [Fresh(v)], sides, kind)
  {
  }

  /** What a reroll loop leaves of die `d` in `v`: the values it superseded are
      appended to `rerolls`, the first of them being `d`'s value and each of them
      meeting the condition; nothing else changes. */
  predicate Superseded(d: DieRoll, v: DieRoll, cond: Comparison) {
    && |d.rerolls| <= |v.rerolls|
    && v.rerolls[..|d.rerolls|] == d.rerolls
    && v.explodes == d.explodes
    && v.success == d.success
    && (|v.rerolls| == |d.rerolls| ==> v.value == d.value)
    && (|v.rerolls| > |d.rerolls| ==> v.rerolls[|d.rerolls|] == d.value)
    && forall i :: |d.rerolls| <= i < |v.rerolls| ==> Meets(v.rerolls[i], cond)
  }

  /** One reroll of `d` followed by whatever the rest of the loop superseded. */
  lemma SupersededStep(d: DieRoll, next: DieRoll, v: DieRoll, cond: Comparison)
    requires Meets(d.value, cond)
    requires next.rerolls == d.rerolls + [d.value] && next.explodes == d.explodes && next.success == d.success
    requires Superseded(next, v, cond)
    ensures Superseded(d, v, cond) && |v.rerolls| > |d.rerolls|
  {
    assert v.rerolls[..|d.rerolls|] == next.rerolls[..|d.rerolls|];
  }

  /** The reroll loop of one die, from `n` rerolls on, keeps the history of the
      values it superseded, rerolls fewer than `MAX_REROLLS` times in all, and at
      most once for `ro`. */
  lemma {:induction false} RerollHistory(src: EntropySource, c: Cursor, d: DieRoll, sides: nat, kind: DieKind,
                                         spec: Reroll, n: nat)
    decreases MAX_REROLLS - n, 1
    ensures var r := RerollDie(src, c, d, sides, kind, spec, n);
      r.result.Ok? ==>
        && Superseded(d, r.result.value, spec.cond)
        && n + |r.result.value.rerolls| - |d.rerolls| < MAX_REROLLS
        && (spec.once ==> |r.result.value.rerolls| <= |d.rerolls| + 1)
  {
    if Meets(d.value, spec.cond) && n < MAX_REROLLS {
      assert RerollDie(src, c, d, sides, kind, spec, n) == Redraw(src, c, d, sides, kind, spec, n);
      RedrawHistory(src, c, d, sides, kind, spec, n);
    }
  }

  lemma {:induction false} RedrawHistory(src: EntropySource, c: Cursor, d: DieRoll, sides: nat, kind: DieKind,
                                         spec: Reroll, n: nat)
    requires Meets(d.value, spec.cond) && n < MAX_REROLLS
    decreases MAX_REROLLS - n, 0
    ensures var r := Redraw(src, c, d, sides, kind, spec, n);
      r.result.Ok? ==>
        && Superseded(d, r.result.value, spec.cond)
        && n + |r.result.value.rerolls| - |d.rerolls| < MAX_REROLLS
        && (spec.once ==> |r.result.value.rerolls| <= |d.rerolls| + 1)
  {
    var x := DrawFace(src, c, sides, kind);
    if x.result.Ok? {
      var next := d.(value := x.result.value, rerolls := d.rerolls + [d.value]);
      if spec.once {
        SupersededStep(d, next, next, spec.cond);
      } else {
        RerollHistory(src, x.cursor, next, sides, kind, spec, n + 1);
        var r := RerollDie(src, x.cursor, next, sides, kind, spec, n + 1);
        if r.result.Ok? {
          SupersededStep(d, next, r.result.value, spec.cond);
        }
      }
    }
  }

  /** How the reroll loop of one die ends: `r` stops only on a value that does not
      meet the condition, a die showing a face still shows one, and with a valid
      die the only error is reaching `MAX_REROLLS`. */
  lemma {:induction false} RerollEnds(src: EntropySource, c: Cursor, d: DieRoll, sides: nat, kind: DieKind,
                                      spec: Reroll, n: nat)
    decreases MAX_REROLLS - n, 1
    ensures var r := RerollDie(src, c, d, sides, kind, spec, n);
      && (r.result.Ok? && !spec.once ==> !Meets(r.result.value.value, spec.cond))
      && (r.result.Ok? && IsFace(d.value, sides, kind) && ValidDie(sides, kind) ==> IsFace(r.result.value.value, sides, kind))
      && (r.result.Err? && ValidDie(sides, kind) ==> r.result.error.LimitError?)
  {
    if Meets(d.value, spec.cond) && n < MAX_REROLLS {
      assert RerollDie(src, c, d, sides, kind, spec, n) == Redraw(src, c, d, sides, kind, spec, n);
      RedrawEnds(src, c, d, sides, kind, spec, n);
    }
  }

  lemma {:induction false} RedrawEnds(src: EntropySource, c: Cursor, d: DieRoll, sides: nat, kind: DieKind,
                                      spec: Reroll, n: nat)
    requires n < MAX_REROLLS
    decreases MAX_REROLLS - n, 0
    ensures var r := Redraw(src, c, d, sides, kind, spec, n);
      && (r.result.Ok? && !spec.once ==> !Meets(r.result.value.value, spec.cond))
      && (r.result.Ok? && ValidDie(sides, kind) ==> IsFace(r.result.value.value, sides, kind))
      && (r.result.Err? && ValidDie(sides, kind) ==> r.result.error.LimitError?)
  {
    var x := DrawFace(src, c, sides, kind);
    if x.result.Ok? && !spec.once {
      RerollEnds(src, x.cursor, d.(value := x.result.value, rerolls := d.rerolls + [d.value]), sides, kind, spec, n + 1);
    }
  }

  /** The increments a die of the term can explode by: a face of the die, one less
      when a penetrating explosion took one off a positive face. */
  predicate IsIncrement(x: int, sides: nat, kind: DieKind, penetrating: bool) {
    if !penetrating then IsFace(x, sides, kind)
    else if kind == Fate then -1 <= x <= 0
    else 0 <= x < sides
  }

  /** What an explosion loop leaves of die `d` in `v`, the loop starting from the
      value `current`: increments are appended to `explodes`, every value that
      led to another increment met the condition and the last one did not; the
      value, the rerolls and the flag stay as they were. */
  predicate ExplodedFrom(d: DieRoll, v: DieRoll, current: int, cond: Comparison) {
    && v.value == d.value
    && v.rerolls == d.rerolls
    && v.success == d.success
    && |d.explodes| <= |v.explodes|
    && v.explodes[..|d.explodes|] == d.explodes
    && (|v.explodes| > |d.explodes| ==> Meets(current, cond) && !Meets(v.explodes[|v.explodes| - 1], cond))
    && (|v.explodes| == |d.explodes| ==> !Meets(current, cond))
    && forall i :: |d.explodes| <= i < |v.explodes| - 1 ==> Meets(v.explodes[i], cond)
  }

  /** One explosion of `d` by `inc` followed by whatever the rest of the loop
      added. */
  lemma ExplodedStep(d: DieRoll, next: DieRoll, v: DieRoll, current: int, inc: int, cond: Comparison)
    requires Meets(current, cond)
    requires next == d.(explodes := d.explodes + [inc])
    requires ExplodedFrom(next, v, inc, cond)
    ensures ExplodedFrom(d, v, current, cond)
  {
    assert v.explodes[..|d.explodes|] == next.explodes[..|d.explodes|];
    assert v.explodes[|d.explodes|] == inc;
  }

  /** The explosion loop of one die, from `n` explosions on, adds increments while
      the latest value meets the condition, fewer than `MAX_EXPLOSIONS` in all. */
  lemma {:induction false} ExplodeHistory(src: EntropySource, c: Cursor, d: DieRoll, current: int, sides: nat,
                                          kind: DieKind, penetrating: bool, cond: Comparison, n: nat)
    decreases MAX_EXPLOSIONS - n, 1
    ensures var r := ExplodeDie(src, c, d, current, sides, kind, penetrating, cond, n);
      r.result.Ok? ==>
        && ExplodedFrom(d, r.result.value, current, cond)
        && n + |r.result.value.explodes| - |d.explodes| < MAX_EXPLOSIONS
  {
    if Meets(current, cond) && n < MAX_EXPLOSIONS {
      assert ExplodeDie(src, c, d, current, sides, kind, penetrating, cond, n)
          == Explosion(src, c, d, sides, kind, penetrating, cond, n);
      ExplosionHistory(src, c, d, current, sides, kind, penetrating, cond, n);
    }
  }

  lemma {:induction false} ExplosionHistory(src: EntropySource, c: Cursor, d: DieRoll, current: int, sides: nat,
                                            kind: DieKind, penetrating: bool, cond: Comparison, n: nat)
    requires Meets(current, cond) && n < MAX_EXPLOSIONS
    decreases MAX_EXPLOSIONS - n, 0
    ensures var r := Explosion(src, c, d, sides, kind, penetrating, cond, n);
      r.result.Ok? ==>
        && ExplodedFrom(d, r.result.value, current, cond)
        && n + |r.result.value.explodes| - |d.explodes| < MAX_EXPLOSIONS
  {
    var x := DrawFace(src, c, sides, kind);
    if x.result.Ok? {
      var inc := Penetrate(x.result.value, penetrating);
      var next := d.(explodes := d.explodes + [inc]);
      ExplodeHistory(src, x.cursor, next, inc, sides, kind, penetrating, cond, n + 1);
      var r := ExplodeDie(src, x.cursor, next, inc, sides, kind, penetrating, cond, n + 1);
      if r.result.Ok? {
        ExplodedStep(d, next, r.result.value, current, inc, cond);
      }
    }
  }

  /** A face, after a penetrating explosion took its one off, is an increment. */
  lemma PenetratedFace(v: int, sides: nat, kind: DieKind, penetrating: bool)
    requires IsFace(v, sides, kind)
    ensures IsIncrement(Penetrate(v, penetrating), sides, kind, penetrating)
  {
  }

  /** Increments within range stay within range when one more is put before
      them. */
  lemma IncrementsStep(before: seq<int>, inc: int, all: seq<int>, sides: nat, kind: DieKind, penetrating: bool)
    requires |before| < |all| && all[..|before| + 1] == before + [inc]
    requires IsIncrement(inc, sides, kind, penetrating)
    requires forall i :: |before| + 1 <= i < |all| ==> IsIncrement(all[i], sides, kind, penetrating)
    ensures forall i :: |before| <= i < |all| ==> IsIncrement(all[i], sides, kind, penetrating)
  {
    assert all[|before|] == (before + [inc])[|before|];
  }

  /** With a valid die the explosion loop fails only on reaching
      `MAX_EXPLOSIONS`. */
  lemma {:induction false} ExplodeFails(src: EntropySource, c: Cursor, d: DieRoll, current: int, sides: nat,
                                        kind: DieKind, penetrating: bool, cond: Comparison, n: nat)
    requires ValidDie(sides, kind)
    decreases MAX_EXPLOSIONS - n, 1
    ensures var r := ExplodeDie(src, c, d, current, sides, kind, penetrating, cond, n);
      r.result.Err? ==> r.result.error.LimitError?
  {
    if Meets(current, cond) && n < MAX_EXPLOSIONS {
      assert ExplodeDie(src, c, d, current, sides, kind, penetrating, cond, n)
          == Explosion(src, c, d, sides, kind, penetrating, cond, n);
      ExplosionFails(src, c, d, sides, kind, penetrating, cond, n);
    }
  }

  lemma {:induction false} ExplosionFails(src: EntropySource, c: Cursor, d: DieRoll, sides: nat,
                                          kind: DieKind, penetrating: bool, cond: Comparison, n: nat)
    requires ValidDie(sides, kind) && n < MAX_EXPLOSIONS
    decreases MAX_EXPLOSIONS - n, 0
    ensures var r := Explosion(src, c, d, sides, kind, penetrating, cond, n);
      r.result.Err? ==> r.result.error.LimitError?
  {
    var x := DrawFace(src, c, sides, kind);
    assert x.result.Ok?;
    var inc := Penetrate(x.result.value, penetrating);
    ExplodeFails(src, x.cursor, d.(explodes := d.explodes + [inc]), inc, sides, kind, penetrating, cond, n + 1);
  }

  /** With a valid die every increment the explosion loop adds is within the die's
      range. */
  lemma {:induction false} ExplodeEnds(src: EntropySource, c: Cursor, d: DieRoll, current: int, sides: nat,
                                       kind: DieKind, penetrating: bool, cond: Comparison, n: nat)
    requires ValidDie(sides, kind)
    decreases MAX_EXPLOSIONS - n, 1
    ensures var r := ExplodeDie(src, c, d, current, sides, kind, penetrating, cond, n);
      r.result.Ok? ==> forall i :: |d.explodes| <= i < |r.result.value.explodes| ==>
        IsIncrement(r.result.value.explodes[i], sides, kind, penetrating)
  {
    if Meets(current, cond) && n < MAX_EXPLOSIONS {
      assert ExplodeDie(src, c, d, current, sides, kind, penetrating, cond, n)
          == Explosion(src, c, d, sides, kind, penetrating, cond, n);
      ExplosionEnds(src, c, d, current, sides, kind, penetrating, cond, n);
    }
  }

  lemma {:induction false} ExplosionEnds(src: EntropySource, c: Cursor, d: DieRoll, current: int, sides: nat,
                                         kind: DieKind, penetrating: bool, cond: Comparison, n: nat)
    requires ValidDie(sides, kind) && n < MAX_EXPLOSIONS
    decreases MAX_EXPLOSIONS - n, 0
    ensures var r := Explosion(src, c, d, sides, kind, penetrating, cond, n);
      r.result.Ok? ==> forall i :: |d.explodes| <= i < |r.result.value.explodes| ==>
        IsIncrement(r.result.value.explodes[i], sides, kind, penetrating)
  {
    var x := DrawFace(src, c, sides, kind);
    var inc := Penetrate(x.result.value, penetrating);
    var next := d.(explodes := d.explodes + [inc]);
    PenetratedFace(x.result.value, sides, kind, penetrating);
    ExplodeEnds(src, x.cursor, next, inc, sides, kind, penetrating, cond, n + 1);
    ExplodeHistory(src, x.cursor, next, inc, sides, kind, penetrating, cond, n + 1);
    var r := ExplodeDie(src, x.cursor, next, inc, sides, kind, penetrating, cond, n + 1);
    if r.result.Ok? {
      IncrementsStep(d.explodes, inc, r.result.value.explodes, sides, kind, penetrating);
    }
  }

  /** Visiting the dice keeps their number and, die by die, whatever relation
      `keeps` every successful step establishes between a die and its result. */
  lemma {:induction false} EachKeeps(rs: seq<DieRoll>, c: Cursor, step: (DieRoll, Cursor) -> Drawn<DieRoll>,
                                     keeps: (DieRoll, DieRoll) -> bool)
    requires forall d, at :: step(d, at).result.Ok? ==> keeps(d, step(d, at).result.value)
    decreases |rs|
    ensures var r := Each(rs, c, step);
      r.result.Ok? ==> |r.result.value| == |rs| && forall i :: 0 <= i < |rs| ==> keeps(rs[i], r.result.value[i])
  {
    if rs != [] {
      EachKeeps(rs[..|rs| - 1], c, step, keeps);
    }
  }

  /** `r` over a whole term: every die keeps the history of what it superseded and
      ends on a value that does not meet the condition. */
  lemma RerollTerm(src: EntropySource, c: Cursor, rs: seq<DieRoll>, sides: nat, kind: DieKind, spec: Reroll)
    requires !spec.once
    ensures var r := Each(rs, c, RerollStep(src, sides, kind, spec));
      r.result.Ok? ==> |r.result.value| == |rs| && forall i :: 0 <= i < |rs| ==>
        Superseded(rs[i], r.result.value[i], spec.cond) && !Meets(r.result.value[i].value, spec.cond)
  {
    var keeps := (d: DieRoll, v: DieRoll) => Superseded(d, v, spec.cond) && !Meets(v.value, spec.cond);
    forall d, at | RerollStep(src, sides, kind, spec)(d, at).result.Ok?
      ensures keeps(d, RerollStep(src, sides, kind, spec)(d, at).result.value)
    {
      RerollHistory(src, at, d, sides, kind, spec, 0);
      RerollEnds(src, at, d, sides, kind, spec, 0);
    }
    EachKeeps(rs, c, RerollStep(src, sides, kind, spec), keeps);
  }

  /** Explosions over a whole term of a valid die: every die keeps its value and
      gains increments within the die's range until one fails the condition. */
  lemma ExplodeTerm(src: EntropySource, c: Cursor, rs: seq<DieRoll>, sides: nat, kind: DieKind,
                    penetrating: bool, cond: Comparison)
    requires ValidDie(sides, kind)
    ensures var r := Each(rs, c, ExplodeStep(src, sides, kind, penetrating, cond));
      r.result.Ok? ==> |r.result.value| == |rs| && forall i :: 0 <= i < |rs| ==>
        ExplodedFrom(rs[i], r.result.value[i], rs[i].value, cond)
        && forall j :: |rs[i].explodes| <= j < |r.result.value[i].explodes| ==>
             IsIncrement(r.result.value[i].explodes[j], sides, kind, penetrating)
  {
    var keeps := (d: DieRoll, v: DieRoll) => ExplodedFrom(d, v, d.value, cond)
      && forall j :: |d.explodes| <= j < |v.explodes| ==> IsIncrement(v.explodes[j], sides, kind, penetrating);
    forall d, at | ExplodeStep(src, sides, kind, penetrating, cond)(d, at).result.Ok?
      ensures keeps(d, ExplodeStep(src, sides, kind, penetrating, cond)(d, at).result.value)
    {
      ExplodeHistory(src, at, d, d.value, sides, kind, penetrating, cond, 0);
      ExplodeEnds(src, at, d, d.value, sides, kind, penetrating, cond, 0);
    }
    EachKeeps(rs, c, ExplodeStep(src, sides, kind, penetrating, cond), keeps);
  }

  /** `1d1!`: a one-sided die always meets its explosion condition and every draw
      shows 1 without touching the source, so the loop runs into the limit. */
  lemma {:induction false} OneSidedExplodesForever(src: EntropySource, c: Cursor, d: DieRoll, cond: Comparison, n: nat)
    requires Meets(1, cond)
    decreases MAX_EXPLOSIONS - n
    ensures ExplodeDie(src, c, d, 1, 1, Standard, false, cond, n)
         == Drawn(Err(LimitError("Exceeded maximum explosions of 100")), c)
  {
    if n < MAX_EXPLOSIONS {
      assert ExplodeDie(src, c, d, 1, 1, Standard, false, cond, n) == Explosion(src, c, d, 1, Standard, false, cond, n);
      OneSidedExplodesForever(src, c, d.(explodes := d.explodes + [1]), cond, n + 1);
    }
  }

  // ---------------------------------------------------------------------------
  // The end of `_eval_dice`: sorting, summing and counting
  // ---------------------------------------------------------------------------

  lemma {:induction false} SumAppend(a: seq<int>, b: seq<int>)
    decreases |b|
    ensures Sum(a + b) == Sum(a) + Sum(b)
  {
    if b == [] {
      assert a + b == a;
    } else {
      SumAppend(a, b[..|b| - 1]);
      assert (a + b)[..|a + b| - 1] == a + b[..|b| - 1];
    }
  }

  /** What one die adds to the plain sum: its value, and its increments when it
      is a Fate die. */
  function Weight(d: DieRoll, kind: DieKind): int {
    d.value + (if kind == Fate then Sum(d.explodes) else 0)
  }

  /** The dice's weights added up front to back. */
  function DiceSum(rs: seq<DieRoll>, kind: DieKind): int
    decreases |rs|
  {
    if rs == [] then 0 else Weight(rs[0], kind) + DiceSum(rs[1..], kind)
  }

  lemma {:induction false} DiceSumSnoc(rs: seq<DieRoll>, d: DieRoll, kind: DieKind)
    decreases |rs|
    ensures DiceSum(rs + [d], kind) == DiceSum(rs, kind) + Weight(d, kind)
  {
    if rs != [] {
      DiceSumSnoc(rs[1..], d, kind);
      assert (rs + [d])[1..] == rs[1..] + [d];
    }
  }

  lemma PlainSumSnoc(rs: seq<DieRoll>, d: DieRoll, kind: DieKind)
    ensures PlainSum(rs + [d], kind) == PlainSum(rs, kind) + Weight(d, kind)
  {
    var all := rs + [d];
    assert all[..|all| - 1] == rs;
    assert Values(all) == Values(rs) + [d.value];
    if kind == Fate {
      assert Increments(all) == Increments(rs) + d.explodes;
      SumAppend(Values(rs) + [d.value], Increments(rs) + d.explodes);
      SumAppend(Values(rs), Increments(rs));
      SumAppend(Increments(rs), d.explodes);
    } else {
      assert Values(all) + [] == Values(rs) + [d.value];
      assert Values(rs) + [] == Values(rs);
    }
  }

  /** The plain sum of a term is the sum of its dice's weights. */
  lemma {:induction false} PlainSumIsDiceSum(rs: seq<DieRoll>, kind: DieKind)
    decreases |rs|
    ensures PlainSum(rs, kind) == DiceSum(rs, kind)
  {
    if rs != [] {
      var init := rs[..|rs| - 1];
      PlainSumIsDiceSum(init, kind);
      assert rs == init + [rs[|rs| - 1]];
      PlainSumSnoc(init, rs[|rs| - 1], kind);
      DiceSumSnoc(init, rs[|rs| - 1], kind);
    }
  }

  lemma {:induction false} InsertRollWeight(s: seq<DieRoll>, x: DieRoll, dir: SortDir, kind: DieKind)
    decreases |s|
    ensures DiceSum(InsertRoll(s, x, dir), kind) == DiceSum(s, kind) + Weight(x, kind)
  {
    if s != [] && !Before(x, s[0], dir) {
      InsertRollWeight(s[1..], x, dir, kind);
      assert InsertRoll(s, x, dir)[1..] == InsertRoll(s[1..], x, dir);
    } else if s != [] {
      assert InsertRoll(s, x, dir)[1..] == s;
    }
  }

  /** Sorting the dice (`s`/`sa`/`sd`) does not change the sum of the term. */
  lemma {:induction false} SortKeepsSum(rs: seq<DieRoll>, dir: SortDir, kind: DieKind)
    decreases |rs|
    ensures PlainSum(SortRolls(rs, dir), kind) == PlainSum(rs, kind)
  {
    SortKeepsDiceSum(rs, dir, kind);
    PlainSumIsDiceSum(rs, kind);
    PlainSumIsDiceSum(SortRolls(rs, dir), kind);
  }

  lemma {:induction false} SortKeepsDiceSum(rs: seq<DieRoll>, dir: SortDir, kind: DieKind)
    decreases |rs|
    ensures DiceSum(SortRolls(rs, dir), kind) == DiceSum(rs, kind)
  {
    if rs != [] {
      var init := rs[..|rs| - 1];
      SortKeepsDiceSum(init, dir, kind);
      InsertRollWeight(SortRolls(init, dir), rs[|rs| - 1], dir, kind);
      assert rs == init + [rs[|rs| - 1]];
      DiceSumSnoc(init, rs[|rs| - 1], kind);
    }
  }

  /** A term with a success comparator reports a count and no sum; the count is
      at most the number of values counted and, without keep/drop, equals the
      number of dice flagged as successes. */
  lemma FinishCounts(rs: seq<DieRoll>, kept: Option<seq<int>>, count: nat, sides: nat, kind: DieKind, mods: Modifiers)
    requires mods.comparator.Some?
    ensures var (v, t) := Finish(rs, kept, count, sides, kind, mods);
      && t.successes == Some(v) && t.sum == None && t.keptValues == None
      && t.threshold == Some(OpText(mods.comparator.value.op) + NatToString(mods.comparator.value.value))
      && |t.rolls| == |rs|
      && v <= (if kept.Some? then |kept.value| else |rs|)
      && (kept.None? ==> Flagged(t.rolls) == v)
  {
    var sorted := match mods.sort case Some(dir) => SortRolls(rs, dir) case None => rs;
    var comp := mods.comparator.value;
    SortedLength(rs, mods.sort);
    if kept.Some? {
      CountMeetingBound(kept.value, comp);
    } else {
      CountMeetingBound(Values(sorted), comp);
      FlagsMatchCount(sorted, comp);
    }
  }

  /** A term without a comparator reports its sum: that of the kept totals after
      keep/drop, otherwise the plain sum of the dice whatever their order. */
  lemma FinishSums(rs: seq<DieRoll>, kept: Option<seq<int>>, count: nat, sides: nat, kind: DieKind, mods: Modifiers)
    requires mods.comparator.None?
    ensures var (v, t) := Finish(rs, kept, count, sides, kind, mods);
      && t.sum == Some(v) && t.successes == None && t.threshold == None && t.keptValues == kept
      && v == (if kept.Some? then Sum(kept.value) else PlainSum(rs, kind))
      && multiset(t.rolls) == multiset(rs)
  {
    match mods.sort
    case Some(dir) =>
      SortKeepsSum(rs, dir, kind);
      SortRollsSorted(rs, dir);
    case None =>
  }

  lemma SortedLength(rs: seq<DieRoll>, sort: Option<SortDir>)
    ensures |match sort case Some(dir) => SortRolls(rs, dir) case None => rs| == |rs|
  {
    if sort.Some? {
      SortRollsSorted(rs, sort.value);
      assert |multiset(SortRolls(rs, sort.value))| == |multiset(rs)|;
    }
  }

  // ---------------------------------------------------------------------------
  // `_eval_node`
  // ---------------------------------------------------------------------------

  /** The number of dice terms in an expression. */
  function DiceCount(e: Expr): nat {
    match e
    case Number(_) => 0
    case UnaryOp(x) => DiceCount(x)
    case BinaryOp(_, l, r) => DiceCount(l) + DiceCount(r)
    case Dice(_, _, _, _) => 1
  }

  /** Evaluation only appends traces, one per dice term evaluated; when it
      succeeds every dice term of the expression has left its trace. */
  lemma {:induction false} EvalTraces(src: EntropySource, c: Cursor, e: Expr, acc: seq<DiceTrace>)
    decreases e
    ensures var r := Eval(src, c, e, acc);
      && |acc| <= |r.traces| <= |acc| + DiceCount(e)
      && r.traces[..|acc|] == acc
      && (r.result.Ok? ==> |r.traces| == |acc| + DiceCount(e))
  {
    match e
    case Number(_) =>
    case UnaryOp(x) =>
      EvalTraces(src, c, x, acc);
    case BinaryOp(op, l, r) =>
      EvalTraces(src, c, l, acc);
      var a := Eval(src, c, l, acc);
      if a.result.Ok? {
        EvalTraces(src, a.cursor, r, a.traces);
        var b := Eval(src, a.cursor, r, a.traces);
        assert b.traces[..|acc|] == b.traces[..|a.traces|][..|acc|];
      }
    case Dice(_, _, _, _) =>
  }

  /** Whether some dice term of the expression counts successes. */
  predicate Counts(e: Expr) {
    match e
    case Number(_) => false
    case UnaryOp(x) => Counts(x)
    case BinaryOp(_, l, r) => Counts(l) || Counts(r)
    case Dice(_, _, _, mods) => mods.comparator.Some?
  }

  /** A settled term's trace carries a success count exactly when the term has a
      comparator. */
  lemma SettleCounts(rs: seq<DieRoll>, count: nat, sides: nat, kind: DieKind, mods: Modifiers)
    ensures var s := Settle(rs, count, sides, kind, mods);
      s.Ok? ==> (s.value.1.successes.Some? <==> mods.comparator.Some?)
  {
  }

  /** When evaluation succeeds, one of the traces it appended carries a success
      count exactly when some dice term of the expression has a comparator. */
  lemma {:induction false} EvalCounts(src: EntropySource, c: Cursor, e: Expr, acc: seq<DiceTrace>)
    decreases e
    ensures var r := Eval(src, c, e, acc);
      r.result.Ok? ==>
        |acc| <= |r.traces|
        && ((exists i :: |acc| <= i < |r.traces| && r.traces[i].successes.Some?) <==> Counts(e))
  {
    match e
    case Number(_) =>
    case UnaryOp(x) =>
      EvalCounts(src, c, x, acc);
    case BinaryOp(op, l, r) =>
      var a := Eval(src, c, l, acc);
      EvalCounts(src, c, l, acc);
      if a.result.Ok? {
        var b := Eval(src, a.cursor, r, a.traces);
        EvalCounts(src, a.cursor, r, a.traces);
        EvalTraces(src, a.cursor, r, a.traces);
        if b.result.Ok? {
          assert Eval(src, c, e, acc).traces == b.traces;
          forall i | |acc| <= i < |a.traces|
            ensures b.traces[i] == a.traces[i]
          {
            assert b.traces[..|a.traces|][i] == b.traces[i];
          }
        }
      }
    case Dice(count, sides, kind, mods) =>
      var d := Rolled(src, c, count, sides, kind, mods);
      if d.result.Ok? {
        SettleCounts(d.result.value, count, sides, kind, mods);
        var r := Eval(src, c, e, acc);
        if r.result.Ok? {
          assert r.traces[|acc|] == Settle(d.result.value, count, sides, kind, mods).value.1;
        }
      }
  }

  /** An expression without dice terms. */
  predicate DiceFree(e: Expr) {
    DiceCount(e) == 0
  }

  /** The arithmetic value of a dice-free expression, the reference for
      `_eval_node` on plain numbers: the first failing operand decides the
      error, then division by zero. */
  function Value(e: Expr): Result<real>
    requires DiceFree(e)
  {
    match e
    case Number(n) => Ok(n as real)
    case UnaryOp(x) =>
      (match Value(x) case Ok(v) => Ok(-v) case Err(m) => Err(m))
    case BinaryOp(op, l, r) =>
      (match (Value(l), Value(r))
       case (Err(m), _) => Err(m)
       case (Ok(_), Err(m)) => Err(m)
       case (Ok(x), Ok(y)) => Apply(op, x, y))
  }

  /** The only error plain arithmetic raises is division by zero. */
  lemma {:induction false} ValueFails(e: Expr)
    requires DiceFree(e)
    decreases e
    ensures Value(e).Err? ==> Value(e).error == DiceError("Division by zero")
  {
    match e
    case Number(_) =>
    case UnaryOp(x) =>
      ValueFails(x);
    case BinaryOp(op, l, r) =>
      ValueFails(l);
      ValueFails(r);
  }

  /** A dice-free expression evaluates to its arithmetic value without drawing from
      the source and without adding a trace. */
  lemma {:induction false} DiceFreeEval(src: EntropySource, c: Cursor, e: Expr, acc: seq<DiceTrace>)
    requires DiceFree(e)
    decreases e
    ensures Eval(src, c, e, acc) == Run(Value(e), acc, c)
  {
    match e
    case Number(_) =>
    case UnaryOp(x) =>
      DiceFreeEval(src, c, x, acc);
    case BinaryOp(op, l, r) =>
      DiceFreeEval(src, c, l, acc);
      DiceFreeEval(src, c, r, acc);
  }

  // ---------------------------------------------------------------------------
  // A whole term
  // ---------------------------------------------------------------------------

  /** The lowest and highest face of a die of the term. */
  function Lowest(kind: DieKind): int {
    if kind == Fate then -1 else 1
  }

  function Highest(sides: nat, kind: DieKind): int {
    if kind == Fate then 1 else sides
  }

  lemma {:induction false} FreshSumRange(rs: seq<DieRoll>, sides: nat, kind: DieKind)
    requires FreshFaces(rs, sides, kind)
    decreases |rs|
    ensures |rs| * Lowest(kind) <= DiceSum(rs, kind) <= |rs| * Highest(sides, kind)
  {
    if rs != [] {
      var n := |rs| - 1;
      assert FreshFaces(rs[1..], sides, kind) by {
        forall i | 0 <= i < |rs[1..]|
          ensures rs[1..][i] == rs[i + 1]
        {
        }
      }
      FreshSumRange(rs[1..], sides, kind);
      assert Weight(rs[0], kind) == rs[0].value by {
        assert rs[0].explodes == [] && Sum([]) == 0;
      }
      assert |rs| * Lowest(kind) == n * Lowest(kind) + Lowest(kind);
      assert |rs| * Highest(sides, kind) == n * Highest(sides, kind) + Highest(sides, kind);
    }
  }

  /** `NdS` without modifiers: the term succeeds and its sum lies between `N`
      times the lowest face and `N` times the highest (`N` to `N*S` for a standard
      die, `-N` to `N` for Fate dice). */
  lemma PlainTermRange(src: EntropySource, c: Cursor, count: nat, sides: nat, kind: DieKind)
    requires ValidDie(sides, kind)
    ensures var t := DiceTerm(src, c, count, sides, kind, NoModifiers);
      && t.result.Ok?
      && count * Lowest(kind) <= t.result.value.0 <= count * Highest(sides, kind)
      && t.result.value.1.sum == Some(t.result.value.0)
  {
    RollAllFresh(src, c, count, sides, kind);
    assert FreshRolls(RollAll(src, c, count, sides, kind), count, sides, kind);
    var rs := RollAll(src, c, count, sides, kind).result.value;
    assert Rolled(src, c, count, sides, kind, NoModifiers).result == Ok(rs);
    PlainSumIsDiceSum(rs, kind);
    FreshSumRange(rs, sides, kind);
  }

  // ---------------------------------------------------------------------------
  // The term string of a trace
  // ---------------------------------------------------------------------------

  /** A run of `n` digits ending the text or followed by a non-digit is the whole
      run `\d+` takes. */
  lemma {:induction false} DigitRunIs(text: string, i: nat, n: nat)
    requires i + n <= |text|
    requires forall k :: i <= k < i + n ==> IsDigit(text[k])
    requires i + n < |text| ==> !IsDigit(text[i + n])
    decreases n
    ensures Lexer.DigitRun(text, i) == n
  {
    if n > 0 {
      DigitRunIs(text, i + 1, n - 1);
    }
  }

  function RerollPart(mods: Modifiers): string {
    match mods.reroll case Some(r) => RerollText(r) case None => ""
  }

  function ExplodePart(mods: Modifiers): string {
    match mods.explode case Some(e) => ExplodeText(e) case None => ""
  }

  function KeepPart(mods: Modifiers): string {
    match mods.keep case Some(k) => KeepText(k.kind) + NatToString(k.count) case None => ""
  }

  /** The text the modifiers add after the die: it is empty or starts with a
      letter or `!`. */
  function ModifierText(mods: Modifiers): (t: string)
    ensures t != [] ==> !IsDigit(t[0])
  {
    RerollPart(mods) + ExplodePart(mods) + KeepPart(mods)
  }

  /** The term string is the count, `d`, the die and then the modifier text. */
  lemma TermStringSplit(count: nat, sides: nat, kind: DieKind, mods: Modifiers)
    ensures TermString(count, sides, kind, mods)
      == NatToString(count) + "d" + SidesText(sides, kind) + ModifierText(mods)
  {
    var a := NatToString(count) + "d" + SidesText(sides, kind);
    assert TermString(count, sides, kind, mods) == a + RerollPart(mods) + ExplodePart(mods) + KeepPart(mods);
    Regroup(a, RerollPart(mods), ExplodePart(mods), KeepPart(mods));
  }

  lemma Regroup(a: string, r: string, e: string, k: string)
    ensures a + r + e + k == a + (r + e + k)
  {
  }

  /** A digit string `w` at `i`, ending the text or followed by a non-digit, is
      what `\d+` takes there. */
  lemma RunOf(t: string, i: nat, w: string)
    requires i + |w| <= |t| && t[i..i + |w|] == w
    requires forall k :: 0 <= k < |w| ==> IsDigit(w[k])
    requires i + |w| < |t| ==> !IsDigit(t[i + |w|])
    ensures Lexer.DigitRun(t, i) == |w|
  {
    forall k | i <= k < i + |w|
      ensures IsDigit(t[k])
    {
      assert t[k] == t[i..i + |w|][k - i];
    }
    DigitRunIs(t, i, |w|);
  }

  /** The count a term string starts with: its leading digits. */
  function ReadCount(t: string): nat {
    var n := Lexer.DigitRun(t, 0);
    assert forall k :: 0 <= k < n ==> IsDigit(t[..n][k]);
    DigitsValue(t[..n])
  }

  /** The kind of die after the count and `d`: digits for a standard die, `%` for
      percentile dice, anything else for Fate dice. */
  function ReadKind(t: string): Option<DieKind> {
    var n := Lexer.DigitRun(t, 0);
    if n + 1 < |t| && t[n] == 'd' then
      Some(if IsDigit(t[n + 1]) then Standard else if t[n + 1] == '%' then Percentile else Fate)
    else None
  }

  /** The sides of a standard die: the digits after the count and `d`. */
  function ReadSides(t: string): nat {
    var n := Lexer.DigitRun(t, 0);
    if n + 1 <= |t| then
      var k := Lexer.DigitRun(t, n + 1);
      var w := t[n + 1..n + 1 + k];
      assert forall j :: 0 <= j < k ==> IsDigit(w[j]);
      DigitsValue(w)
    else 0
  }

  /** The count, the kind of die and, for a standard die, the sides read back from
      the front of the term string. */
  lemma TermStringReadsBack(count: nat, sides: nat, kind: DieKind, mods: Modifiers)
    ensures var t := TermString(count, sides, kind, mods);
      ReadCount(t) == count && ReadKind(t) == Some(kind) && (kind == Standard ==> ReadSides(t) == sides)
  {
    var t := TermString(count, sides, kind, mods);
    var c := NatToString(count);
    var d := SidesText(sides, kind);
    var m := ModifierText(mods);
    TermStringSplit(count, sides, kind, mods);
    Front(t, c, d, m);
    DigitsRoundTrip(count);
    if kind == Standard {
      DigitsRoundTrip(sides);
    }
  }

  /** Reading back `c`, `d`, a die text `d` and a modifier text `m`. */
  lemma Front(t: string, c: string, d: string, m: string)
    requires t == c + "d" + d + m
    requires IsDigits(c) && d != [] && (m != [] ==> !IsDigit(m[0]))
    ensures Lexer.DigitRun(t, 0) == |c| && t[..|c|] == c && t[|c|] == 'd' && |c| + 1 < |t| && t[|c| + 1] == d[0]
    ensures IsDigits(d) ==> Lexer.DigitRun(t, |c| + 1) == |d| && t[|c| + 1..|c| + 1 + |d|] == d
  {
    var rest := "d" + (d + m);
    Regroup(c, "d", d, m);
    RegroupDie(d, m);
    FrontCount(t, c, rest);
    AfterCount(t, |c|, d, m);
    if IsDigits(d) {
      FrontSides(t, |c| + 1, d, m);
    }
  }

  lemma RegroupDie(d: string, m: string)
    ensures "d" + d + m == "d" + (d + m)
  {
  }

  /** What follows `d` after the count. */
  lemma AfterCount(t: string, i: nat, d: string, m: string)
    requires i <= |t| && t[i..] == "d" + (d + m) && d != []
    ensures t[i] == 'd' && i + 1 < |t| && t[i + 1] == d[0] && t[i + 1..] == d + m
  {
    assert t[i + 1..] == t[i..][1..];
  }

  /** The leading digits of `c + rest`, with `rest` starting with a non-digit, are
      `c`. */
  lemma FrontCount(t: string, c: string, rest: string)
    requires t == c + rest && IsDigits(c) && rest != [] && !IsDigit(rest[0])
    ensures Lexer.DigitRun(t, 0) == |c| && t[..|c|] == c && t[|c|..] == rest
  {
    assert t[..|c|] == c;
    assert t[|c|] == rest[0];
    RunOf(t, 0, c);
  }

  /** The digits `d` at `i`, followed by a text that does not start with a digit,
      are the whole run there. */
  lemma FrontSides(t: string, i: nat, d: string, m: string)
    requires i <= |t| && t[i..] == d + m && IsDigits(d) && (m != [] ==> !IsDigit(m[0]))
    ensures Lexer.DigitRun(t, i) == |d| && t[i..i + |d|] == d
  {
    assert t[i..i + |d|] == (d + m)[..|d|] == d;
    if i + |d| < |t| {
      assert t[i + |d|] == (d + m)[|d|] == m[0];
    }
    RunOf(t, i, d);
  }

  /** Different counts, or different kinds of die, or different sides of a standard
      die, never print the same term string. */
  lemma TermStringInjective(c1: nat, s1: nat, k1: DieKind, m1: Modifiers, c2: nat, s2: nat, k2: DieKind, m2: Modifiers)
    requires TermString(c1, s1, k1, m1) == TermString(c2, s2, k2, m2)
    ensures c1 == c2 && k1 == k2 && (k1 == Standard ==> s1 == s2)
  {
    TermStringReadsBack(c1, s1, k1, m1);
    TermStringReadsBack(c2, s2, k2, m2);
  }

  /** A `'max'` explosion is shown with its resolved condition, the die's sides or 1
      for a Fate die, right after its `!`, `!!` or `!p` and before any keep/drop
      text; without resolution the condition would not be printed at all. */
  lemma ShownMaxTerm(count: nat, sides: nat, kind: DieKind, mods: Modifiers, e: Explode)
    requires mods.explode == Some(e) && e.threshold == Max
    ensures TermString(count, sides, kind, Shown(mods, sides, kind))
      == TermString(count, sides, kind, mods.(keep := None)) + FormatCondition(Resolve(e, sides, kind)) + KeepPart(mods)
    ensures FormatCondition(Resolve(e, sides, kind))
      == (if e.op == Eq then "" else OpText(e.op)) + NatToString(if kind == Fate then 1 else sides)
  {
    var f := FormatCondition(Resolve(e, sides, kind));
    var shown := Shown(mods, sides, kind);
    var bare := mods.(keep := None);
    var front := NatToString(count) + "d" + SidesText(sides, kind);
    ShownExplodeText(e, sides, kind);
    assert RerollPart(shown) == RerollPart(bare) == RerollPart(mods);
    assert ExplodePart(shown) == ExplodePart(mods) + f;
    assert KeepPart(shown) == KeepPart(mods) && KeepPart(bare) == "";
    TermStringSplit(count, sides, kind, shown);
    TermStringSplit(count, sides, kind, bare);
    InsertAfter(front, RerollPart(mods), ExplodePart(mods), f, KeepPart(mods));
  }

  /** Resolving `'max'` adds the resolved condition to the explosion text. */
  lemma ShownExplodeText(e: Explode, sides: nat, kind: DieKind)
    requires e.threshold == Max
    ensures ExplodeText(e.(threshold := Num(Resolve(e, sides, kind).value)))
      == ExplodeText(e) + FormatCondition(Resolve(e, sides, kind))
  {
    var marks := "!" + (if e.compound then "!" else "") + (if e.penetrating then "p" else "");
    var c := Resolve(e, sides, kind);
    assert Comparison(e.op, c.value) == c;
    assert ExplodeText(e.(threshold := Num(c.value))) == marks + FormatCondition(c);
    assert ExplodeText(e) == marks + "";
    assert marks + "" == marks;
  }

  lemma InsertAfter(a: string, r: string, x: string, f: string, k: string)
    ensures a + (r + (x + f) + k) == a + (r + x + "") + f + k
  {
  }

  /** `3d6!`: the trace shows the resolved `'max'` threshold as `>=6`. */
  lemma ExplodeMaxShown(mods: Modifiers)
    requires mods == NoModifiers.(explode := Some(Explode(false, false, Ge, Max)))
    ensures TermString(3, 6, Standard, Shown(mods, 6, Standard)) == "3d6!>=6"
  {
  }
}
