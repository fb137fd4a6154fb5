/** How `parse_expression` and `parse_term` group operators: a term is its factors
    joined by `*` and `/` from the left, an expression is its terms joined by `+`
    and `-` from the left. So `*` and `/` bind tighter than `+` and `-`, and each
    level associates to the left. */
module Grouping {
  import opened DiceTypes
  import opened Lexer
  import opened ParserSpec
  import ParserProps

  /** An operator and the operand that follows it. */
  datatype Link = Link(op: BinOp, operand: Expr)

  /** `first op_1 x_1 op_2 x_2 …` grouped to the left:
      `((first op_1 x_1) op_2 x_2) …`. */
  function FoldLeft(first: Expr, links: seq<Link>): Expr
    decreases |links|
  {
    if links == [] then first else FoldLeft(BinaryOp(links[0].op, first, links[0].operand), links[1..])
  }

  /** From `pos`, the tokens read `op_1 f_1 … op_n f_n`, every `op_i` a `*` or `/`
      and every `f_i` a factor, up to `end`, where no `*` or `/` follows. */
  predicate FactorChain(inp: Input, pos: nat, depth: nat, links: seq<Link>, end: nat)
    requires pos <= |inp.toks|
    decreases |links|
  {
    if links == [] then pos == end && (end < |inp.toks| ==> MulOpOf(TextAt(inp, end)).None?)
    else
      && pos < |inp.toks| && MulOpOf(TextAt(inp, pos)) == Some(links[0].op)
      && var f := ParseFactor(inp, pos + 1, depth);
      && f.Ok? && f.value.value == links[0].operand
      && FactorChain(inp, f.value.next, depth, links[1..], end)
  }

  /** From `pos`, the tokens read `op_1 t_1 … op_n t_n`, every `op_i` a `+` or `-`
      and every `t_i` a term, up to `end`, where no `+` or `-` follows. */
  predicate TermChain(inp: Input, pos: nat, depth: nat, links: seq<Link>, end: nat)
    requires pos <= |inp.toks|
    decreases |links|
  {
    if links == [] then pos == end && (end < |inp.toks| ==> AddOpOf(TextAt(inp, end)).None?)
    else
      && pos < |inp.toks| && AddOpOf(TextAt(inp, pos)) == Some(links[0].op)
      && var t := ParseTerm(inp, pos + 1, depth);
      && t.Ok? && t.value.value == links[0].operand
      && TermChain(inp, t.value.next, depth, links[1..], end)
  }

  /** The loop of `parse_term` folds a chain of factors to the left. */
  lemma {:induction false} TermTailFolds(inp: Input, left: Expr, pos: nat, depth: nat, links: seq<Link>, end: nat)
    requires pos <= |inp.toks| && FactorChain(inp, pos, depth, links, end)
    decreases |links|
    ensures TermTail(inp, left, pos, depth) == Ok(Parsed(FoldLeft(left, links), end))
  {
    if links != [] {
      var f := ParseFactor(inp, pos + 1, depth);
      TermTailFolds(inp, BinaryOp(links[0].op, left, links[0].operand), f.value.next, depth, links[1..], end);
    }
  }

  /** Conversely, whatever the loop of `parse_term` reads is such a fold. */
  lemma {:induction false} TermTailShape(inp: Input, left: Expr, pos: nat, depth: nat)
    requires pos <= |inp.toks| && TermTail(inp, left, pos, depth).Ok?
    decreases |inp.toks| - pos
    ensures var r := TermTail(inp, left, pos, depth).value;
      exists links :: FactorChain(inp, pos, depth, links, r.next) && r.value == FoldLeft(left, links)
  {
    var r := TermTail(inp, left, pos, depth).value;
    if pos < |inp.toks| && MulOpOf(TextAt(inp, pos)).Some? {
      var op := MulOpOf(TextAt(inp, pos)).value;
      var f := ParseFactor(inp, pos + 1, depth).value;
      var next := BinaryOp(op, left, f.value);
      TermTailShape(inp, next, f.next, depth);
      var rest :| FactorChain(inp, f.next, depth, rest, r.next) && r.value == FoldLeft(next, rest);
      var links := [Link(op, f.value)] + rest;
      assert links[1..] == rest;
      assert FactorChain(inp, pos, depth, links, r.next);
    } else {
      assert FactorChain(inp, pos, depth, [], r.next);
    }
  }

  /** The loop of `parse_expression` folds a chain of terms to the left. */
  lemma {:induction false} ExprTailFolds(inp: Input, left: Expr, pos: nat, depth: nat, links: seq<Link>, end: nat)
    requires pos <= |inp.toks| && TermChain(inp, pos, depth, links, end)
    decreases |links|
    ensures ExprTail(inp, left, pos, depth) == Ok(Parsed(FoldLeft(left, links), end))
  {
    if links != [] {
      var t := ParseTerm(inp, pos + 1, depth);
      ExprTailFolds(inp, BinaryOp(links[0].op, left, links[0].operand), t.value.next, depth, links[1..], end);
    }
  }

  /** Conversely, whatever the loop of `parse_expression` reads is such a fold. */
  lemma {:induction false} ExprTailShape(inp: Input, left: Expr, pos: nat, depth: nat)
    requires pos <= |inp.toks| && ExprTail(inp, left, pos, depth).Ok?
    decreases |inp.toks| - pos
    ensures var r := ExprTail(inp, left, pos, depth).value;
      exists links :: TermChain(inp, pos, depth, links, r.next) && r.value == FoldLeft(left, links)
  {
    var r := ExprTail(inp, left, pos, depth).value;
    if pos < |inp.toks| && AddOpOf(TextAt(inp, pos)).Some? {
      var op := AddOpOf(TextAt(inp, pos)).value;
      var t := ParseTerm(inp, pos + 1, depth).value;
      var next := BinaryOp(op, left, t.value);
      ExprTailShape(inp, next, t.next, depth);
      var rest :| TermChain(inp, t.next, depth, rest, r.next) && r.value == FoldLeft(next, rest);
      var links := [Link(op, t.value)] + rest;
      assert links[1..] == rest;
      assert TermChain(inp, pos, depth, links, r.next);
    } else {
      assert TermChain(inp, pos, depth, [], r.next);
    }
  }

  /** Whether the token at `p`, if any, is none of the four operators. */
  predicate NoOperatorAt(inp: Input, p: nat) {
    p < |inp.toks| ==> MulOpOf(TextAt(inp, p)).None? && AddOpOf(TextAt(inp, p)).None?
  }

  predicate Additive(op: BinOp) {
    op == Add || op == Sub
  }

  predicate Multiplicative(op: BinOp) {
    op == Mul || op == Div
  }

  /** A factor followed by no `*` or `/` is a whole term. */
  lemma LoneFactor(inp: Input, pos: nat, depth: nat, a: Expr, end: nat)
    requires pos <= |inp.toks|
    requires ParseFactor(inp, pos, depth) == Ok(Parsed(a, end))
    requires end < |inp.toks| ==> MulOpOf(TextAt(inp, end)).None?
    ensures ParseTerm(inp, pos, depth) == Ok(Parsed(a, end))
  {
    TermTailFolds(inp, a, end, depth, [], end);
  }

  /** A term goes on with the loop of `parse_term` right after its first factor. */
  lemma TermFromFactor(inp: Input, pos: nat, depth: nat, a: Expr, p1: nat)
    requires pos <= |inp.toks| && ParseFactor(inp, pos, depth) == Ok(Parsed(a, p1))
    ensures p1 <= |inp.toks| && ParseTerm(inp, pos, depth) == TermTail(inp, a, p1, depth)
  {
  }

  /** An expression goes on with the loop of `parse_expression` right after its
      first term. */
  lemma ExprFromTerm(inp: Input, pos: nat, depth: nat, a: Expr, p1: nat)
    requires pos <= |inp.toks| && ParseTerm(inp, pos, depth) == Ok(Parsed(a, p1))
    ensures p1 <= |inp.toks| && ParseExpr(inp, pos, depth) == ExprTail(inp, a, p1, depth)
  {
  }

  /** One round of the loop of `parse_term`: a multiplicative operator and the
      factor after it extend the left operand. */
  lemma ProductStep(inp: Input, left: Expr, p: nat, depth: nat, op: BinOp, f: Expr, q: nat)
    requires Multiplicative(op) && p < |inp.toks| && TextAt(inp, p) == ParserProps.OpSymbol(op)
    requires ParseFactor(inp, p + 1, depth) == Ok(Parsed(f, q))
    ensures q <= |inp.toks| && TermTail(inp, left, p, depth) == TermTail(inp, BinaryOp(op, left, f), q, depth)
  {
  }

  /** `b * c` with no `*` or `/` after it is a whole term. */
  lemma ProductTerm(inp: Input, pos: nat, depth: nat, mul: BinOp, b: Expr, c: Expr, p2: nat, end: nat)
    requires Multiplicative(mul)
    requires pos <= |inp.toks| && ParseFactor(inp, pos, depth) == Ok(Parsed(b, p2))
    requires p2 < |inp.toks| && TextAt(inp, p2) == ParserProps.OpSymbol(mul)
    requires ParseFactor(inp, p2 + 1, depth) == Ok(Parsed(c, end))
    requires end < |inp.toks| ==> MulOpOf(TextAt(inp, end)).None?
    ensures ParseTerm(inp, pos, depth) == Ok(Parsed(BinaryOp(mul, b, c), end))
  {
    TermFromFactor(inp, pos, depth, b, p2);
    ProductStep(inp, b, p2, depth, mul, c, end);
    TermTailFolds(inp, BinaryOp(mul, b, c), end, depth, [], end);
  }

  /** One round of the loop of `parse_expression`: an additive operator and the
      term after it extend the left operand. */
  lemma SumStep(inp: Input, left: Expr, p: nat, depth: nat, op: BinOp, t: Expr, q: nat)
    requires Additive(op) && p < |inp.toks| && TextAt(inp, p) == ParserProps.OpSymbol(op)
    requires ParseTerm(inp, p + 1, depth) == Ok(Parsed(t, q))
    ensures ExprTail(inp, left, p, depth) == ExprTail(inp, BinaryOp(op, left, t), q, depth)
  {
  }

  /** An expression whose first factor no `*` or `/` follows goes on with the
      loop of `parse_expression` right after that factor. */
  lemma ExprFromFactor(inp: Input, pos: nat, depth: nat, a: Expr, p1: nat)
    requires pos <= |inp.toks| && ParseFactor(inp, pos, depth) == Ok(Parsed(a, p1))
    requires p1 < |inp.toks| ==> MulOpOf(TextAt(inp, p1)).None?
    ensures p1 <= |inp.toks| && ParseExpr(inp, pos, depth) == ExprTail(inp, a, p1, depth)
  {
    LoneFactor(inp, pos, depth, a, p1);
  }

  /** A round of that loop whose term is a lone factor. */
  lemma SumOfFactor(inp: Input, left: Expr, p: nat, depth: nat, op: BinOp, t: Expr, q: nat)
    requires Additive(op) && p < |inp.toks| && TextAt(inp, p) == ParserProps.OpSymbol(op)
    requires ParseFactor(inp, p + 1, depth) == Ok(Parsed(t, q))
    requires q < |inp.toks| ==> MulOpOf(TextAt(inp, q)).None?
    ensures q <= |inp.toks| && ExprTail(inp, left, p, depth) == ExprTail(inp, BinaryOp(op, left, t), q, depth)
  {
    LoneFactor(inp, p + 1, depth, t, q);
    assert q <= |inp.toks| && ParseTerm(inp, p + 1, depth) == Ok(Parsed(t, q));
    SumStep(inp, left, p, depth, op, t, q);
  }

  /** `a + b * c` (either additive and either multiplicative operator): the
      product is read first and becomes the right operand of the sum. */
  lemma ProductInSum(inp: Input, pos: nat, depth: nat, add: BinOp, mul: BinOp, a: Expr, b: Expr, c: Expr,
                     p1: nat, p2: nat, end: nat)
    requires Additive(add) && Multiplicative(mul)
    requires pos <= |inp.toks| && ParseFactor(inp, pos, depth) == Ok(Parsed(a, p1))
    requires p1 < |inp.toks| && TextAt(inp, p1) == ParserProps.OpSymbol(add)
    requires ParseFactor(inp, p1 + 1, depth) == Ok(Parsed(b, p2))
    requires p2 < |inp.toks| && TextAt(inp, p2) == ParserProps.OpSymbol(mul)
    requires ParseFactor(inp, p2 + 1, depth) == Ok(Parsed(c, end))
    requires NoOperatorAt(inp, end)
    ensures ParseExpr(inp, pos, depth) == Ok(Parsed(BinaryOp(add, a, BinaryOp(mul, b, c)), end))
  {
    ExprFromFactor(inp, pos, depth, a, p1);
    SumOfProduct(inp, a, p1, depth, add, mul, b, c, p2, end);
  }

  /** A last round of the loop of `parse_expression` whose term is `b * c`. */
  lemma SumOfProduct(inp: Input, left: Expr, p: nat, depth: nat, add: BinOp, mul: BinOp, b: Expr, c: Expr,
                     p2: nat, end: nat)
    requires Additive(add) && Multiplicative(mul)
    requires p < |inp.toks| && TextAt(inp, p) == ParserProps.OpSymbol(add)
    requires ParseFactor(inp, p + 1, depth) == Ok(Parsed(b, p2))
    requires p2 < |inp.toks| && TextAt(inp, p2) == ParserProps.OpSymbol(mul)
    requires ParseFactor(inp, p2 + 1, depth) == Ok(Parsed(c, end))
    requires NoOperatorAt(inp, end)
    ensures ExprTail(inp, left, p, depth) == Ok(Parsed(BinaryOp(add, left, BinaryOp(mul, b, c)), end))
  {
    ProductTerm(inp, p + 1, depth, mul, b, c, p2, end);
    LastSum(inp, left, p, depth, add, BinaryOp(mul, b, c), end);
  }

  /** A last round of the loop of `parse_expression`, with no operator after its
      term, ends the expression. */
  lemma LastSum(inp: Input, left: Expr, p: nat, depth: nat, op: BinOp, t: Expr, end: nat)
    requires Additive(op) && p < |inp.toks| && TextAt(inp, p) == ParserProps.OpSymbol(op)
    requires ParseTerm(inp, p + 1, depth) == Ok(Parsed(t, end))
    requires NoOperatorAt(inp, end)
    ensures ExprTail(inp, left, p, depth) == Ok(Parsed(BinaryOp(op, left, t), end))
  {
    SumStep(inp, left, p, depth, op, t, end);
    ExprTailFolds(inp, BinaryOp(op, left, t), end, depth, [], end);
  }

  /** `a * b + c`: the product is read first and becomes the left operand of the
      sum. */
  lemma ProductThenSum(inp: Input, pos: nat, depth: nat, mul: BinOp, add: BinOp, a: Expr, b: Expr, c: Expr,
                       p1: nat, p2: nat, end: nat)
    requires Multiplicative(mul) && Additive(add)
    requires pos <= |inp.toks| && ParseFactor(inp, pos, depth) == Ok(Parsed(a, p1))
    requires p1 < |inp.toks| && TextAt(inp, p1) == ParserProps.OpSymbol(mul)
    requires ParseFactor(inp, p1 + 1, depth) == Ok(Parsed(b, p2))
    requires p2 < |inp.toks| && TextAt(inp, p2) == ParserProps.OpSymbol(add)
    requires ParseFactor(inp, p2 + 1, depth) == Ok(Parsed(c, end))
    requires NoOperatorAt(inp, end)
    ensures ParseExpr(inp, pos, depth) == Ok(Parsed(BinaryOp(add, BinaryOp(mul, a, b), c), end))
  {
    TermFromFactor(inp, pos, depth, a, p1);
    ProductStep(inp, a, p1, depth, mul, b, p2);
    TermTailFolds(inp, BinaryOp(mul, a, b), p2, depth, [], p2);
    ExprFromTerm(inp, pos, depth, BinaryOp(mul, a, b), p2);
    SumOfFactor(inp, BinaryOp(mul, a, b), p2, depth, add, c, end);
    ExprTailFolds(inp, BinaryOp(add, BinaryOp(mul, a, b), c), end, depth, [], end);
  }

  /** `a - b - c` and any other two additive operators group to the left. */
  lemma SumsGroupLeft(inp: Input, pos: nat, depth: nat, op1: BinOp, op2: BinOp, a: Expr, b: Expr, c: Expr,
                      p1: nat, p2: nat, end: nat)
    requires Additive(op1) && Additive(op2)
    requires pos <= |inp.toks| && ParseFactor(inp, pos, depth) == Ok(Parsed(a, p1))
    requires p1 < |inp.toks| && TextAt(inp, p1) == ParserProps.OpSymbol(op1)
    requires ParseFactor(inp, p1 + 1, depth) == Ok(Parsed(b, p2))
    requires p2 < |inp.toks| && TextAt(inp, p2) == ParserProps.OpSymbol(op2)
    requires ParseFactor(inp, p2 + 1, depth) == Ok(Parsed(c, end))
    requires NoOperatorAt(inp, end)
    ensures ParseExpr(inp, pos, depth) == Ok(Parsed(BinaryOp(op2, BinaryOp(op1, a, b), c), end))
  {
    ExprFromFactor(inp, pos, depth, a, p1);
    SumOfFactor(inp, a, p1, depth, op1, b, p2);
    SumOfFactor(inp, BinaryOp(op1, a, b), p2, depth, op2, c, end);
    ExprTailFolds(inp, BinaryOp(op2, BinaryOp(op1, a, b), c), end, depth, [], end);
  }

  /** `a / b / c` and any other two multiplicative operators group to the left. */
  lemma ProductsGroupLeft(inp: Input, pos: nat, depth: nat, op1: BinOp, op2: BinOp, a: Expr, b: Expr, c: Expr,
                          p1: nat, p2: nat, end: nat)
    requires Multiplicative(op1) && Multiplicative(op2)
    requires pos <= |inp.toks| && ParseFactor(inp, pos, depth) == Ok(Parsed(a, p1))
    requires p1 < |inp.toks| && TextAt(inp, p1) == ParserProps.OpSymbol(op1)
    requires ParseFactor(inp, p1 + 1, depth) == Ok(Parsed(b, p2))
    requires p2 < |inp.toks| && TextAt(inp, p2) == ParserProps.OpSymbol(op2)
    requires ParseFactor(inp, p2 + 1, depth) == Ok(Parsed(c, end))
    requires NoOperatorAt(inp, end)
    ensures ParseExpr(inp, pos, depth) == Ok(Parsed(BinaryOp(op2, BinaryOp(op1, a, b), c), end))
  {
    var tail := [Link(op1, b), Link(op2, c)];
    assert FactorChain(inp, p1, depth, tail, end) by {
      assert tail[1..][1..] == [];
      assert FactorChain(inp, end, depth, tail[1..][1..], end);
      assert FactorChain(inp, p2, depth, tail[1..], end);
    }
    TermTailFolds(inp, a, p1, depth, tail, end);
    assert FoldLeft(a, tail) == FoldLeft(BinaryOp(op1, a, b), tail[1..]);
    assert FoldLeft(BinaryOp(op1, a, b), tail[1..]) == BinaryOp(op2, BinaryOp(op1, a, b), c);
    var whole := BinaryOp(op2, BinaryOp(op1, a, b), c);
    assert ParseTerm(inp, pos, depth) == Ok(Parsed(whole, end));
    ExprTailFolds(inp, whole, end, depth, [], end);
  }
}
