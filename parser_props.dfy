/** Properties of the grammar: what a parse error points at, the limit on nested
    parentheses, and a round trip from arithmetic expressions to tokens and back. */
module ParserProps {
  import opened DiceTypes
  import opened Lexer
  import opened ParserSpec

  /** `invalid` holds no token, so it is an empty expression. */
  lemma InvalidIsEmpty(s: string)
    requires s == "invalid"
    ensures Parse(s) == Err(ParseError("Empty expression", 0, s))
  {
    StripUnspaced(s);
    InvalidHasNoTokens(s);
  }

  /** A lone `dh` is a keep/drop token where a term starts: it is read as a die
      and its sides `h` are invalid. */
  lemma DropHighAlone(s: string)
    requires s == "dh"
    ensures Parse(s) == Err(ParseError("Invalid dice sides 'h'", 0, s))
  {
    StripUnspaced(s);
    DropHighToken(s);
    var inp := Tokens(s);
    DropHighPrimary(inp);
    assert ParseFactor(inp, 0, 0) == ParsePrimary(inp, 0);
  }

  lemma DropHighPrimary(inp: Input)
    requires inp == Input([Token("dh", 0)], "dh")
    ensures ParsePrimary(inp, 0) == Err(ParseError("Invalid dice sides 'h'", 0, "dh"))
  {
    assert DiceAhead(inp, 0);
  }

  lemma DropHighToken(s: string)
    requires s == "dh"
    ensures Scan(s, 0) == [Token("dh", 0)]
  {
    assert LowerChar(s[0]) == 'd' && LowerAt(s, 1, "hl") && !LowerAt(s, 1, "%f") && !IsDigit(s[0]);
    assert MatchAt(s, 0) == Some(Lexeme(2, false));
    assert s[0..2] == "dh";
  }

  /** Every parse error of `parse` carries the stripped input and an offset within
      it. */
  lemma ParseErrorWithinInput(expression: string)
    ensures var r := Parse(expression);
      r.Err? && r.error.ParseError? ==>
        r.error.input == Strip(expression) && r.error.position <= |Strip(expression)|
  {
    var inp := Tokens(expression);
    ScanWellFormed(inp.text, 0);
    var r := Parse(expression);
    if r.Err? && r.error.ParseError? && |inp.toks| > 0 && r.error.position != |inp.text| {
      var k :| 0 <= k < |inp.toks| && inp.toks[k].pos == r.error.position;
      assert InText(inp.text, inp.toks[k]);
    }
  }

  /** The token texts from `pos` on begin with `texts`. */
  predicate TextsAt(inp: Input, pos: nat, texts: seq<string>)
    decreases |texts|
  {
    texts == [] || (pos < |inp.toks| && inp.toks[pos].text == texts[0] && TextsAt(inp, pos + 1, texts[1..]))
  }

  /** The `n` tokens from `pos` on are all `(`. */
  predicate OpensAt(inp: Input, pos: nat, n: nat) {
    pos + n <= |inp.toks| && forall k :: pos <= k < pos + n ==> inp.toks[k].text == "("
  }

  /** Nesting `(` deeper than `MAX_RECURSION` is refused with a `LimitError`, however
      the expression continues. */
  lemma {:induction false} TooDeep(inp: Input, pos: nat, depth: nat)
    requires depth <= MAX_RECURSION
    requires OpensAt(inp, pos, MAX_RECURSION + 1 - depth)
    decreases MAX_RECURSION - depth
    ensures ParseFactor(inp, pos, depth) == Err(LimitError("Exceeded maximum recursion depth of 32"))
  {
    assert TextAt(inp, pos) == "(";
    if depth < MAX_RECURSION {
      TooDeep(inp, pos + 1, depth + 1);
      assert ParseTerm(inp, pos + 1, depth + 1).Err?;
    }
  }

  /** Thirty-three opening parentheses are one level too many. */
  lemma TooDeepExpression(inp: Input)
    requires OpensAt(inp, 0, MAX_RECURSION + 1)
    ensures ParseTop(inp) == Err(LimitError("Exceeded maximum recursion depth of 32"))
  {
    TooDeep(inp, 0, 0);
    assert ParseTerm(inp, 0, 0).Err?;
  }

  /** Expressions built from numbers, negation and the four operators. */
  predicate Arithmetic(e: Expr) {
    match e
    case Number(_) => true
    case UnaryOp(x) => Arithmetic(x)
    case BinaryOp(_, l, r) => Arithmetic(l) && Arithmetic(r)
    case Dice(_, _, _, _) => false
  }

  function OpSymbol(op: BinOp): string {
    match op
    case Add => "+"
    case Sub => "-"
    case Mul => "*"
    case Div => "/"
  }

  /** Tokens for an arithmetic expression, every binary operation parenthesised
      (a dice term, outside the arithmetic fragment, spells nothing). */
  function Emit(e: Expr): seq<string> {
    match e
    case Number(n) => [NatToString(n)]
    case UnaryOp(x) => ["-"] + Emit(x)
    case BinaryOp(op, l, r) => ["("] + Emit(l) + [OpSymbol(op)] + Emit(r) + [")"]
    case Dice(_, _, _, _) => []
  }

  lemma EmitNonEmpty(e: Expr)
    requires Arithmetic(e)
    ensures |Emit(e)| > 0
  {
  }

  /** Parentheses nested in `Emit(e)`. */
  function Nesting(e: Expr): nat {
    match e
    case Number(_) => 0
    case UnaryOp(x) => Nesting(x)
    case BinaryOp(_, l, r) => 1 + (if Nesting(l) < Nesting(r) then Nesting(r) else Nesting(l))
    case Dice(_, _, _, _) => 0
  }

  /** The token at `p`, if any, does not start a die. */
  predicate NoDieAt(inp: Input, p: nat) {
    p < |inp.toks| ==> !StartsWithD(inp.toks[p].text)
  }

  lemma {:induction false} TextsAtSplit(inp: Input, pos: nat, a: seq<string>, b: seq<string>)
    requires TextsAt(inp, pos, a + b)
    decreases |a|
    ensures TextsAt(inp, pos, a) && TextsAt(inp, pos + |a|, b)
  {
    if a != [] {
      assert (a + b)[1..] == a[1..] + b;
      TextsAtSplit(inp, pos + 1, a[1..], b);
    } else {
      assert a + b == b;
    }
  }

  lemma {:induction false} TextsAtIndex(inp: Input, pos: nat, texts: seq<string>, k: nat)
    requires TextsAt(inp, pos, texts) && k < |texts|
    decreases |texts|
    ensures pos + |texts| <= |inp.toks|
    ensures TextAt(inp, pos + k) == texts[k]
  {
    if k > 0 {
      TextsAtIndex(inp, pos + 1, texts[1..], k - 1);
    } else if |texts| > 1 {
      TextsAtIndex(inp, pos + 1, texts[1..], |texts| - 2);
    }
  }

  /** `l * r` or `l / r` between the parentheses of a factor. */
  lemma MulInside(inp: Input, pos: nat, depth: nat, op: BinOp, l: Expr, r: Expr, p1: nat, p2: nat)
    requires op == Mul || op == Div
    requires pos < p1 < p2 < |inp.toks|
    requires ParseFactor(inp, pos, depth) == Ok(Parsed(l, p1))
    requires TextAt(inp, p1) == OpSymbol(op) && TextAt(inp, p2) == ")"
    requires ParseFactor(inp, p1 + 1, depth) == Ok(Parsed(r, p2))
    ensures ParseExpr(inp, pos, depth) == Ok(Parsed(BinaryOp(op, l, r), p2))
  {
    var b := BinaryOp(op, l, r);
    assert TermTail(inp, b, p2, depth) == Ok(Parsed(b, p2));
    assert TermTail(inp, l, p1, depth) == Ok(Parsed(b, p2));
    assert ExprTail(inp, b, p2, depth) == Ok(Parsed(b, p2));
  }

  /** `l + r` or `l - r` between the parentheses of a factor. */
  lemma AddInside(inp: Input, pos: nat, depth: nat, op: BinOp, l: Expr, r: Expr, p1: nat, p2: nat)
    requires op == Add || op == Sub
    requires pos < p1 < p2 < |inp.toks|
    requires ParseFactor(inp, pos, depth) == Ok(Parsed(l, p1))
    requires TextAt(inp, p1) == OpSymbol(op) && TextAt(inp, p2) == ")"
    requires ParseFactor(inp, p1 + 1, depth) == Ok(Parsed(r, p2))
    ensures ParseExpr(inp, pos, depth) == Ok(Parsed(BinaryOp(op, l, r), p2))
  {
    var b := BinaryOp(op, l, r);
    assert TermTail(inp, r, p2, depth) == Ok(Parsed(r, p2));
    assert ParseTerm(inp, p1 + 1, depth) == Ok(Parsed(r, p2));
    assert ExprTail(inp, b, p2, depth) == Ok(Parsed(b, p2));
    assert ExprTail(inp, l, p1, depth) == Ok(Parsed(b, p2));
    assert TermTail(inp, l, p1, depth) == Ok(Parsed(l, p1));
  }

  /** The tokens from `pos` spell the arithmetic expression `e`, which ends at
      `next` and fits in the parentheses left at `depth`. */
  predicate Spells(inp: Input, pos: nat, depth: nat, e: Expr, next: nat) {
    && Arithmetic(e) && depth + Nesting(e) <= MAX_RECURSION
    && next == pos + |Emit(e)|
    && TextsAt(inp, pos, Emit(e)) && NoDieAt(inp, next)
  }

  /** Reading the tokens of `e` back as a factor yields `e`, and stops right after
      them, as long as the parentheses stay within the limit. */
  lemma {:induction false} FactorRoundTrip(inp: Input, pos: nat, depth: nat, e: Expr, next: nat)
    requires Spells(inp, pos, depth, e, next)
    decreases e, 2
    ensures ParseFactor(inp, pos, depth) == Ok(Parsed(e, next))
  {
    match e
    case Number(n) =>
      NumberFactor(inp, pos, depth, n);
    case UnaryOp(x) =>
      NegationLayout(inp, pos, depth, x, next);
      FactorRoundTrip(inp, pos + 1, depth, x, next);
      NegationFactor(inp, pos, depth, x, next);
    case BinaryOp(op, l, r) =>
      var p1 := pos + 1 + |Emit(l)|;
      var p2 := p1 + 1 + |Emit(r)|;
      BinaryLayout(inp, pos, depth, op, l, r, p1, p2, next);
      ParenRoundTrip(inp, pos, depth, op, l, r, p1, p2);
  }

  /** `(l op r)` read back from `pos`, its operator at `p1`, its `)` at `p2`. */
  lemma {:induction false} ParenRoundTrip(inp: Input, pos: nat, depth: nat, op: BinOp, l: Expr, r: Expr,
                                          p1: nat, p2: nat)
    requires Spells(inp, pos + 1, depth + 1, l, p1) && Spells(inp, p1 + 1, depth + 1, r, p2)
    requires Bracket(inp, pos, op, p1, p2)
    decreases BinaryOp(op, l, r), 1
    ensures ParseFactor(inp, pos, depth) == Ok(Parsed(BinaryOp(op, l, r), p2 + 1))
  {
    FactorRoundTrip(inp, pos + 1, depth + 1, l, p1);
    ParenRight(inp, pos, depth, op, l, r, p1, p2);
    ParenFactor(inp, pos, depth, BinaryOp(op, l, r), p2);
  }

  /** The right operand, once the left one is read, completes the expression inside
      the parentheses. */
  lemma {:induction false} ParenRight(inp: Input, pos: nat, depth: nat, op: BinOp, l: Expr, r: Expr,
                                      p1: nat, p2: nat)
    requires Spells(inp, p1 + 1, depth + 1, r, p2) && Bracket(inp, pos, op, p1, p2) && depth < MAX_RECURSION
    requires ParseFactor(inp, pos + 1, depth + 1) == Ok(Parsed(l, p1))
    decreases BinaryOp(op, l, r), 0
    ensures ParseExpr(inp, pos + 1, depth + 1) == Ok(Parsed(BinaryOp(op, l, r), p2))
  {
    FactorRoundTrip(inp, p1 + 1, depth + 1, r, p2);
    Inside(inp, pos + 1, depth + 1, op, l, r, p1, p2);
  }

  /** `(` at `pos`, the operator at `p1`, `)` at `p2`, in this order. */
  predicate Bracket(inp: Input, pos: nat, op: BinOp, p1: nat, p2: nat) {
    && pos < p1 < p2 < |inp.toks|
    && TextAt(inp, pos) == "(" && TextAt(inp, p1) == OpSymbol(op) && TextAt(inp, p2) == ")"
  }

  lemma NegationLayout(inp: Input, pos: nat, depth: nat, x: Expr, next: nat)
    requires Spells(inp, pos, depth, UnaryOp(x), next)
    ensures pos < |inp.toks| && TextAt(inp, pos) == "-"
    ensures Spells(inp, pos + 1, depth, x, next)
  {
    TextsAtSplit(inp, pos, ["-"], Emit(x));
    TextsAtIndex(inp, pos, ["-"], 0);
  }

  /** The operands of `(l op r)` spell `l` and `r`, each followed by a non-die token. */
  lemma BinaryLayout(inp: Input, pos: nat, depth: nat, op: BinOp, l: Expr, r: Expr, p1: nat, p2: nat,
                     next: nat)
    requires p1 == pos + 1 + |Emit(l)| && p2 == p1 + 1 + |Emit(r)|
    requires Spells(inp, pos, depth, BinaryOp(op, l, r), next)
    ensures Spells(inp, pos + 1, depth + 1, l, p1) && Spells(inp, p1 + 1, depth + 1, r, p2)
    ensures Bracket(inp, pos, op, p1, p2) && next == p2 + 1
  {
    BracketLayout(inp, pos, op, l, r, p1, p2, next);
    OperatorNotDie(op);
    Operand(inp, pos + 1, depth + 1, l, p1);
    assert !StartsWithD(")");
    Operand(inp, p1 + 1, depth + 1, r, p2);
  }

  lemma BracketLayout(inp: Input, pos: nat, op: BinOp, l: Expr, r: Expr, p1: nat, p2: nat, next: nat)
    requires p1 == pos + 1 + |Emit(l)| && p2 == p1 + 1 + |Emit(r)|
    requires next == pos + |Emit(BinaryOp(op, l, r))| && TextsAt(inp, pos, Emit(BinaryOp(op, l, r)))
    ensures Bracket(inp, pos, op, p1, p2) && next == p2 + 1
    ensures TextsAt(inp, pos + 1, Emit(l)) && TextsAt(inp, p1 + 1, Emit(r))
  {
    BracketTexts(inp, pos, Emit(l), OpSymbol(op), Emit(r));
  }

  lemma Operand(inp: Input, pos: nat, depth: nat, x: Expr, next: nat)
    requires Arithmetic(x) && depth + Nesting(x) <= MAX_RECURSION
    requires next == pos + |Emit(x)| && TextsAt(inp, pos, Emit(x))
    requires next < |inp.toks| && !StartsWithD(TextAt(inp, next))
    ensures Spells(inp, pos, depth, x, next)
  {
  }

  /** Two factors around any operator, closed by `)`, form one expression. */
  lemma Inside(inp: Input, pos: nat, depth: nat, op: BinOp, l: Expr, r: Expr, p1: nat, p2: nat)
    requires pos < p1 < p2 < |inp.toks|
    requires ParseFactor(inp, pos, depth) == Ok(Parsed(l, p1))
    requires TextAt(inp, p1) == OpSymbol(op) && TextAt(inp, p2) == ")"
    requires ParseFactor(inp, p1 + 1, depth) == Ok(Parsed(r, p2))
    ensures ParseExpr(inp, pos, depth) == Ok(Parsed(BinaryOp(op, l, r), p2))
  {
    if op == Mul || op == Div {
      MulInside(inp, pos, depth, op, l, r, p1, p2);
    } else {
      AddInside(inp, pos, depth, op, l, r, p1, p2);
    }
  }

  /** Where the parts of `( left sym right )` lie among the tokens. */
  lemma BracketTexts(inp: Input, pos: nat, left: seq<string>, sym: string, right: seq<string>)
    requires TextsAt(inp, pos, ["("] + left + [sym] + right + [")"])
    ensures var p1 := pos + 1 + |left|;
      var p2 := p1 + 1 + |right|;
      && p2 < |inp.toks|
      && TextAt(inp, pos) == "(" && TextAt(inp, p1) == sym && TextAt(inp, p2) == ")"
      && TextsAt(inp, pos + 1, left) && TextsAt(inp, p1 + 1, right)
  {
    var open, withLeft, withSym, withRight := ["("], ["("] + left, ["("] + left + [sym], ["("] + left + [sym] + right;
    TextsAtSplit(inp, pos, withRight, [")"]);
    TextsAtSplit(inp, pos, withSym, right);
    TextsAtSplit(inp, pos, withLeft, [sym]);
    TextsAtSplit(inp, pos, open, left);
    TextsAtIndex(inp, pos, open, 0);
    TextsAtIndex(inp, pos + |withLeft|, [sym], 0);
    TextsAtIndex(inp, pos + |withRight|, [")"], 0);
  }

  lemma OperatorNotDie(op: BinOp)
    ensures !StartsWithD(OpSymbol(op))
  {
  }

  lemma NumberFactor(inp: Input, pos: nat, depth: nat, n: nat)
    requires Spells(inp, pos, depth, Number(n), pos + 1)
    ensures ParseFactor(inp, pos, depth) == Ok(Parsed(Number(n), pos + 1))
  {
    TextsAtIndex(inp, pos, [NatToString(n)], 0);
    DigitsRoundTrip(n);
    assert !DiceAhead(inp, pos);
    assert ParsePrimary(inp, pos) == Ok(Parsed(Number(n), pos + 1));
  }

  lemma NegationFactor(inp: Input, pos: nat, depth: nat, x: Expr, next: nat)
    requires pos < |inp.toks| && TextAt(inp, pos) == "-"
    requires ParseFactor(inp, pos + 1, depth) == Ok(Parsed(x, next))
    ensures ParseFactor(inp, pos, depth) == Ok(Parsed(UnaryOp(x), next))
  {
  }

  lemma ParenFactor(inp: Input, pos: nat, depth: nat, e: Expr, close: nat)
    requires depth < MAX_RECURSION
    requires pos < close < |inp.toks| && TextAt(inp, pos) == "(" && TextAt(inp, close) == ")"
    requires ParseExpr(inp, pos + 1, depth + 1) == Ok(Parsed(e, close))
    ensures ParseFactor(inp, pos, depth) == Ok(Parsed(e, close + 1))
  {
    assert Lower(")") == ")";
  }

  /** A token sequence spelling an arithmetic expression parses back to it. */
  lemma ArithmeticRoundTrip(inp: Input, e: Expr)
    requires Arithmetic(e) && Nesting(e) <= MAX_RECURSION
    requires |inp.toks| == |Emit(e)| && TextsAt(inp, 0, Emit(e))
    ensures ParseTop(inp) == Ok(e)
  {
    EmitNonEmpty(e);
    FactorRoundTrip(inp, 0, 0, e, |inp.toks|);
    assert ParseTerm(inp, 0, 0) == Ok(Parsed(e, |inp.toks|));
    assert ParseExpr(inp, 0, 0) == Ok(Parsed(e, |inp.toks|));
  }
}
