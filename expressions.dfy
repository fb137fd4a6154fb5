/** Whole expressions taken from text to tree: the tokens the tokenizer finds in
    them and the tree, or the error, the parser makes of those tokens. */
module Expressions {
  import opened DiceTypes
  import opened Lexer
  import opened ParserSpec
  import Grouping

  /** A kept match at `i` contributes its token ahead of the rest of the scan. */
  lemma ScanToken(text: string, i: nat, n: nat)
    requires i < |text| && MatchAt(text, i) == Some(Lexeme(n, false))
    ensures i + n <= |text|
    ensures Scan(text, i) == [Token(text[i..i + n], i)] + Scan(text, i + n)
  {
    ScanStep(text, i);
  }

  /** A lone digit is a number token. */
  lemma DigitToken(s: string, i: nat)
    requires i < |s| && IsDigit(s[i]) && (i + 1 == |s| || !IsDigit(s[i + 1]))
    ensures Scan(s, i) == [Token(s[i..i + 1], i)] + Scan(s, i + 1)
  {
    assert DigitRun(s, i + 1) == 0;
    assert DigitRun(s, i) == 1;
    ScanToken(s, i, 1);
  }

  /** `d` and a lone digit are a die token. */
  lemma DieToken(s: string, i: nat)
    requires i + 1 < |s| && s[i] == 'd' && IsDigit(s[i + 1]) && (i + 2 == |s| || !IsDigit(s[i + 2]))
    ensures Scan(s, i) == [Token(s[i..i + 2], i)] + Scan(s, i + 2)
  {
    assert DigitRun(s, i + 2) == 0;
    assert DigitRun(s, i + 1) == 1;
    assert MatchAt(s, i) == Some(Lexeme(2, false));
    ScanToken(s, i, 2);
  }

  /** An arithmetic operator is a token of its own. */
  lemma OperatorToken(s: string, i: nat)
    requires i < |s| && s[i] in "+-*/"
    ensures Scan(s, i) == [Token(s[i..i + 1], i)] + Scan(s, i + 1)
  {
    assert MatchAt(s, i) == Some(Lexeme(1, false));
    ScanToken(s, i, 1);
  }

  /** Lowercasing leaves a run of digits as it is. */
  lemma LowerDigits(s: string)
    requires IsDigits(s)
    ensures Lower(s) == s
  {
    assert forall i :: 0 <= i < |s| ==> Lower(s)[i] == s[i];
  }

  /** A single digit is a number worth that digit. */
  lemma Digit(t: string)
    requires |t| == 1 && IsDigit(t[0])
    ensures IsDigits(t) && DigitsValue(t) == t[0] as int - '0' as int
  {
    assert t[..0] == [];
  }

  /** The tokens of `*2` at the end of `2d1+3d1*2`. */
  lemma ProductTailTokens(s: string)
    requires s == "2d1+3d1*2"
    ensures Scan(s, 7) == [Token("*", 7), Token("2", 8)]
  {
    DigitToken(s, 8);
    assert s[8..9] == "2";
    OperatorToken(s, 7);
    assert s[7..8] == "*";
  }

  /** The tokens of `3d1*2` at the end of `2d1+3d1*2`. */
  lemma ProductTokens(s: string)
    requires s == "2d1+3d1*2"
    ensures Scan(s, 4) == [Token("3", 4), Token("d1", 5), Token("*", 7), Token("2", 8)]
  {
    ProductTailTokens(s);
    DieToken(s, 5);
    assert s[5..7] == "d1";
    DigitToken(s, 4);
    assert s[4..5] == "3";
  }

  /** The tokens of `+3d1*2` in `2d1+3d1*2`. */
  lemma SumTailTokens(s: string)
    requires s == "2d1+3d1*2"
    ensures Scan(s, 3) == [Token("+", 3), Token("3", 4), Token("d1", 5), Token("*", 7), Token("2", 8)]
  {
    ProductTokens(s);
    OperatorToken(s, 3);
    assert s[3..4] == "+";
  }

  /** The tokens of `2d1+3d1*2`. */
  lemma ArithmeticTokens(s: string)
    requires s == "2d1+3d1*2"
    ensures Scan(s, 0) == [Token("2", 0), Token("d1", 1), Token("+", 3), Token("3", 4), Token("d1", 5),
                           Token("*", 7), Token("2", 8)]
  {
    SumTailTokens(s);
    DieToken(s, 1);
    assert s[1..3] == "d1";
    DigitToken(s, 0);
    assert s[0..1] == "2";
  }

  /** The tokens of `>=7!` at the end of `10d10>=7!`. */
  lemma ConditionTokens(s: string)
    requires s == "10d10>=7!"
    ensures Scan(s, 5) == [Token(">=", 5), Token("7", 7), Token("!", 8)]
  {
    assert MatchAt(s, 8) == Some(Lexeme(1, false));
    ScanToken(s, 8, 1);
    assert s[8..9] == "!";
    assert DigitRun(s, 8) == 0;
    assert DigitRun(s, 7) == 1;
    ScanToken(s, 7, 1);
    assert s[7..8] == "7";
    assert MatchAt(s, 5) == Some(Lexeme(2, false));
    ScanToken(s, 5, 2);
    assert s[5..7] == ">=";
  }

  /** The tokens of `10d10>=7!`. */
  lemma ComparatorTokens(s: string)
    requires s == "10d10>=7!"
    ensures Scan(s, 0) == [Token("10", 0), Token("d10", 2), Token(">=", 5), Token("7", 7), Token("!", 8)]
  {
    ConditionTokens(s);
    assert DigitRun(s, 5) == 0;
    assert DigitRun(s, 4) == 1;
    assert DigitRun(s, 3) == 2;
    assert MatchAt(s, 2) == Some(Lexeme(3, false));
    ScanToken(s, 2, 3);
    assert s[2..5] == "d10";
    assert DigitRun(s, 2) == 0;
    assert DigitRun(s, 1) == 1;
    assert DigitRun(s, 0) == 2;
    ScanToken(s, 0, 2);
    assert s[0..2] == "10";
  }

  /** The tokens of `1d1`. */
  lemma OneDieTokens(s: string)
    requires s == "1d1"
    ensures Scan(s, 0) == [Token("1", 0), Token("d1", 1)]
  {
    DieToken(s, 1);
    assert s[1..3] == "d1";
    DigitToken(s, 0);
    assert s[0..1] == "1";
  }

  /** The tokens of a one-digit count, a die of one digit, a two-character
      modifier and a one-digit number, such as `4d1dh1`, `4d1kl3` or `5d6>=1`. */
  lemma ModifiedDieTokens(s: string)
    requires |s| == 6 && IsDigit(s[0]) && s[1] == 'd' && IsDigit(s[2]) && !IsDigit(s[3]) && IsDigit(s[5])
    requires MatchAt(s, 3) == Some(Lexeme(2, false))
    ensures Scan(s, 0) == [Token(s[0..1], 0), Token(s[1..3], 1), Token(s[3..5], 3), Token(s[5..6], 5)]
  {
    DigitToken(s, 5);
    ScanToken(s, 3, 2);
    DieToken(s, 1);
    DigitToken(s, 0);
  }

  /** The tokens of `1d1!`. */
  lemma ExplodeTokens(s: string)
    requires s == "1d1!"
    ensures Scan(s, 0) == [Token("1", 0), Token("d1", 1), Token("!", 3)]
  {
    assert MatchAt(s, 3) == Some(Lexeme(1, false));
    ScanToken(s, 3, 1);
    assert s[3..4] == "!";
    DieToken(s, 1);
    assert s[1..3] == "d1";
    DigitToken(s, 0);
    assert s[0..1] == "1";
  }

  /** A die `dS` of a decimal size for `count` dice within the limits, then the
      modifiers after it, make a dice term. */
  lemma DieOfSize(inp: Input, p: nat, count: nat, st: string, mods: Modifiers, next: nat)
    requires p < |inp.toks| && 1 <= count <= MAX_DICE
    requires TextAt(inp, p) == "d" + st && IsDigits(st) && st != "00" && 1 <= DigitsValue(st) <= MAX_SIDES
    requires ModifierLoop(inp, p + 1, NoModifiers) == Ok(Parsed(mods, next))
    ensures DieTerm(inp, p, count) == Ok(Parsed(Dice(count, DigitsValue(st), Standard, mods), next))
  {
    var die := TextAt(inp, p);
    assert StartsWithD(die);
    assert die[1..] == st;
    LowerDigits(st);
    assert DieSize(Lower(die[1..]), inp.toks[p].pos, inp.text) == Ok((DigitsValue(st), Standard));
  }

  /** A count, then a die `dS` of a decimal size, then the modifiers after them,
      make one dice factor. */
  lemma DiceFactor(inp: Input, pos: nat, depth: nat, st: string, mods: Modifiers, next: nat)
    requires pos + 1 < |inp.toks|
    requires IsDigits(TextAt(inp, pos)) && 1 <= DigitsValue(TextAt(inp, pos)) <= MAX_DICE
    requires TextAt(inp, pos + 1) == "d" + st && IsDigits(st) && st != "00" && 1 <= DigitsValue(st) <= MAX_SIDES
    requires ModifierLoop(inp, pos + 2, NoModifiers) == Ok(Parsed(mods, next))
    ensures ParseFactor(inp, pos, depth)
         == Ok(Parsed(Dice(DigitsValue(TextAt(inp, pos)), DigitsValue(st), Standard, mods), next))
  {
    assert IsDigit(TextAt(inp, pos)[0]);
    assert StartsWithD(TextAt(inp, pos + 1));
    DieOfSize(inp, pos + 1, DigitsValue(TextAt(inp, pos)), st, mods, next);
  }

  /** A number that no die follows is a number factor. */
  lemma NumberFactor(inp: Input, pos: nat, depth: nat)
    requires pos < |inp.toks| && IsDigits(TextAt(inp, pos))
    requires pos + 1 < |inp.toks| ==> !StartsWithD(TextAt(inp, pos + 1))
    ensures ParseFactor(inp, pos, depth) == Ok(Parsed(Number(DigitsValue(TextAt(inp, pos))), pos + 1))
  {
    assert IsDigit(TextAt(inp, pos)[0]);
  }

  /** An arithmetic operator after a die is no modifier: the modifier loop stops
      in front of it. */
  lemma OperatorEndsModifiers(inp: Input, pos: nat, mods: Modifiers)
    requires pos < |inp.toks| && TextAt(inp, pos) in ["+", "-", "*", "/"]
    ensures ModifierLoop(inp, pos, mods) == Ok(Parsed(mods, pos))
  {
    var t := TextAt(inp, pos);
    assert Lower(t)[0] == t[0];
    assert Lower(t) == t;
  }

  /** A `>=` comparator and its number end the modifiers of a term. */
  lemma ComparatorEndsModifiers(inp: Input, pos: nat, mods: Modifiers)
    requires pos + 1 < |inp.toks| && TextAt(inp, pos) == ">=" && IsDigits(TextAt(inp, pos + 1))
    ensures ModifierLoop(inp, pos, mods)
         == Ok(Parsed(mods.(comparator := Some(Comparison(Ge, DigitsValue(TextAt(inp, pos + 1))))), pos + 2))
  {
    var t := TextAt(inp, pos);
    assert Lower(t)[0] == t[0] && Lower(t)[1] == t[1];
    assert Lower(t) == t;
    assert ReadModifier(inp, pos, mods)
        == Read(mods.(comparator := Some(Comparison(Ge, DigitsValue(TextAt(inp, pos + 1))))), pos + 2, true);
  }

  /** A keep or drop modifier and its number, wherever they stand among the
      modifiers: the loop records that keep and goes on after the number. */
  lemma KeepModifier(inp: Input, pos: nat, mods: Modifiers)
    requires pos + 1 < |inp.toks| && TextAt(inp, pos) in ["kh", "kl", "dh", "dl"] && IsDigits(TextAt(inp, pos + 1))
    ensures ModifierLoop(inp, pos, mods)
         == ModifierLoop(inp, pos + 2,
              mods.(keep := Some(Keep(KeepKindOf(TextAt(inp, pos)).value, DigitsValue(TextAt(inp, pos + 1))))))
  {
    var t := TextAt(inp, pos);
    assert Lower(t)[0] == t[0] && Lower(t)[1] == t[1];
    assert Lower(t) == t;
  }

  /** An explosion `!`, `!!` or `!p` and the condition after it, wherever they
      stand among the modifiers: the loop records the explosion, compound for
      `!!` and penetrating for `!p`, and goes on after the condition. */
  lemma ExplodeModifier(inp: Input, pos: nat, mods: Modifiers, op: CompOp, threshold: Threshold, next: nat)
    requires pos < |inp.toks| && TextAt(inp, pos) in ["!", "!!", "!p"]
    requires ParseCondition(inp, pos + 1, Ge, Max) == Ok(Parsed((op, threshold), next))
    ensures pos < next <= |inp.toks|
    ensures ModifierLoop(inp, pos, mods)
         == ModifierLoop(inp, next,
              mods.(explode := Some(Explode(TextAt(inp, pos) == "!p", TextAt(inp, pos) == "!!", op, threshold))))
  {
    var t := TextAt(inp, pos);
    assert Lower(t) == t by {
      assert |t| <= 2;
      assert forall k :: 0 <= k < |t| ==> Lower(t)[k] == t[k];
    }
    assert ('p' in t) == (t == "!p");
  }

  /** A count and a die of a decimal size with an operator after them make a dice
      factor without modifiers. */
  lemma DiceBeforeOperator(inp: Input, pos: nat, depth: nat, st: string)
    requires pos + 2 < |inp.toks|
    requires IsDigits(TextAt(inp, pos)) && 1 <= DigitsValue(TextAt(inp, pos)) <= MAX_DICE
    requires TextAt(inp, pos + 1) == "d" + st && IsDigits(st) && st != "00" && 1 <= DigitsValue(st) <= MAX_SIDES
    requires TextAt(inp, pos + 2) in ["+", "-", "*", "/"]
    ensures ParseFactor(inp, pos, depth)
         == Ok(Parsed(Dice(DigitsValue(TextAt(inp, pos)), DigitsValue(st), Standard, NoModifiers), pos + 2))
  {
    OperatorEndsModifiers(inp, pos + 2, NoModifiers);
    DiceFactor(inp, pos, depth, st, NoModifiers, pos + 2);
  }

  /** A count, a die of a decimal size, then `>=` and a number make a counting
      dice factor, whatever follows. */
  lemma CountingFactor(inp: Input, count: nat, st: string, value: nat)
    requires |inp.toks| >= 4
    requires IsDigits(TextAt(inp, 0)) && DigitsValue(TextAt(inp, 0)) == count && 1 <= count <= MAX_DICE
    requires TextAt(inp, 1) == "d" + st && IsDigits(st) && st != "00" && 1 <= DigitsValue(st) <= MAX_SIDES
    requires TextAt(inp, 2) == ">=" && IsDigits(TextAt(inp, 3)) && DigitsValue(TextAt(inp, 3)) == value
    ensures ParseFactor(inp, 0, 0)
         == Ok(Parsed(Dice(count, DigitsValue(st), Standard, NoModifiers.(comparator := Some(Comparison(Ge, value)))), 4))
  {
    ComparatorEndsModifiers(inp, 2, NoModifiers);
    DiceFactor(inp, 0, 0, st, NoModifiers.(comparator := Some(Comparison(Ge, value))), 4);
  }

  /** A count, a die of a decimal size, then a keep or drop modifier and its
      number make a dice factor that keeps or drops that many dice. */
  lemma KeepingFactor(inp: Input, count: nat, st: string, kind: KeepKind, amount: nat)
    requires |inp.toks| == 4
    requires IsDigits(TextAt(inp, 0)) && DigitsValue(TextAt(inp, 0)) == count && 1 <= count <= MAX_DICE
    requires TextAt(inp, 1) == "d" + st && IsDigits(st) && st != "00" && 1 <= DigitsValue(st) <= MAX_SIDES
    requires TextAt(inp, 2) in ["kh", "kl", "dh", "dl"] && KeepKindOf(TextAt(inp, 2)) == Some(kind)
    requires IsDigits(TextAt(inp, 3)) && DigitsValue(TextAt(inp, 3)) == amount
    ensures ParseFactor(inp, 0, 0)
         == Ok(Parsed(Dice(count, DigitsValue(st), Standard, NoModifiers.(keep := Some(Keep(kind, amount)))), 4))
  {
    KeepModifier(inp, 2, NoModifiers);
    DiceFactor(inp, 0, 0, st, NoModifiers.(keep := Some(Keep(kind, amount))), 4);
  }

  /** A factor that takes up every token is the whole expression. */
  lemma WholeFactor(inp: Input, e: Expr)
    requires |inp.toks| > 0 && ParseFactor(inp, 0, 0) == Ok(Parsed(e, |inp.toks|))
    ensures ParseTop(inp) == Ok(e)
  {
    Grouping.LoneFactor(inp, 0, 0, e, |inp.toks|);
    Grouping.ExprTailFolds(inp, e, |inp.toks|, 0, [], |inp.toks|);
  }

  /** The three factors of `2d1+3d1*2`. */
  lemma ArithmeticFactors(inp: Input)
    requires |inp.toks| == 7
    requires TextAt(inp, 0) == "2" && TextAt(inp, 1) == "d1" && TextAt(inp, 2) == "+"
    requires TextAt(inp, 3) == "3" && TextAt(inp, 4) == "d1" && TextAt(inp, 5) == "*"
    requires TextAt(inp, 6) == "2"
    ensures ParseFactor(inp, 0, 0) == Ok(Parsed(Dice(2, 1, Standard, NoModifiers), 2))
    ensures ParseFactor(inp, 3, 0) == Ok(Parsed(Dice(3, 1, Standard, NoModifiers), 5))
    ensures ParseFactor(inp, 6, 0) == Ok(Parsed(Number(2), 7))
  {
    Digit("1");
    Digit("2");
    Digit("3");
    assert "d1" == "d" + "1";
    DiceBeforeOperator(inp, 0, 0, "1");
    DiceBeforeOperator(inp, 3, 0, "1");
    NumberFactor(inp, 6, 0);
  }

  /** The tokens of `2d1+3d1*2` make `2d1 + (3d1 * 2)` and nothing is left over. */
  lemma ArithmeticTree(inp: Input)
    requires inp.toks == [Token("2", 0), Token("d1", 1), Token("+", 3), Token("3", 4), Token("d1", 5),
                          Token("*", 7), Token("2", 8)]
    ensures ParseExpr(inp, 0, 0) == Ok(Parsed(BinaryOp(Add, Dice(2, 1, Standard, NoModifiers),
                                                       BinaryOp(Mul, Dice(3, 1, Standard, NoModifiers), Number(2))),
                                              |inp.toks|))
  {
    ArithmeticFactors(inp);
    var a := Dice(2, 1, Standard, NoModifiers);
    var b := Dice(3, 1, Standard, NoModifiers);
    Grouping.ProductInSum(inp, 0, 0, Add, Mul, a, b, Number(2), 2, 5, 7);
  }

  /** `2d1+3d1*2` parses as `2d1 + (3d1 * 2)`: the product groups first. */
  lemma ArithmeticParse(s: string)
    requires s == "2d1+3d1*2"
    ensures Parse(s) == Ok(BinaryOp(Add, Dice(2, 1, Standard, NoModifiers),
                                     BinaryOp(Mul, Dice(3, 1, Standard, NoModifiers), Number(2))))
  {
    StripUnspaced(s);
    ArithmeticTokens(s);
    ArithmeticTree(Tokens(s));
    assert |Tokens(s).toks| == 7;
  }

  /** The first four tokens of `10d10>=7!` make one counting dice factor. */
  lemma ComparatorFactor(inp: Input)
    requires |inp.toks| == 5
    requires TextAt(inp, 0) == "10" && TextAt(inp, 1) == "d10" && TextAt(inp, 2) == ">="
    requires TextAt(inp, 3) == "7"
    ensures ParseFactor(inp, 0, 0)
         == Ok(Parsed(Dice(10, 10, Standard, NoModifiers.(comparator := Some(Comparison(Ge, 7)))), 4))
  {
    Digit("7");
    Digit("1");
    assert "10"[..1] == "1";
    assert IsDigits("10") && DigitsValue("10") == 10;
    assert "d10" == "d" + "10";
    CountingFactor(inp, 10, "10", 7);
  }

  /** The tokens of `10d10>=7!` up to the `!` make one counting dice term. */
  lemma ComparatorTerm(inp: Input)
    requires |inp.toks| == 5
    requires TextAt(inp, 0) == "10" && TextAt(inp, 1) == "d10" && TextAt(inp, 2) == ">="
    requires TextAt(inp, 3) == "7" && TextAt(inp, 4) == "!"
    ensures ParseExpr(inp, 0, 0)
         == Ok(Parsed(Dice(10, 10, Standard, NoModifiers.(comparator := Some(Comparison(Ge, 7)))), 4))
  {
    ComparatorFactor(inp);
    var d := Dice(10, 10, Standard, NoModifiers.(comparator := Some(Comparison(Ge, 7))));
    Grouping.LoneFactor(inp, 0, 0, d, 4);
    Grouping.ExprTailFolds(inp, d, 4, 0, [], 4);
  }

  /** The `!` left over after that term is the error. */
  lemma ComparatorTree(inp: Input)
    requires inp.toks == [Token("10", 0), Token("d10", 2), Token(">=", 5), Token("7", 7), Token("!", 8)]
    ensures ParseTop(inp) == Err(ParseError("Unexpected token '!' after expression", 8, inp.text))
  {
    ComparatorTerm(inp);
    assert "Unexpected token '" + TextAt(inp, 4) + "' after expression" == "Unexpected token '!' after expression";
  }

  /** `10d10>=7!`: the comparator ends the dice term, so the `!` after it is left
      over and the parse fails there. */
  lemma ComparatorThenExplode(s: string)
    requires s == "10d10>=7!"
    ensures Parse(s) == Err(ParseError("Unexpected token '!' after expression", 8, s))
  {
    StripUnspaced(s);
    ComparatorTokens(s);
    ComparatorTree(Tokens(s));
  }

  /** The tokens of `1d1` make one one-sided die. */
  lemma OneDieFactor(inp: Input)
    requires |inp.toks| == 2 && TextAt(inp, 0) == "1" && TextAt(inp, 1) == "d1"
    ensures ParseFactor(inp, 0, 0) == Ok(Parsed(Dice(1, 1, Standard, NoModifiers), 2))
  {
    Digit("1");
    assert "d1" == "d" + "1";
    DiceFactor(inp, 0, 0, "1", NoModifiers, 2);
  }

  /** The tokens of `1d1` make the whole expression. */
  lemma OneDieTree(inp: Input)
    requires inp.toks == [Token("1", 0), Token("d1", 1)]
    ensures ParseTop(inp) == Ok(Dice(1, 1, Standard, NoModifiers))
  {
    assert TextAt(inp, 0) == "1" && TextAt(inp, 1) == "d1";
    OneDieFactor(inp);
    WholeFactor(inp, Dice(1, 1, Standard, NoModifiers));
  }

  /** `1d1` is one one-sided die. */
  lemma OneDieParse(s: string)
    requires s == "1d1"
    ensures Parse(s) == Ok(Dice(1, 1, Standard, NoModifiers))
  {
    StripUnspaced(s);
    OneDieTokens(s);
    OneDieTree(Tokens(s));
  }

  /** The tokens of `4d1dh1` make the whole expression. */
  lemma DropHighTree(inp: Input)
    requires inp.toks == [Token("4", 0), Token("d1", 1), Token("dh", 3), Token("1", 5)]
    ensures ParseTop(inp) == Ok(Dice(4, 1, Standard, NoModifiers.(keep := Some(Keep(DropHigh, 1)))))
  {
    assert TextAt(inp, 0) == "4" && TextAt(inp, 1) == "d1" && TextAt(inp, 2) == "dh" && TextAt(inp, 3) == "1";
    Digit("4");
    Digit("1");
    assert "d1" == "d" + "1";
    KeepingFactor(inp, 4, "1", DropHigh, 1);
    WholeFactor(inp, Dice(4, 1, Standard, NoModifiers.(keep := Some(Keep(DropHigh, 1)))));
  }

  /** `4d1dh1` is four one-sided dice dropping the highest one. */
  lemma DropHighParse(s: string)
    requires s == "4d1dh1"
    ensures Parse(s) == Ok(Dice(4, 1, Standard, NoModifiers.(keep := Some(Keep(DropHigh, 1)))))
  {
    StripUnspaced(s);
    assert MatchAt(s, 3) == Some(Lexeme(2, false));
    ModifiedDieTokens(s);
    assert s[0..1] == "4" && s[1..3] == "d1" && s[3..5] == "dh" && s[5..6] == "1";
    DropHighTree(Tokens(s));
  }

  /** The tokens of `4d1kl3` make the whole expression. */
  lemma KeepLowTree(inp: Input)
    requires inp.toks == [Token("4", 0), Token("d1", 1), Token("kl", 3), Token("3", 5)]
    ensures ParseTop(inp) == Ok(Dice(4, 1, Standard, NoModifiers.(keep := Some(Keep(KeepLow, 3)))))
  {
    assert TextAt(inp, 0) == "4" && TextAt(inp, 1) == "d1" && TextAt(inp, 2) == "kl" && TextAt(inp, 3) == "3";
    Digit("4");
    Digit("1");
    Digit("3");
    assert "d1" == "d" + "1";
    KeepingFactor(inp, 4, "1", KeepLow, 3);
    WholeFactor(inp, Dice(4, 1, Standard, NoModifiers.(keep := Some(Keep(KeepLow, 3)))));
  }

  /** `4d1kl3` is four one-sided dice keeping the lowest three. */
  lemma KeepLowParse(s: string)
    requires s == "4d1kl3"
    ensures Parse(s) == Ok(Dice(4, 1, Standard, NoModifiers.(keep := Some(Keep(KeepLow, 3)))))
  {
    StripUnspaced(s);
    assert MatchAt(s, 3) == Some(Lexeme(2, false));
    ModifiedDieTokens(s);
    assert s[0..1] == "4" && s[1..3] == "d1" && s[3..5] == "kl" && s[5..6] == "3";
    KeepLowTree(Tokens(s));
  }

  /** The tokens of `1d1!` make one one-sided die exploding on its maximum. */
  lemma ExplodeFactor(inp: Input)
    requires |inp.toks| == 3 && TextAt(inp, 0) == "1" && TextAt(inp, 1) == "d1" && TextAt(inp, 2) == "!"
    ensures ParseFactor(inp, 0, 0)
         == Ok(Parsed(Dice(1, 1, Standard, NoModifiers.(explode := Some(Explode(false, false, Ge, Max)))), 3))
  {
    Digit("1");
    assert "d1" == "d" + "1";
    assert ParseCondition(inp, 3, Ge, Max) == Ok(Parsed((Ge, Max), 3));
    ExplodeModifier(inp, 2, NoModifiers, Ge, Max, 3);
    DiceFactor(inp, 0, 0, "1", NoModifiers.(explode := Some(Explode(false, false, Ge, Max))), 3);
  }

  /** The tokens of `1d1!` make the whole expression. */
  lemma ExplodeTree(inp: Input)
    requires inp.toks == [Token("1", 0), Token("d1", 1), Token("!", 3)]
    ensures ParseTop(inp) == Ok(Dice(1, 1, Standard, NoModifiers.(explode := Some(Explode(false, false, Ge, Max)))))
  {
    assert TextAt(inp, 0) == "1" && TextAt(inp, 1) == "d1" && TextAt(inp, 2) == "!";
    ExplodeFactor(inp);
    WholeFactor(inp, Dice(1, 1, Standard, NoModifiers.(explode := Some(Explode(false, false, Ge, Max)))));
  }

  /** `1d1!` is one one-sided die exploding on its maximum. */
  lemma ExplodeParse(s: string)
    requires s == "1d1!"
    ensures Parse(s) == Ok(Dice(1, 1, Standard, NoModifiers.(explode := Some(Explode(false, false, Ge, Max)))))
  {
    StripUnspaced(s);
    ExplodeTokens(s);
    ExplodeTree(Tokens(s));
  }

  /** The tokens of `5d6>=1` make five six-sided dice counting faces of at least 1. */
  lemma CountFactor(inp: Input)
    requires |inp.toks| == 4 && TextAt(inp, 0) == "5" && TextAt(inp, 1) == "d6"
    requires TextAt(inp, 2) == ">=" && TextAt(inp, 3) == "1"
    ensures ParseFactor(inp, 0, 0)
         == Ok(Parsed(Dice(5, 6, Standard, NoModifiers.(comparator := Some(Comparison(Ge, 1)))), 4))
  {
    Digit("5");
    Digit("6");
    Digit("1");
    assert "d6" == "d" + "6";
    CountingFactor(inp, 5, "6", 1);
  }

  /** The tokens of `5d6>=1` make the whole expression. */
  lemma CountTree(inp: Input)
    requires inp.toks == [Token("5", 0), Token("d6", 1), Token(">=", 3), Token("1", 5)]
    ensures ParseTop(inp) == Ok(Dice(5, 6, Standard, NoModifiers.(comparator := Some(Comparison(Ge, 1)))))
  {
    assert TextAt(inp, 0) == "5" && TextAt(inp, 1) == "d6" && TextAt(inp, 2) == ">=" && TextAt(inp, 3) == "1";
    CountFactor(inp);
    WholeFactor(inp, Dice(5, 6, Standard, NoModifiers.(comparator := Some(Comparison(Ge, 1)))));
  }

  /** `5d6>=1` is five six-sided dice counting the faces of at least 1. */
  lemma CountParse(s: string)
    requires s == "5d6>=1"
    ensures Parse(s) == Ok(Dice(5, 6, Standard, NoModifiers.(comparator := Some(Comparison(Ge, 1)))))
  {
    StripUnspaced(s);
    assert MatchAt(s, 3) == Some(Lexeme(2, false));
    ModifiedDieTokens(s);
    assert s[0..1] == "5" && s[1..3] == "d6" && s[3..5] == ">=" && s[5..6] == "1";
    CountTree(Tokens(s));
  }
}
