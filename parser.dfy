/** `DiceParser` (dice_roller.py:218-446) as the recursive-descent parser it is: a
    class holding its tokenizer and the count of open parentheses, whose methods
    move the tokenizer's cursor. Each method is proved to compute what the
    matching function of `ParserSpec` describes, so the properties proved about
    those functions hold of the parser. A raised exception is an `Err` result. */
module Parser {
  import opened DiceTypes
  import opened Lexer
  import ParserSpec

  /** A method's result and the cursor it leaves agree with a spec function's
      outcome: the same value with the cursor after it, or the same error. */
  predicate Mirrors<T(==)>(r: Result<T>, s: Result<ParserSpec.Parsed<T>>, position: nat) {
    match s
    case Ok(p) => r == Ok(p.value) && position == p.next
    case Err(e) => r == Err(e)
  }

  class DiceParser {
    const tokenizer: Tokenizer
    var recursionDepth: nat

    constructor (text: string)
      ensures fresh(tokenizer)
      ensures tokenizer.text == Strip(text) && tokenizer.tokens == Scan(tokenizer.text, 0)
      ensures tokenizer.position == 0 && recursionDepth == 0
    {
      tokenizer := new Tokenizer(text);
      recursionDepth := 0;
    }

    /** The tokens being parsed; parsing never changes them. */
    function Current(): ParserSpec.Input
      reads tokenizer`tokens
    {
      ParserSpec.Input(tokenizer.tokens, tokenizer.text)
    }

    predicate InRange()
      reads tokenizer`position, tokenizer`tokens
    {
      tokenizer.position <= |tokenizer.tokens|
    }

    /** `parse`: the whole input is one expression. */
    method Parse() returns (r: Result<Expr>)
      requires tokenizer.position == 0 && recursionDepth == 0
      modifies tokenizer`position, this`recursionDepth
      ensures r == ParserSpec.ParseTop(Current())
    {
      if tokenizer.AtEnd() {
        return Err(ParseError("Empty expression", 0, tokenizer.text));
      }
      var x := ParseExpression();
      if x.Err? {
        return x;
      }
      if !tokenizer.AtEnd() {
        var token := tokenizer.Peek(0).value;
        return Err(ParseError("Unexpected token '" + token + "' after expression",
          tokenizer.tokens[tokenizer.position].pos, tokenizer.text));
      }
      r := x;
    }

    /** `parse_expression`: terms joined by `+` and `-`, folded to the left. */
    method ParseExpression() returns (r: Result<Expr>)
      requires InRange()
      modifies tokenizer`position, this`recursionDepth
      decreases |tokenizer.tokens| - tokenizer.position, 3
      ensures Mirrors(r, ParserSpec.ParseExpr(Current(), old(tokenizer.position), old(recursionDepth)),
        tokenizer.position)
      ensures r.Ok? ==> recursionDepth == old(recursionDepth)
    {
      ghost var inp, depth := Current(), recursionDepth;
      var first := ParseTerm();
      if first.Err? {
        return first;
      }
      var left := first.value;
      ghost var goal := ParserSpec.ExprTail(inp, left, tokenizer.position, depth);
      while !tokenizer.AtEnd()
        invariant old(tokenizer.position) < tokenizer.position <= |tokenizer.tokens|
        invariant recursionDepth == depth
        invariant ParserSpec.ExprTail(inp, left, tokenizer.position, depth) == goal
        decreases |tokenizer.tokens| - tokenizer.position
      {
        var op := tokenizer.Peek(0).value;
        if op != "+" && op != "-" {
          break;
        }
        var _ := tokenizer.Consume(None);
        var right := ParseTerm();
        if right.Err? {
          return right;
        }
        left := BinaryOp(ParserSpec.AddOpOf(op).value, left, right.value);
      }
      r := Ok(left);
    }

    /** `parse_term`: factors joined by `*` and `/`, folded to the left. */
    method ParseTerm() returns (r: Result<Expr>)
      requires InRange()
      modifies tokenizer`position, this`recursionDepth
      decreases |tokenizer.tokens| - tokenizer.position, 2
      ensures Mirrors(r, ParserSpec.ParseTerm(Current(), old(tokenizer.position), old(recursionDepth)),
        tokenizer.position)
      ensures r.Ok? ==> recursionDepth == old(recursionDepth)
    {
      ghost var inp, depth := Current(), recursionDepth;
      var first := ParseFactor();
      if first.Err? {
        return first;
      }
      var left := first.value;
      ghost var goal := ParserSpec.TermTail(inp, left, tokenizer.position, depth);
      while !tokenizer.AtEnd()
        invariant old(tokenizer.position) < tokenizer.position <= |tokenizer.tokens|
        invariant recursionDepth == depth
        invariant ParserSpec.TermTail(inp, left, tokenizer.position, depth) == goal
        decreases |tokenizer.tokens| - tokenizer.position
      {
        var op := tokenizer.Peek(0).value;
        if op != "*" && op != "/" {
          break;
        }
        var _ := tokenizer.Consume(None);
        var right := ParseFactor();
        if right.Err? {
          return right;
        }
        left := BinaryOp(ParserSpec.MulOpOf(op).value, left, right.value);
      }
      r := Ok(left);
    }

    /** `parse_factor`: a negation, a parenthesised expression, or a primary. The
        depth count goes up on `(`, fails past `MAX_RECURSION`, and comes back down
        after the matching `)`. */
    method ParseFactor() returns (r: Result<Expr>)
      requires InRange()
      modifies tokenizer`position, this`recursionDepth
      decreases |tokenizer.tokens| - tokenizer.position, 1
      ensures Mirrors(r, ParserSpec.ParseFactor(Current(), old(tokenizer.position), old(recursionDepth)),
        tokenizer.position)
      ensures r.Ok? ==> recursionDepth == old(recursionDepth)
    {
      var token := tokenizer.Peek(0);
      if token == Some("-") {
        var _ := tokenizer.Consume(None);
        var operand := ParseFactor();
        if operand.Err? {
          return operand;
        }
        return Ok(UnaryOp(operand.value));
      }
      if token == Some("(") {
        recursionDepth := recursionDepth + 1;
        if recursionDepth > MAX_RECURSION {
          return Err(LimitError("Exceeded maximum recursion depth of 32"));
        }
        // The token is `(`, so this cannot fail.
        var _ := tokenizer.Consume(Some("("));
        var inner := ParseExpression();
        if inner.Err? {
          return inner;
        }
        var close := tokenizer.Consume(Some(")"));
        if close.Err? {
          return Err(close.error);
        }
        recursionDepth := recursionDepth - 1;
        return inner;
      }
      r := ParsePrimary();
    }

    /** `parse_primary`: a dice term when a die token comes now or after a number,
        otherwise a number. */
    method ParsePrimary() returns (r: Result<Expr>)
      requires InRange()
      modifies tokenizer`position
      ensures Mirrors(r, ParserSpec.ParsePrimary(Current(), old(tokenizer.position)), tokenizer.position)
    {
      var token := tokenizer.Peek(0);
      if token.None? {
        return Err(ParseError("Unexpected end of expression", |tokenizer.text|, tokenizer.text));
      }
      var next := tokenizer.Peek(1);
      if ParserSpec.StartsWithD(token.value)
        || (IsDigits(token.value) && next.Some? && ParserSpec.StartsWithD(next.value))
      {
        r := ParseDice();
        return;
      }
      if IsDigits(token.value) {
        var number := tokenizer.Consume(None);
        return Ok(Number(DigitsValue(number.value)));
      }
      r := Err(ParseError("Unexpected token '" + token.value + "'",
        tokenizer.tokens[tokenizer.position].pos, tokenizer.text));
    }

    /** `parse_dice`: the count, when a number comes first, then the rest of the
        term. */
    method ParseDice() returns (r: Result<Expr>)
      requires InRange()
      modifies tokenizer`position
      ensures Mirrors(r, ParserSpec.ParseDice(Current(), old(tokenizer.position)), tokenizer.position)
    {
      var countToken := tokenizer.Peek(0);
      var count := 1;
      if countToken.Some? && IsDigits(countToken.value) {
        var c := tokenizer.Consume(None);
        count := DigitsValue(c.value);
      }
      r := ParseDie(count);
    }

    /** The die token and its size checks in the parser's order, then the
        modifiers. */
    method ParseDie(count: nat) returns (r: Result<Expr>)
      requires InRange()
      modifies tokenizer`position
      ensures Mirrors(r, ParserSpec.DieTerm(Current(), old(tokenizer.position), count), tokenizer.position)
    {
      var die := tokenizer.Consume(None);
      if die.Err? {
        return Err(die.error);
      }
      var at := tokenizer.tokens[tokenizer.position - 1].pos;
      if !ParserSpec.StartsWithD(die.value) {
        return Err(ParseError("Expected dice notation, got '" + die.value + "'", at, tokenizer.text));
      }
      var size := ParserSpec.DieSize(Lower(die.value[1..]), at, tokenizer.text);
      if size.Err? {
        return Err(size.error);
      }
      var (sides, kind) := size.value;
      if count > MAX_DICE {
        return Err(LimitError("Cannot roll more than 1000 dice per term"));
      }
      if sides > MAX_SIDES {
        return Err(LimitError("Die cannot have more than 1000000000 sides"));
      }
      if count < 1 {
        return Err(SemanticError("Must roll at least 1 die"));
      }
      if sides < 1 {
        return Err(SemanticError("Die must have at least 1 side"));
      }
      var mods := ParseDiceModifiers();
      if mods.Err? {
        return Err(mods.error);
      }
      r := Ok(Dice(count, sides, kind, mods.value));
    }

    /** `parse_dice_modifiers`: reads modifiers until a token that is none, or
        through a success comparator, which ends the term. */
    method ParseDiceModifiers() returns (r: Result<Modifiers>)
      requires InRange()
      modifies tokenizer`position
      ensures Mirrors(r, ParserSpec.ModifierLoop(Current(), old(tokenizer.position), NoModifiers),
        tokenizer.position)
    {
      ghost var inp := Current();
      var mods := NoModifiers;
      while !tokenizer.AtEnd()
        invariant InRange()
        invariant ParserSpec.ModifierLoop(inp, tokenizer.position, mods)
          == ParserSpec.ModifierLoop(inp, old(tokenizer.position), NoModifiers)
        decreases |tokenizer.tokens| - tokenizer.position
      {
        var step := ReadModifier(mods);
        match step
        case NotModifier =>
          break;
        case Failed(e) =>
          return Err(e);
        case Read(m, _, last) =>
          mods := m;
          if last {
            return Ok(mods);
          }
      }
      r := Ok(mods);
    }

    /** One pass of the modifier loop: the modifier at the cursor, consumed with
        what it needs after it. */
    method ReadModifier(mods: Modifiers) returns (s: ParserSpec.Step)
      requires tokenizer.position < |tokenizer.tokens|
      modifies tokenizer`position
      ensures s == ParserSpec.ReadModifier(Current(), old(tokenizer.position), mods)
      ensures s.NotModifier? ==> tokenizer.position == old(tokenizer.position)
      ensures s.Read? ==> tokenizer.position == s.next
    {
      var lower := Lower(tokenizer.Peek(0).value);
      if lower in ["r", "ro", "!", "!!", "!p"] {
        s := ConditionModifier(mods);
      } else if ParserSpec.KeepKindOf(lower).Some? {
        s := NumberModifier(mods);
      } else if lower == "sa" || lower == "sd" {
        var _ := tokenizer.Consume(None);
        s := ParserSpec.Read(mods.(sort := Some(if lower == "sa" then Ascending else Descending)),
          tokenizer.position, false);
      } else if CompOpOf(lower).Some? {
        s := NumberModifier(mods);
      } else {
        s := ParserSpec.NotModifier;
      }
    }

    /** A reroll or explosion token and the condition after it. */
    method ConditionModifier(mods: Modifiers) returns (s: ParserSpec.Step)
      requires tokenizer.position < |tokenizer.tokens|
      requires Lower(tokenizer.Peek(0).value) in ["r", "ro", "!", "!!", "!p"]
      modifies tokenizer`position
      ensures s == ParserSpec.ConditionModifier(Current(), old(tokenizer.position), mods)
      ensures s.Read? ==> tokenizer.position == s.next
    {
      var token := tokenizer.Peek(0).value;
      var lower := Lower(token);
      var _ := tokenizer.Consume(None);
      if lower == "r" || lower == "ro" {
        var c := ParseCondition(Eq, Num(1));
        if c.Err? {
          return ParserSpec.Failed(c.error);
        }
        var (op, value) := c.value;
        s := ParserSpec.Read(mods.(reroll := Some(Reroll(lower == "ro", Comparison(op, value.n)))),
          tokenizer.position, false);
      } else {
        var c := ParseCondition(Ge, Max);
        if c.Err? {
          return ParserSpec.Failed(c.error);
        }
        var (op, value) := c.value;
        s := ParserSpec.Read(mods.(explode := Some(Explode('p' in lower, token == "!!", op, value))),
          tokenizer.position, false);
      }
    }

    /** A keep or drop token, or a success comparator, and the number after it. */
    method NumberModifier(mods: Modifiers) returns (s: ParserSpec.Step)
      requires tokenizer.position < |tokenizer.tokens|
      requires var lower := Lower(tokenizer.Peek(0).value);
        ParserSpec.KeepKindOf(lower).Some? || CompOpOf(lower).Some?
      modifies tokenizer`position
      ensures s == ParserSpec.NumberModifier(Current(), old(tokenizer.position), mods)
      ensures s.Read? ==> tokenizer.position == s.next
    {
      var token := tokenizer.Peek(0).value;
      var lower := Lower(token);
      var _ := tokenizer.Consume(None);
      if ParserSpec.KeepKindOf(lower).Some? {
        var number := ExpectNumber("Expected number after '" + lower + "'");
        if number.Err? {
          return ParserSpec.Failed(number.error);
        }
        s := ParserSpec.Read(mods.(keep := Some(Keep(ParserSpec.KeepKindOf(lower).value, number.value))),
          tokenizer.position, false);
      } else {
        var number := ExpectNumber("Expected number after comparator '" + token + "'");
        if number.Err? {
          return ParserSpec.Failed(number.error);
        }
        s := ParserSpec.Read(mods.(comparator := Some(Comparison(CompOpOf(lower).value, number.value))),
          tokenizer.position, true);
      }
    }

    /** The number a keep, drop or comparator modifier needs after it: consumed
        when the next token is one, otherwise `message` at that token or at the
        end of the text. */
    method ExpectNumber(message: string) returns (r: Result<nat>)
      requires InRange()
      modifies tokenizer`position
      ensures InRange()
      ensures var p := old(tokenizer.position);
        if ParserSpec.DigitsAt(Current(), p) then
          r == Ok(DigitsValue(tokenizer.tokens[p].text)) && tokenizer.position == p + 1
        else
          r == Err(ParseError(message, ParserSpec.ErrorPos(Current(), p), tokenizer.text))
    {
      if tokenizer.AtEnd() || !IsDigits(tokenizer.Peek(0).value) {
        var at := if tokenizer.AtEnd() then |tokenizer.text| else tokenizer.tokens[tokenizer.position].pos;
        return Err(ParseError(message, at, tokenizer.text));
      }
      var number := tokenizer.Consume(None);
      r := Ok(DigitsValue(number.value));
    }

    /** `parse_condition`: `op number`, a bare number meaning equality, or the
        default without consuming anything. */
    method ParseCondition(defaultOp: CompOp, defaultValue: Threshold) returns (r: Result<(CompOp, Threshold)>)
      requires InRange()
      modifies tokenizer`position
      ensures InRange()
      ensures Mirrors(r, ParserSpec.ParseCondition(Current(), old(tokenizer.position), defaultOp, defaultValue),
        tokenizer.position)
    {
      var token := tokenizer.Peek(0);
      if token.Some? && CompOpOf(token.value).Some? {
        var _ := tokenizer.Consume(None);
        var number := ExpectNumber("Expected number after operator '" + token.value + "'");
        if number.Err? {
          return Err(number.error);
        }
        return Ok((CompOpOf(token.value).value, Num(number.value)));
      }
      if token.Some? && IsDigits(token.value) {
        var number := tokenizer.Consume(None);
        return Ok((Eq, Num(DigitsValue(number.value))));
      }
      r := Ok((defaultOp, defaultValue));
    }
  }
}
