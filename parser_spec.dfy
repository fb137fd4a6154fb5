/** The recursive-descent grammar of `DiceParser` (dice_roller.py:218-446) as pure
    functions over the token sequence: each takes the cursor (and the depth of open
    parentheses) and yields the parsed value with the cursor after it, or the error
    the parser raises there.

      expression := term (('+' | '-') term)*
      term       := factor (('*' | '/') factor)*
      factor     := '-' factor | '(' expression ')' | primary
      primary    := dice | number
      dice       := [number] die modifier*            */
module ParserSpec {
  import opened DiceTypes
  import opened Lexer

  /** The tokens and the stripped text they were read from. */
  datatype Input = Input(toks: seq<Token>, text: string)

  /** A parsed value and the cursor after it. */
  datatype Parsed<T> = Parsed(value: T, next: nat)

  /** A parse error points at the input and either at one of its tokens or at its
      end. */
  ghost predicate Located(inp: Input, e: Error) {
    e.ParseError? ==>
      && e.input == inp.text
      && (e.position == |inp.text| || exists k :: 0 <= k < |inp.toks| && inp.toks[k].pos == e.position)
  }

  /** An outcome that, on success, moved the cursor from `pos` to at most the end
      (strictly forward when `strict`), and on failure is located. */
  ghost predicate Outcome<T>(inp: Input, pos: nat, r: Result<Parsed<T>>, strict: bool) {
    && (r.Ok? ==> (if strict then pos < r.value.next else pos <= r.value.next) && r.value.next <= |inp.toks|)
    && (r.Err? ==> Located(inp, r.error))
  }

  /** Where an error about the token at `p` is reported: its offset, or the end of
      the text when there is no token there. */
  function ErrorPos(inp: Input, p: nat): nat {
    if p < |inp.toks| then inp.toks[p].pos else |inp.text|
  }

  function TextAt(inp: Input, p: nat): string
    requires p < |inp.toks|
  {
    inp.toks[p].text
  }

  /** Whether the token at `p` exists and is a number. */
  predicate DigitsAt(inp: Input, p: nat) {
    p < |inp.toks| && IsDigits(inp.toks[p].text)
  }

  /** `s.lower().startswith('d')`. */
  predicate StartsWithD(s: string) {
    |s| > 0 && LowerChar(s[0]) == 'd'
  }

  /** `parse_condition`: an explicit comparator with its number, a bare number (an
      equality), or the default condition without consuming anything. */
  function ParseCondition(inp: Input, pos: nat, defaultOp: CompOp, defaultValue: Threshold)
    : (r: Result<Parsed<(CompOp, Threshold)>>)
    requires pos <= |inp.toks|
    ensures Outcome(inp, pos, r, false)
    ensures r.Ok? && defaultValue.Num? ==> r.value.value.1.Num?
    ensures r.Ok? && r.value.next == pos ==> r.value.value == (defaultOp, defaultValue)
    ensures r.Err? ==> r.error.ParseError?
  {
    if pos < |inp.toks| && CompOpOf(TextAt(inp, pos)).Some? then
      if DigitsAt(inp, pos + 1) then
        Ok(Parsed((CompOpOf(TextAt(inp, pos)).value, Num(DigitsValue(TextAt(inp, pos + 1)))), pos + 2))
      else
        Err(ParseError("Expected number after operator '" + TextAt(inp, pos) + "'",
          ErrorPos(inp, pos + 1), inp.text))
    else if DigitsAt(inp, pos) then
      Ok(Parsed((Eq, Num(DigitsValue(TextAt(inp, pos)))), pos + 1))
    else
      Ok(Parsed((defaultOp, defaultValue), pos))
  }

  function KeepKindOf(s: string): Option<KeepKind> {
    if s == "kh" then Some(KeepHigh)
    else if s == "kl" then Some(KeepLow)
    else if s == "dh" then Some(DropHigh)
    else if s == "dl" then Some(DropLow)
    else None
  }

  /** What one pass of the loop of `parse_dice_modifiers` does at a token: it is
      no modifier, or reading it failed, or it was read (the last one when it is a
      success comparator). */
  datatype Step = NotModifier | Failed(error: Error) | Read(mods: Modifiers, next: nat, last: bool)

  /** One modifier at cursor `pos`, added to `mods`; a later modifier of a kind
      replaces an earlier one. The kinds are tried in the parser's order: reroll,
      explode, keep or drop, sort, success comparator. */
  function ReadModifier(inp: Input, pos: nat, mods: Modifiers): (s: Step)
    requires pos < |inp.toks|
    ensures s.Read? ==> pos < s.next <= |inp.toks|
    ensures s.Failed? ==> s.error.ParseError? && Located(inp, s.error)
  {
    var tl := Lower(TextAt(inp, pos));
    if tl in ["r", "ro", "!", "!!", "!p"] then ConditionModifier(inp, pos, mods)
    else if KeepKindOf(tl).Some? then NumberModifier(inp, pos, mods)
    else if tl == "sa" || tl == "sd" then
      Read(mods.(sort := Some(if tl == "sa" then Ascending else Descending)), pos + 1, false)
    else if CompOpOf(tl).Some? then NumberModifier(inp, pos, mods)
    else NotModifier
  }

  /** A reroll (`r`, `ro`) or an explosion (`!`, `!!`, `!p`) and its condition;
      the reroll condition defaults to `= 1`, the explosion one to `>= max`. */
  function ConditionModifier(inp: Input, pos: nat, mods: Modifiers): (s: Step)
    requires pos < |inp.toks|
    requires Lower(TextAt(inp, pos)) in ["r", "ro", "!", "!!", "!p"]
    ensures s.Read? ==> pos < s.next <= |inp.toks| && !s.last
    ensures s.Failed? ==> s.error.ParseError? && Located(inp, s.error)
  {
    var t := TextAt(inp, pos);
    var tl := Lower(t);
    if tl == "r" || tl == "ro" then
      match ParseCondition(inp, pos + 1, Eq, Num(1))
      case Err(e) => Failed(e)
      case Ok(c) => Read(mods.(reroll := Some(Reroll(tl == "ro", Comparison(c.value.0, c.value.1.n)))), c.next, false)
    else
      match ParseCondition(inp, pos + 1, Ge, Max)
      case Err(e) => Failed(e)
      case Ok(c) => Read(mods.(explode := Some(Explode('p' in tl, t == "!!", c.value.0, c.value.1))), c.next, false)
  }

  /** A keep or drop modifier, or a success comparator, each of which must be
      followed by a number; the comparator is the last modifier of the term. */
  function NumberModifier(inp: Input, pos: nat, mods: Modifiers): (s: Step)
    requires pos < |inp.toks|
    requires KeepKindOf(Lower(TextAt(inp, pos))).Some? || CompOpOf(Lower(TextAt(inp, pos))).Some?
    ensures s.Read? ==> pos < s.next <= |inp.toks|
    ensures s.Failed? ==> s.error.ParseError? && Located(inp, s.error)
    ensures s.Failed? <==> !DigitsAt(inp, pos + 1)
    ensures s.Read? && s.last <==> s.Read? && CompOpOf(Lower(TextAt(inp, pos))).Some?
  {
    var t := TextAt(inp, pos);
    var tl := Lower(t);
    if KeepKindOf(tl).Some? then
      if !DigitsAt(inp, pos + 1) then
        Failed(ParseError("Expected number after '" + tl + "'", ErrorPos(inp, pos + 1), inp.text))
      else
        Read(mods.(keep := Some(Keep(KeepKindOf(tl).value, DigitsValue(TextAt(inp, pos + 1))))), pos + 2, false)
    else
      if !DigitsAt(inp, pos + 1) then
        Failed(ParseError("Expected number after comparator '" + t + "'", ErrorPos(inp, pos + 1), inp.text))
      else
        Read(mods.(comparator := Some(Comparison(CompOpOf(tl).value, DigitsValue(TextAt(inp, pos + 1))))), pos + 2, true)
  }

  /** The loop of `parse_dice_modifiers` from cursor `pos`, with the modifiers read so
      far. It stops at the end, at a token that is no modifier, or after a success
      comparator. */
  function ModifierLoop(inp: Input, pos: nat, mods: Modifiers): (r: Result<Parsed<Modifiers>>)
    requires pos <= |inp.toks|
    decreases |inp.toks| - pos
    ensures Outcome(inp, pos, r, false)
    ensures r.Err? ==> r.error.ParseError?
  {
    if pos == |inp.toks| then Ok(Parsed(mods, pos))
    else
      match ReadModifier(inp, pos, mods)
      case NotModifier => Ok(Parsed(mods, pos))
      case Failed(e) => Err(e)
      case Read(m, next, last) => if last then Ok(Parsed(m, next)) else ModifierLoop(inp, next, m)
  }

  /** The number of sides and the kind of die that the text after the `d` spells:
      `%` or `00` for percentile dice, `f` or `f.2` for Fate dice, or a decimal
      number. Anything else is an error at `at`. */
  function DieSize(sidesText: string, at: nat, text: string): (r: Result<(nat, DieKind)>)
    ensures r.Ok? ==> (r.value.1 == Percentile <==> r.value.0 == 100 && sidesText in ["%", "00"])
    ensures r.Ok? ==> (r.value.1 == Fate <==> sidesText in ["f", "f.2"])
    ensures r.Ok? && r.value.1 == Fate ==> r.value.0 == 3
    ensures r.Ok? && r.value.1 == Standard ==> IsDigits(sidesText) && r.value.0 == DigitsValue(sidesText)
    ensures r.Err? <==> !IsDigits(sidesText) && sidesText !in ["%", "00", "f", "f.2"]
    ensures r.Err? ==> r.error == ParseError("Invalid dice sides '" + sidesText + "'", at, text)
  {
    if sidesText == "%" || sidesText == "00" then Ok((100, Percentile))
    else if sidesText == "f" || sidesText == "f.2" then Ok((3, Fate))
    else if IsDigits(sidesText) then Ok((DigitsValue(sidesText), Standard))
    else Err(ParseError("Invalid dice sides '" + sidesText + "'", at, text))
  }

  /** The size checks of `parse_dice`, in the order it makes them: the limits
      first, then the lower bounds. */
  function SizeError(count: nat, sides: nat): (e: Option<Error>)
    ensures e.None? <==> 1 <= count <= MAX_DICE && 1 <= sides <= MAX_SIDES
    ensures e.Some? ==> (e.value.LimitError? <==> count > MAX_DICE || sides > MAX_SIDES)
  {
    if count > MAX_DICE then Some(LimitError("Cannot roll more than 1000 dice per term"))
    else if sides > MAX_SIDES then Some(LimitError("Die cannot have more than 1000000000 sides"))
    else if count < 1 then Some(SemanticError("Must roll at least 1 die"))
    else if sides < 1 then Some(SemanticError("Die must have at least 1 side"))
    else None
  }

  /** `parse_dice`: an optional count, then the rest of the term. */
  function ParseDice(inp: Input, pos: nat): (r: Result<Parsed<Expr>>)
    requires pos <= |inp.toks|
    ensures Outcome(inp, pos, r, true)
    ensures r.Ok? ==> r.value.value.Dice?
    ensures r.Ok? ==> var d := r.value.value;
      && 1 <= d.count <= MAX_DICE && 1 <= d.sides <= MAX_SIDES
      && (d.kind == Percentile ==> d.sides == 100)
      && (d.kind == Fate ==> d.sides == 3)
  {
    if DigitsAt(inp, pos) then DieTerm(inp, pos + 1, DigitsValue(TextAt(inp, pos)))
    else DieTerm(inp, pos, 1)
  }

  /** The die token at `p` (its text after the `d` gives the size), the size
      checks for `count` dice, then the modifiers. */
  function DieTerm(inp: Input, p: nat, count: nat): (r: Result<Parsed<Expr>>)
    requires p <= |inp.toks|
    ensures Outcome(inp, p, r, true)
    ensures r.Ok? ==> r.value.value.Dice?
    ensures r.Ok? ==> var d := r.value.value;
      && d.count == count && 1 <= d.count <= MAX_DICE && 1 <= d.sides <= MAX_SIDES
      && (d.kind == Percentile ==> d.sides == 100)
      && (d.kind == Fate ==> d.sides == 3)
  {
    match ConsumeResult(inp.text, inp.toks, p, None)
    case Err(e) => Err(e)
    case Ok(die) =>
      if !StartsWithD(die) then
        Err(ParseError("Expected dice notation, got '" + die + "'", inp.toks[p].pos, inp.text))
      else
        match DieSize(Lower(die[1..]), inp.toks[p].pos, inp.text)
        case Err(e) => Err(e)
        case Ok(sk) =>
          if SizeError(count, sk.0).Some? then Err(SizeError(count, sk.0).value)
          else
            match ModifierLoop(inp, p + 1, NoModifiers)
            case Err(e) => Err(e)
            case Ok(m) => Ok(Parsed(Dice(count, sk.0, sk.1, m.value), m.next))
  }

  /** Whether the token at `pos` starts a dice term: a die token, or a number
      followed by one. */
  predicate DiceAhead(inp: Input, pos: nat)
    requires pos < |inp.toks|
  {
    StartsWithD(TextAt(inp, pos))
    || (IsDigits(TextAt(inp, pos)) && pos + 1 < |inp.toks| && StartsWithD(TextAt(inp, pos + 1)))
  }

  /** `parse_primary`: a dice term or a number. */
  function ParsePrimary(inp: Input, pos: nat): (r: Result<Parsed<Expr>>)
    requires pos <= |inp.toks|
    ensures Outcome(inp, pos, r, true)
  {
    if pos == |inp.toks| then
      Err(ParseError("Unexpected end of expression", |inp.text|, inp.text))
    else if DiceAhead(inp, pos) then
      ParseDice(inp, pos)
    else if IsDigits(TextAt(inp, pos)) then
      Ok(Parsed(Number(DigitsValue(TextAt(inp, pos))), pos + 1))
    else
      Err(ParseError("Unexpected token '" + TextAt(inp, pos) + "'", inp.toks[pos].pos, inp.text))
  }

  /** `parse_factor` with `depth` parentheses open: a negation, a parenthesised
      expression (refused past `MAX_RECURSION` levels), or a primary. */
  function ParseFactor(inp: Input, pos: nat, depth: nat): (r: Result<Parsed<Expr>>)
    requires pos <= |inp.toks|
    decreases |inp.toks| - pos, 1
    ensures Outcome(inp, pos, r, true)
  {
    if pos < |inp.toks| && TextAt(inp, pos) == "-" then
      match ParseFactor(inp, pos + 1, depth)
      case Err(e) => Err(e)
      case Ok(f) => Ok(Parsed(UnaryOp(f.value), f.next))
    else if pos < |inp.toks| && TextAt(inp, pos) == "(" then
      if depth + 1 > MAX_RECURSION then
        Err(LimitError("Exceeded maximum recursion depth of 32"))
      else
        match ParseExpr(inp, pos + 1, depth + 1)
        case Err(e) => Err(e)
        case Ok(x) =>
          match ConsumeResult(inp.text, inp.toks, x.next, Some(")"))
          case Err(e) => Err(e)
          case Ok(_) => Ok(Parsed(x.value, x.next + 1))
    else
      ParsePrimary(inp, pos)
  }

  /** `parse_term`. */
  function ParseTerm(inp: Input, pos: nat, depth: nat): (r: Result<Parsed<Expr>>)
    requires pos <= |inp.toks|
    decreases |inp.toks| - pos, 2
    ensures Outcome(inp, pos, r, true)
  {
    match ParseFactor(inp, pos, depth)
    case Err(e) => Err(e)
    case Ok(f) => TermTail(inp, f.value, f.next, depth)
  }

  function MulOpOf(s: string): Option<BinOp> {
    if s == "*" then Some(Mul) else if s == "/" then Some(Div) else None
  }

  function AddOpOf(s: string): Option<BinOp> {
    if s == "+" then Some(Add) else if s == "-" then Some(Sub) else None
  }

  /** The loop of `parse_term` after the first factor, folding to the left. */
  function TermTail(inp: Input, left: Expr, pos: nat, depth: nat): (r: Result<Parsed<Expr>>)
    requires pos <= |inp.toks|
    decreases |inp.toks| - pos, 0
    ensures Outcome(inp, pos, r, false)
  {
    if pos < |inp.toks| && MulOpOf(TextAt(inp, pos)).Some? then
      match ParseFactor(inp, pos + 1, depth)
      case Err(e) => Err(e)
      case Ok(f) => TermTail(inp, BinaryOp(MulOpOf(TextAt(inp, pos)).value, left, f.value), f.next, depth)
    else
      Ok(Parsed(left, pos))
  }

  /** `parse_expression`. */
  function ParseExpr(inp: Input, pos: nat, depth: nat): (r: Result<Parsed<Expr>>)
    requires pos <= |inp.toks|
    decreases |inp.toks| - pos, 3
    ensures Outcome(inp, pos, r, true)
  {
    match ParseTerm(inp, pos, depth)
    case Err(e) => Err(e)
    case Ok(t) => ExprTail(inp, t.value, t.next, depth)
  }

  /** The loop of `parse_expression` after the first term, folding to the left. */
  function ExprTail(inp: Input, left: Expr, pos: nat, depth: nat): (r: Result<Parsed<Expr>>)
    requires pos <= |inp.toks|
    decreases |inp.toks| - pos, 0
    ensures Outcome(inp, pos, r, false)
  {
    if pos < |inp.toks| && AddOpOf(TextAt(inp, pos)).Some? then
      match ParseTerm(inp, pos + 1, depth)
      case Err(e) => Err(e)
      case Ok(t) => ExprTail(inp, BinaryOp(AddOpOf(TextAt(inp, pos)).value, left, t.value), t.next, depth)
    else
      Ok(Parsed(left, pos))
  }

  /** `parse`: a whole expression and nothing after it. */
  function ParseTop(inp: Input): (r: Result<Expr>)
    ensures r.Err? ==> Located(inp, r.error) || |inp.toks| == 0
    ensures |inp.toks| == 0 ==> r == Err(ParseError("Empty expression", 0, inp.text))
    ensures var x := ParseExpr(inp, 0, 0);
      |inp.toks| > 0 && x.Ok? && x.value.next < |inp.toks| ==>
        r == Err(ParseError("Unexpected token '" + TextAt(inp, x.value.next) + "' after expression",
          inp.toks[x.value.next].pos, inp.text))
    ensures r.Ok? ==> |inp.toks| > 0 && ParseExpr(inp, 0, 0) == Ok(Parsed(r.value, |inp.toks|))
  {
    if |inp.toks| == 0 then Err(ParseError("Empty expression", 0, inp.text))
    else
      match ParseExpr(inp, 0, 0)
      case Err(e) => Err(e)
      case Ok(x) =>
        if x.next < |inp.toks| then
          Err(ParseError("Unexpected token '" + TextAt(inp, x.next) + "' after expression",
            inp.toks[x.next].pos, inp.text))
        else
          Ok(x.value)
  }

  /** The tokens of an expression, read from its stripped text. */
  function Tokens(expression: string): Input {
    var text := Strip(expression);
    Input(Scan(text, 0), text)
  }

  /** `DiceParser(expression).parse()`. */
  function Parse(expression: string): Result<Expr> {
    ParseTop(Tokens(expression))
  }
}
