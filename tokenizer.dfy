/** The tokenizer of dice notation (`Tokenizer`, dice_roller.py:148-215). The regular
    expression `TOKEN_PATTERN` is modelled by `MatchAt`, which tries its nine
    alternatives in order at one offset, case-insensitively; `Scan` is `finditer`,
    which skips a character no alternative matches. */
module Lexer {
  import opened DiceTypes

  /** Python's whitespace (`\s` in a text pattern, `str.isspace`, `str.strip`) within
      the Latin-1 range. */
  predicate IsSpace(c: char) {
    var n := c as int;
    n == 0x20 || 0x09 <= n <= 0x0d || 0x1c <= n <= 0x1f || n == 0x85 || n == 0xa0
  }

  /** Number of leading whitespace characters of `s`. */
  function LeadingSpaces(s: string): (n: nat)
    ensures n <= |s|
    ensures forall k :: 0 <= k < n ==> IsSpace(s[k])
    ensures n < |s| ==> !IsSpace(s[n])
  {
    if s == [] || !IsSpace(s[0]) then 0 else 1 + LeadingSpaces(s[1..])
  }

  /** Number of trailing whitespace characters of `s`. */
  function TrailingSpaces(s: string): (n: nat)
    ensures n <= |s|
    ensures forall k :: |s| - n <= k < |s| ==> IsSpace(s[k])
    ensures n < |s| ==> !IsSpace(s[|s| - n - 1])
  {
    if s == [] || !IsSpace(s[|s| - 1]) then 0 else 1 + TrailingSpaces(s[..|s| - 1])
  }

  /** `str.strip()`: the input without its leading and trailing whitespace. */
  function Strip(s: string): (r: string)
    ensures |r| <= |s|
    ensures r == [] || (!IsSpace(r[0]) && !IsSpace(r[|r| - 1]))
    ensures LeadingSpaces(s) + |r| <= |s|
    ensures r == s[LeadingSpaces(s)..LeadingSpaces(s) + |r|]
    ensures forall k :: LeadingSpaces(s) + |r| <= k < |s| ==> IsSpace(s[k])
  {
    var a := LeadingSpaces(s);
    var b := TrailingSpaces(s[a..]);
    StripEnds(s, a, b);
    s[a..|s| - b]
  }

  /** What is left between `a` leading characters that end before a non-space and
      `b` trailing whitespace characters of `s[a..]` starts and ends with a
      non-whitespace character, and only whitespace follows it. */
  lemma StripEnds(s: string, a: nat, b: nat)
    requires a <= |s| && (a < |s| ==> !IsSpace(s[a]))
    requires b <= |s| - a
    requires forall k :: |s| - a - b <= k < |s| - a ==> IsSpace(s[a..][k])
    requires b < |s| - a ==> !IsSpace(s[a..][|s| - a - b - 1])
    ensures a + b < |s| ==> !IsSpace(s[a]) && !IsSpace(s[|s| - b - 1])
    ensures forall k :: |s| - b <= k < |s| ==> IsSpace(s[k])
  {
    forall k | |s| - b <= k < |s|
      ensures IsSpace(s[k])
    {
      assert s[k] == s[a..][k - a];
    }
    if a + b < |s| {
      assert s[|s| - b - 1] == s[a..][|s| - a - b - 1];
    }
  }

  /** Text that neither starts nor ends with whitespace is its own stripped text. */
  lemma StripUnspaced(s: string)
    requires |s| > 0 && !IsSpace(s[0]) && !IsSpace(s[|s| - 1])
    ensures Strip(s) == s
  {
    assert LeadingSpaces(s) == 0;
  }

  /** Length of the run of decimal digits starting at `i`. */
  function DigitRun(text: string, i: nat): (n: nat)
    requires i <= |text|
    decreases |text| - i
    ensures i + n <= |text|
    ensures forall k :: i <= k < i + n ==> IsDigit(text[k])
    ensures i + n < |text| ==> !IsDigit(text[i + n])
  {
    if i < |text| && IsDigit(text[i]) then 1 + DigitRun(text, i + 1) else 0
  }

  /** Length of the run of whitespace starting at `i`. */
  function SpaceRun(text: string, i: nat): (n: nat)
    requires i <= |text|
    decreases |text| - i
    ensures i + n <= |text|
    ensures forall k :: i <= k < i + n ==> IsSpace(text[k])
  {
    if i < |text| && IsSpace(text[i]) then 1 + SpaceRun(text, i + 1) else 0
  }

  /** Length of the rest of the line starting at `i` (`[^\n]*`). */
  function LineRun(text: string, i: nat): (n: nat)
    requires i <= |text|
    decreases |text| - i
    ensures i + n <= |text|
    ensures forall k :: i <= k < i + n ==> text[k] != '\n'
  {
    if i < |text| && text[i] != '\n' then 1 + LineRun(text, i + 1) else 0
  }

  /** A match of `TOKEN_PATTERN`: its length, and whether it is whitespace or a
      comment (groups 9 and 8), which the tokenizer drops. */
  datatype Lexeme = Lexeme(len: nat, skip: bool)

  /** Whether the character at `i` exists and lower-cases to one of `cs`. */
  predicate LowerAt(text: string, i: nat, cs: string) {
    i < |text| && LowerChar(text[i]) in cs
  }

  /** The match of `TOKEN_PATTERN` at offset `i`, trying the alternatives in the
      order the pattern lists them, or `None` when none matches there. */
  function MatchAt(text: string, i: nat): (m: Option<Lexeme>)
    requires i < |text|
    ensures m.Some? ==> 1 <= m.value.len <= |text| - i
    ensures m.Some? && m.value.skip ==> text[i] == '#' || IsSpace(text[i])
  {
    var c := text[i];
    var lc := LowerChar(c);
    if IsDigit(c) then
      Some(Lexeme(DigitRun(text, i), false))
    else if lc == 'd' && LowerAt(text, i + 1, "%f") then
      Some(Lexeme(2, false))
    else if lc == 'd' && i + 1 < |text| && IsDigit(text[i + 1]) then
      Some(Lexeme(1 + DigitRun(text, i + 1), false))
    else if (lc == 'k' || lc == 'd') && LowerAt(text, i + 1, "hl") then
      Some(Lexeme(2, false))
    else if lc == 'r' then
      Some(Lexeme(if LowerAt(text, i + 1, "o") then 2 else 1, false))
    else if c == '!' then
      var bangs := if i + 1 < |text| && text[i + 1] == '!' then 2 else 1;
      Some(Lexeme(if LowerAt(text, i + bangs, "p") then bangs + 1 else bangs, false))
    else if (c == '>' || c == '<') && i + 1 < |text| && text[i + 1] == '=' then
      Some(Lexeme(2, false))
    else if c == '=' || c == '>' || c == '<' then
      Some(Lexeme(1, false))
    else if lc == 's' && LowerAt(text, i + 1, "ad") then
      Some(Lexeme(2, false))
    else if c in "+-*/()" then
      Some(Lexeme(1, false))
    else if c == '#' then
      Some(Lexeme(1 + LineRun(text, i + 1), true))
    else if IsSpace(c) then
      Some(Lexeme(SpaceRun(text, i), true))
    else
      None
  }

  /** The token a match at `i` contributes: none for whitespace and comments. */
  function Kept(text: string, i: nat, m: Lexeme): seq<Token>
    requires i + m.len <= |text|
  {
    if m.skip then [] else [Token(text[i..i + m.len], i)]
  }

  /** `finditer` from offset `i`, keeping the tokens that are not skipped. */
  function Scan(text: string, i: nat): seq<Token>
    requires i <= |text|
    decreases |text| - i
  {
    if i == |text| then []
    else match MatchAt(text, i)
      case None => Scan(text, i + 1)
      case Some(m) => Kept(text, i, m) + Scan(text, i + m.len)
  }

  /** Where `finditer` resumes after offset `i`. */
  function Resume(text: string, i: nat): (j: nat)
    requires i < |text|
    ensures i < j <= |text|
  {
    match MatchAt(text, i)
    case None => i + 1
    case Some(m) => i + m.len
  }

  /** What offset `i` contributes to the tokens. */
  function KeptAt(text: string, i: nat): seq<Token>
    requires i < |text|
  {
    match MatchAt(text, i)
    case None => []
    case Some(m) => Kept(text, i, m)
  }

  lemma ScanStep(text: string, i: nat)
    requires i < |text|
    ensures Scan(text, i) == KeptAt(text, i) + Scan(text, Resume(text, i))
  {
    if MatchAt(text, i).None? {
      assert KeptAt(text, i) + Scan(text, i + 1) == Scan(text, i + 1);
    }
  }

  /** A token is the slice of the text at its offset, and it is not empty. */
  predicate InText(text: string, t: Token) {
    0 < |t.text| && t.pos + |t.text| <= |text| && text[t.pos..t.pos + |t.text|] == t.text
  }

  /** Tokens appear in text order without overlapping. */
  predicate Ordered(toks: seq<Token>) {
    forall a, b :: 0 <= a < b < |toks| ==> toks[a].pos + |toks[a].text| <= toks[b].pos
  }

  /** The tokens from offset `i` on are slices of the text, in order, at or after `i`,
      none of them starting with whitespace or a comment. */
  predicate WellFormedFrom(text: string, i: nat, toks: seq<Token>) {
    && Ordered(toks)
    && forall k :: 0 <= k < |toks| ==>
      && i <= toks[k].pos
      && InText(text, toks[k])
      && toks[k].text[0] != '#' && !IsSpace(toks[k].text[0])
  }

  /** What offset `i` contributes is nothing, or the one slice up to where the scan
      resumes, which starts with neither whitespace nor `#`. */
  lemma KeptToken(text: string, i: nat)
    requires i < |text|
    ensures var kept := KeptAt(text, i);
      || kept == []
      || (kept == [Token(text[i..Resume(text, i)], i)] && text[i] != '#' && !IsSpace(text[i]))
  {
  }

  lemma PrependKept(text: string, i: nat, rest: seq<Token>)
    requires i < |text|
    requires WellFormedFrom(text, Resume(text, i), rest)
    ensures WellFormedFrom(text, i, KeptAt(text, i) + rest)
  {
    KeptToken(text, i);
    var kept := KeptAt(text, i);
    if kept != [] {
      var toks := kept + rest;
      assert toks[0].text[0] == text[i];
      forall a, b | 0 <= a < b < |toks|
        ensures toks[a].pos + |toks[a].text| <= toks[b].pos
      {
        if a == 0 {
          assert toks[b] == rest[b - 1];
        } else {
          assert toks[a] == rest[a - 1] && toks[b] == rest[b - 1];
        }
      }
    }
  }

  /** What `finditer` yields is well formed from the offset it starts at. */
  lemma {:induction false} ScanWellFormed(text: string, i: nat)
    requires i <= |text|
    decreases |text| - i
    ensures WellFormedFrom(text, i, Scan(text, i))
  {
    if i < |text| {
      ScanWellFormed(text, Resume(text, i));
      ScanStep(text, i);
      PrependKept(text, i, Scan(text, Resume(text, i)));
    }
  }

  /** A number token is a maximal run of digits: the next character is not a digit. */
  lemma NumberTokenMaximal(text: string, i: nat)
    requires i < |text| && IsDigit(text[i])
    ensures var m := MatchAt(text, i);
      && m == Some(Lexeme(m.value.len, false))
      && IsDigits(text[i..i + m.value.len])
      && (i + m.value.len < |text| ==> !IsDigit(text[i + m.value.len]))
  {
  }

  /** Appending the token kept at `at` and resuming after it leaves the tokens
      still to come, joined to those already collected, unchanged. */
  lemma ScanAdvance(text: string, at: nat, before: seq<Token>, after: seq<Token>, next: nat)
    requires at < |text|
    requires after == before + KeptAt(text, at)
    requires next == Resume(text, at)
    ensures before + Scan(text, at) == after + Scan(text, next)
  {
    ScanStep(text, at);
    JoinAssoc(before, KeptAt(text, at), Scan(text, next), Scan(text, at));
  }

  lemma JoinAssoc<T>(a: seq<T>, b: seq<T>, c: seq<T>, bc: seq<T>)
    requires bc == b + c
    ensures a + bc == (a + b) + c
  {
  }

  /** The tokenizer: the stripped text, its tokens, and a cursor into them. */
  class Tokenizer {
    const text: string
    var tokens: seq<Token>
    var position: nat

    constructor (input: string)
      ensures text == Strip(input)
      ensures tokens == Scan(text, 0)
      ensures position == 0
    {
      text := Strip(input);
      tokens := [];
      position := 0;
      new;
      Tokenize();
    }

    /** `_tokenize`: appends the kept matches of `finditer` to `tokens`. */
    method Tokenize()
      modifies this`tokens
      ensures tokens == old(tokens) + Scan(text, 0)
    {
      var i := 0;
      while i < |text|
        invariant i <= |text|
        invariant old(tokens) + Scan(text, 0) == tokens + Scan(text, i)
        decreases |text| - i
      {
        ghost var before, at := tokens, i;
        i := Append(i);
        ScanAdvance(text, at, before, tokens, i);
      }
    }

    /** One match of `finditer` at offset `i`: the token it yields, if it is kept,
        goes onto `tokens`; the scan resumes after it. */
    method Append(i: nat) returns (j: nat)
      requires i < |text|
      modifies this`tokens
      ensures tokens == old(tokens) + KeptAt(text, i)
      ensures j == Resume(text, i)
    {
      match MatchAt(text, i)
      case None =>
        j := i + 1;
      case Some(m) =>
        if !m.skip {
          tokens := tokens + [Token(text[i..i + m.len], i)];
        }
        j := i + m.len;
    }

    /** `peek(offset)`: the text of the token `offset` places past the cursor. */
    function Peek(offset: nat): (t: Option<string>)
      reads this
      ensures t.Some? <==> position + offset < |tokens|
      ensures t.Some? ==> t.value == tokens[position + offset].text
    {
      if position + offset < |tokens| then Some(tokens[position + offset].text) else None
    }

    /** `at_end`. */
    function AtEnd(): (b: bool)
      reads this
      ensures b <==> Peek(0).None?
    {
      position >= |tokens|
    }

    /** `consume(expected)`: the next token, which must match `expected` ignoring
        case when one is given; the cursor moves past a mismatched token too. */
    method Consume(expected: Option<string>) returns (r: Result<string>)
      modifies this`position
      ensures r == ConsumeResult(text, tokens, old(position), expected)
      ensures position == if old(position) < |tokens| then old(position) + 1 else old(position)
    {
      r := ConsumeResult(text, tokens, position, expected);
      if position < |tokens| {
        position := position + 1;
      }
    }
  }

  /** Python truthiness of the optional `expected` argument. */
  predicate Given(expected: Option<string>) {
    expected.Some? && expected.value != ""
  }

  /** The outcome of `consume` at cursor `pos`. */
  function ConsumeResult(text: string, toks: seq<Token>, pos: nat, expected: Option<string>)
    : (r: Result<string>)
    ensures pos >= |toks| ==> r.Err? && r.error.ParseError? && r.error.position == |text|
    ensures r.Ok? <==>
      pos < |toks| && (!Given(expected) || Lower(toks[pos].text) == Lower(expected.value))
    ensures r.Ok? ==> r.value == toks[pos].text
    ensures r.Err? && pos < |toks| ==> r.error == ParseError(
      "Expected '" + expected.value + "' but got '" + toks[pos].text + "'", toks[pos].pos, text)
  {
    if pos >= |toks| then
      if Given(expected) then
        Err(ParseError("Expected '" + expected.value + "' but reached end of input", |text|, text))
      else
        Err(ParseError("Unexpected end of input", |text|, text))
    else if Given(expected) && Lower(toks[pos].text) != Lower(expected.value) then
      Err(ParseError(
        "Expected '" + expected.value + "' but got '" + toks[pos].text + "'", toks[pos].pos, text))
    else
      Ok(toks[pos].text)
  }

  /** `"invalid"` holds no token: every letter is unmatched, and the final `d` has
      nothing after it. */
  lemma InvalidHasNoTokens(s: string)
    requires s == "invalid"
    ensures Scan(s, 0) == []
  {
    InvalidTail(s);
    NoMatch(s, 2);
    NoMatch(s, 1);
    NoMatch(s, 0);
  }

  lemma InvalidTail(s: string)
    requires s == "invalid"
    ensures Scan(s, 3) == []
  {
    FinalD(s);
    NoMatch(s, 5);
    NoMatch(s, 4);
    NoMatch(s, 3);
  }

  /** A final `d` is not a dice operator: nothing follows it. */
  lemma FinalD(s: string)
    requires |s| > 0 && s[|s| - 1] == 'd'
    ensures Scan(s, |s| - 1) == []
  {
    assert MatchAt(s, |s| - 1) == None;
  }

  /** A lower-case letter that starts no alternative of the pattern adds no token. */
  lemma NoMatch(text: string, i: nat)
    requires i < |text|
    requires 'a' <= text[i] <= 'z' && text[i] != 'd' && text[i] != 'k'
    requires text[i] != 'r' && text[i] != 's'
    ensures Scan(text, i) == Scan(text, i + 1)
  {
    assert MatchAt(text, i) == None;
  }
}
