/** Shared vocabulary of the dice roller: safety limits, errors, tokens, the AST,
    die rolls and per-term traces, and decimal conversion of naturals. */
module DiceTypes {

  const VERSION: string := "dice-1.0.0"

  // Safety limits (dice_roller.py:16-21).
  const MAX_DICE: nat := 1000
  const MAX_SIDES: nat := 1000000000
  const MAX_EXPLOSIONS: nat := 100
  const MAX_REROLLS: nat := 10000
  const MAX_RECURSION: nat := 32

  datatype Option<T> = None | Some(value: T)

  /** The exception classes the core raises. `DiceError` is the base class, raised
      directly only for division by zero; `ValueError` is Python's built-in, raised
      by the die roller for a die without sides. */
  datatype Error =
    | ParseError(message: string, position: nat, input: string)
    | SemanticError(message: string)
    | LimitError(message: string)
    | DiceError(message: string)
    | ValueError(message: string)

  datatype Result<T> = Ok(value: T) | Err(error: Error)

  /** A token keeps its text and its start offset in the stripped input. */
  datatype Token = Token(text: string, pos: nat)

  datatype CompOp = Eq | Gt | Ge | Lt | Le

  /** The comparator a token spells, among `>=`, `<=`, `=`, `>` and `<`. */
  function CompOpOf(s: string): (op: Option<CompOp>)
    ensures op.Some? <==> s in [">=", "<=", "=", ">", "<"]
  {
    if s == ">=" then Some(Ge)
    else if s == "<=" then Some(Le)
    else if s == "=" then Some(Eq)
    else if s == ">" then Some(Gt)
    else if s == "<" then Some(Lt)
    else None
  }

  /** The text of a comparator, as the condition dictionaries store it. */
  function OpText(op: CompOp): (s: string)
    ensures CompOpOf(s) == Some(op)
  {
    match op
    case Eq => "="
    case Gt => ">"
    case Ge => ">="
    case Lt => "<"
    case Le => "<="
  }

  /** A parsed threshold: a number, or the explosion default `'max'`. */
  datatype Threshold = Num(n: nat) | Max

  /** A condition whose threshold is a number (reroll conditions, success
      comparators, and explosion conditions once `'max'` is resolved). */
  datatype Comparison = Comparison(op: CompOp, value: nat)

  datatype Reroll = Reroll(once: bool, cond: Comparison)
  datatype Explode = Explode(penetrating: bool, compound: bool, op: CompOp, threshold: Threshold)
  datatype KeepKind = KeepHigh | KeepLow | DropHigh | DropLow
  datatype Keep = Keep(kind: KeepKind, count: nat)
  datatype SortDir = Ascending | Descending

  /** The modifier dictionary of a dice term; a later modifier of a kind replaces
      an earlier one, as the dictionary assignment does. */
  datatype Modifiers = Modifiers(
    reroll: Option<Reroll>,
    explode: Option<Explode>,
    keep: Option<Keep>,
    sort: Option<SortDir>,
    comparator: Option<Comparison>)

  const NoModifiers: Modifiers := Modifiers(None, None, None, None, None)

  datatype DieKind = Standard | Percentile | Fate
  datatype BinOp = Add | Sub | Mul | Div

  /** The AST. The only unary operator of the grammar is `-`. */
  datatype Expr =
    | Number(n: nat)
    | BinaryOp(op: BinOp, left: Expr, right: Expr)
    | UnaryOp(operand: Expr)
    | Dice(count: nat, sides: nat, kind: DieKind, mods: Modifiers)

  /** One physical die: its current value, the values it superseded by rerolls,
      its explosion increments, and its success mark. */
  datatype DieRoll = DieRoll(value: int, rerolls: seq<int>, explodes: seq<int>, success: Option<bool>)

  datatype DiceTrace = DiceTrace(
    term: string,
    rolls: seq<DieRoll>,
    keptValues: Option<seq<int>>,
    sum: Option<int>,
    threshold: Option<string>,
    successes: Option<nat>)

  predicate IsDigit(c: char) {
    '0' <= c <= '9'
  }

  /** Python's `str.isdigit` over ASCII: non-empty and all digits. */
  predicate IsDigits(s: string) {
    |s| > 0 && forall i :: 0 <= i < |s| ==> IsDigit(s[i])
  }

  /** Python's `int(s)` on a string of decimal digits (leading zeros allowed). */
  function DigitsValue(s: string): nat
    requires forall i :: 0 <= i < |s| ==> IsDigit(s[i])
  {
    if s == [] then 0
    else assert IsDigit(s[|s| - 1]); DigitsValue(s[..|s| - 1]) * 10 + (s[|s| - 1] as int - '0' as int) as nat
  }

  /** Python's `str(n)` for a natural number. */
  function NatToString(n: nat): (s: string)
    ensures IsDigits(s)
  {
    if n < 10 then ["0123456789"[n]]
    else NatToString(n / 10) + ["0123456789"[n % 10]]
  }

  lemma {:induction false} DigitsRoundTrip(n: nat)
    ensures DigitsValue(NatToString(n)) == n
  {
    var s := NatToString(n);
    if n >= 10 {
      DigitsRoundTrip(n / 10);
      assert s[..|s| - 1] == NatToString(n / 10);
    }
  }

  /** ASCII lower-casing, as `str.lower` does on ASCII text. */
  function LowerChar(c: char): char {
    if 'A' <= c <= 'Z' then (c as int + 32) as char else c
  }

  function Lower(s: string): (r: string)
    ensures |r| == |s|
    ensures forall i :: 0 <= i < |s| ==> r[i] == LowerChar(s[i])
  {
    seq(|s|, i requires 0 <= i < |s| => LowerChar(s[i]))
  }
}
