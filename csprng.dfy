/** The secure die source (`CSPRNG.roll_die`, dice_roller.py:105-145): rejection
    sampling over big-endian blocks of secure random bytes. The entropy itself is an
    oracle: a stream of bytes for `secrets.token_bytes` and a range-bounded answer
    function for the `secrets.randbelow` fallback. */
module Csprng {
  import opened DiceTypes

  /** Rejected draws before the fallback is used (dice_roller.py:137). */
  const MAX_ATTEMPTS: nat := 10000

  function Pow(base: nat, e: nat): (p: nat)
    ensures base >= 1 ==> p >= 1
  {
    if e == 0 then 1 else base * Pow(base, e - 1)
  }

  lemma {:induction false} PowMonotone(base: nat, e1: nat, e2: nat)
    requires base >= 1 && e1 <= e2
    ensures Pow(base, e1) <= Pow(base, e2)
  {
    if e1 < e2 {
      PowMonotone(base, e1, e2 - 1);
      assert Pow(base, e2) == base * Pow(base, e2 - 1) >= Pow(base, e2 - 1);
    }
  }

  /** Python's `int.bit_length` on a natural number. */
  function BitLength(n: nat): nat {
    if n == 0 then 0 else 1 + BitLength(n / 2)
  }

  lemma {:induction false} BitLengthBound(n: nat)
    ensures n < Pow(2, BitLength(n))
  {
    if n > 0 {
      BitLengthBound(n / 2);
    }
  }

  /** `bytes_needed`: whole bytes covering the bit length of `sides`. */
  function ByteWidth(sides: nat): nat {
    (BitLength(sides) + 7) / 8
  }

  /** `max_value = 1 << (bytes_needed * 8)`. */
  function MaxValue(sides: nat): nat {
    Pow(2, ByteWidth(sides) * 8)
  }

  /** `bound = (max_value // sides) * sides`: the largest multiple of `sides`
      not above `max_value`. */
  function Bound(sides: nat): nat
    requires sides >= 1
  {
    (MaxValue(sides) / sides) * sides
  }

  lemma MulMonotone(a: int, b: int, c: nat)
    requires a <= b
    ensures a * c <= b * c
  {
    assert b * c - a * c == (b - a) * c;
  }

  lemma DivModBlock(k: nat, s: nat, j: nat)
    requires j < s
    ensures (k * s + j) / s == k && (k * s + j) % s == j
  {
    var n := k * s + j;
    var q, r := n / s, n % s;
    assert n == q * s + r;
    var d := q - k;
    assert d * s == j - r by {
      assert q * s - k * s == (q - k) * s;
    }
    if d >= 1 {
      MulMonotone(1, d, s);
    } else if d <= -1 {
      MulMonotone(d, -1, s);
    }
  }

  /** `max_value` is at least `sides`: the byte width covers every bit of `sides`. */
  lemma SidesFit(sides: nat)
    ensures sides < MaxValue(sides)
  {
    var bits := BitLength(sides);
    assert bits <= (bits + 7) / 8 * 8;
    BitLengthBound(sides);
    PowMonotone(2, bits, ByteWidth(sides) * 8);
  }

  /** Rounding `m` down to a multiple of `s`. */
  lemma RoundDown(m: nat, s: nat)
    requires 1 <= s <= m
    ensures (m / s) * s % s == 0 && (m / s) * s / s == m / s
    ensures s <= (m / s) * s <= m
  {
    var q := m / s;
    assert m == q * s + m % s;
    assert q >= 1;
    DivModBlock(q, s, 0);
    MulMonotone(1, q, s);
  }

  lemma BoundProperties(sides: nat)
    requires 1 <= sides
    ensures Bound(sides) % sides == 0
    ensures sides <= Bound(sides) <= MaxValue(sides)
    ensures Bound(sides) / sides == MaxValue(sides) / sides
  {
    SidesFit(sides);
    RoundDown(MaxValue(sides), sides);
  }

  /** `int.from_bytes(bs, byteorder='big')`. */
  function FromBytes(bs: seq<bv8>): nat {
    BigEndian(bs, |bs|)
  }

  /** The big-endian value of the first `k` bytes of `bs`. */
  function BigEndian(bs: seq<bv8>, k: nat): nat
    requires k <= |bs|
  {
    if k == 0 then 0 else BigEndian(bs, k - 1) * 256 + bs[k - 1] as nat
  }

  /** A block of `n` bytes reads as a number below `2^(8n)`, the `max_value` of a
      block as wide as `bytes_needed`. */
  lemma FromBytesBound(bs: seq<bv8>)
    ensures FromBytes(bs) < Pow(2, |bs| * 8)
  {
    BigEndianBound(bs, |bs|);
  }

  lemma {:induction false} BigEndianBound(bs: seq<bv8>, k: nat)
    requires k <= |bs|
    ensures BigEndian(bs, k) < Pow(2, k * 8)
  {
    if k > 0 {
      BigEndianBound(bs, k - 1);
      var p := Pow(2, (k - 1) * 8);
      PowShift(k - 1);
      assert BigEndian(bs, k - 1) + 1 <= p;
      MulMonotone(BigEndian(bs, k - 1) + 1, p, 256);
    }
  }

  lemma {:induction false} PowShift(e: nat)
    ensures Pow(2, (e + 1) * 8) == Pow(2, e * 8) * 256
  {
    var p := Pow(2, e * 8);
    calc {
      Pow(2, (e + 1) * 8);
      { assert (e + 1) * 8 == e * 8 + 8; }
      Pow(2, e * 8 + 8);
      { PowUnfold8(e * 8); }
      p * 256;
    }
  }

  lemma PowUnfold8(e: nat)
    ensures Pow(2, e + 8) == Pow(2, e) * 256
  {
    var p := Pow(2, e);
    assert Pow(2, e + 1) == 2 * p;
    assert Pow(2, e + 2) == 4 * p;
    assert Pow(2, e + 3) == 8 * p;
    assert Pow(2, e + 4) == 16 * p;
    assert Pow(2, e + 5) == 32 * p;
    assert Pow(2, e + 6) == 64 * p;
    assert Pow(2, e + 7) == 128 * p;
  }

  /** How many draws `v` in `[0, n)` the roller maps to `face` by `v % sides + 1`. */
  function Preimages(n: nat, sides: nat, face: int): nat
    requires sides >= 1
  {
    if n == 0 then 0
    else Preimages(n - 1, sides, face) + (if (n - 1) % sides + 1 == face then 1 else 0)
  }

  /** How `n / s` and `n % s` move when `n` grows by one. */
  lemma DivModSucc(n: nat, s: nat)
    requires s >= 1
    ensures n % s + 1 < s ==> (n + 1) / s == n / s && (n + 1) % s == n % s + 1
    ensures n % s + 1 == s ==> (n + 1) / s == n / s + 1 && (n + 1) % s == 0
  {
    var q, r := n / s, n % s;
    assert n == q * s + r;
    if r + 1 < s {
      DivModBlock(q, s, r + 1);
    } else {
      assert n + 1 == (q + 1) * s by {
        assert (q + 1) * s == q * s + s;
      }
      DivModBlock(q + 1, s, 0);
    }
  }

  /** Below any `n`, a face has one preimage per complete block of `sides` draws, plus
      one more if the incomplete block reaches it. */
  lemma {:induction false} PreimagesCount(n: nat, sides: nat, face: int)
    requires 1 <= face <= sides
    ensures Preimages(n, sides, face) == n / sides + (if n % sides >= face then 1 else 0)
  {
    if n > 0 {
      var m := n - 1;
      PreimagesCount(m, sides, face);
      DivModSucc(m, sides);
      var q, r := m / sides, m % sides;
      assert Preimages(n, sides, face) == Preimages(m, sides, face) + (if r + 1 == face then 1 else 0);
      if r + 1 < sides {
        assert n / sides == q && n % sides == r + 1;
      } else {
        assert n / sides == q + 1 && n % sides == 0;
      }
    }
  }

  /** No modulo bias: among the accepted draws `v < bound`, every face has exactly
      `bound / sides` preimages. */
  lemma Unbiased(sides: nat, face: int)
    requires 1 <= face <= sides
    ensures Preimages(Bound(sides), sides, face) == Bound(sides) / sides
  {
    BoundProperties(sides);
    PreimagesCount(Bound(sides), sides, face);
  }

  /** The bytes `token_bytes(n)` returns when the stream cursor is at `at`. */
  function Bytes(pool: nat -> bv8, at: nat, n: nat): (bs: seq<bv8>)
    ensures |bs| == n
  {
    seq(n, i requires 0 <= i < n => pool(at + i))
  }

  datatype Draw = Accepted(face: int, next: nat) | Exhausted(next: nat)

  /** The face a block value `v` stands for: `v % sides + 1`. */
  function FaceOf(v: nat, sides: nat): (face: int)
    requires sides >= 1
    ensures 1 <= face <= sides
  {
    v % sides + 1
  }

  /** The rejection loop of `roll_die` from attempt `attempts` with the byte cursor
      at `at`: an accepted face and the cursor after it, or exhaustion. */
  function Rejection(pool: nat -> bv8, at: nat, sides: nat, attempts: nat): (d: Draw)
    requires 2 <= sides
    decreases MAX_ATTEMPTS - attempts, 1
    ensures d.next >= at
    ensures d.Accepted? ==> 1 <= d.face <= sides
  {
    if attempts >= MAX_ATTEMPTS then Exhausted(at) else Attempt(pool, at, sides, attempts)
  }

  /** One pass of the loop body: the block drawn at `at` is accepted below the
      bound, and otherwise the loop goes on past it. */
  function Attempt(pool: nat -> bv8, at: nat, sides: nat, attempts: nat): (d: Draw)
    requires 2 <= sides && attempts < MAX_ATTEMPTS
    decreases MAX_ATTEMPTS - attempts, 0
    ensures d.next >= at
    ensures d.Accepted? ==> 1 <= d.face <= sides
  {
    var width := ByteWidth(sides);
    var v := FromBytes(Bytes(pool, at, width));
    if v < Bound(sides) then Accepted(FaceOf(v, sides), at + width)
    else Rejection(pool, at + width, sides, attempts + 1)
  }

  /** An accepted face comes from the last block drawn, which lies below the bound;
      so by `Unbiased` every face is reached by equally many accepted blocks. */
  lemma {:induction false} RejectionAccepts(pool: nat -> bv8, at: nat, sides: nat, attempts: nat)
    requires 2 <= sides
    requires Rejection(pool, at, sides, attempts).Accepted?
    decreases MAX_ATTEMPTS - attempts
    ensures var d := Rejection(pool, at, sides, attempts);
      && d.next >= at + ByteWidth(sides)
      && var v := FromBytes(Bytes(pool, d.next - ByteWidth(sides), ByteWidth(sides)));
      && v < Bound(sides)
      && d.face == v % sides + 1
  {
    var width := ByteWidth(sides);
    var v := FromBytes(Bytes(pool, at, width));
    assert Rejection(pool, at, sides, attempts) == Attempt(pool, at, sides, attempts);
    if v >= Bound(sides) {
      RejectionAccepts(pool, at + width, sides, attempts + 1);
    }
  }

  /** One attempt of the rejection loop: the block `v` drawn at `at` is accepted
      below the bound, and otherwise the loop moves on past it. */
  lemma RejectionStep(pool: nat -> bv8, at: nat, sides: nat, attempts: nat, v: nat)
    requires 2 <= sides && attempts < MAX_ATTEMPTS
    requires v == FromBytes(Bytes(pool, at, ByteWidth(sides)))
    ensures v < Bound(sides) ==>
      Rejection(pool, at, sides, attempts) == Accepted(FaceOf(v, sides), at + ByteWidth(sides))
    ensures v >= Bound(sides) ==>
      Rejection(pool, at, sides, attempts) == Rejection(pool, at + ByteWidth(sides), sides, attempts + 1)
  {
    assert Rejection(pool, at, sides, attempts) == Attempt(pool, at, sides, attempts);
  }

  /** `secrets.randbelow`: for the k-th call with bound n > 0, a value below n. */
  type BelowOracle = f: (nat, nat) -> nat | forall k: nat, n: nat :: 0 < n ==> f(k, n) < n
    witness (k: nat, n: nat) => 0

  /** How far a source has been read: bytes drawn and `randbelow` calls made. */
  datatype Cursor = Cursor(drawn: nat, fallbacks: nat)

  /** A result drawn from a source, and the cursor after it. */
  datatype Drawn<T> = Drawn(result: Result<T>, cursor: Cursor)

  /** `roll_die` on `src` read from `c`: the face, or the error raised before any
      draw, with the cursor after it. */
  function Roll(src: EntropySource, c: Cursor, sides: int): (d: Drawn<int>)
    ensures 1 <= sides <= MAX_SIDES ==> d.result.Ok? && 1 <= d.result.value <= sides
    ensures sides == 1 ==> d == Drawn(Ok(1), c)
    ensures d.result.Err? ==> d.cursor == c && (sides < 1 || sides > MAX_SIDES)
  {
    if sides < 1 then Drawn(Err(ValueError("Die must have at least 1 side")), c)
    else if sides > MAX_SIDES then Drawn(Err(LimitError("Die cannot have more than 1000000000 sides")), c)
    else if sides == 1 then Drawn(Ok(1), c)
    else
      match Rejection(src.pool, c.drawn, sides, 0)
      case Accepted(face, next) => Drawn(Ok(face), Cursor(next, c.fallbacks))
      case Exhausted(next) => Drawn(Ok(src.below(c.fallbacks, sides) + 1), Cursor(next, c.fallbacks + 1))
  }

  class EntropySource {
    /** The secure byte stream that `secrets.token_bytes` reads from. */
    const pool: nat -> bv8
    /** The answers of `secrets.randbelow`, by call index. */
    const below: BelowOracle
    /** Bytes drawn so far. */
    var drawn: nat
    /** `randbelow` calls so far. */
    var fallbacks: nat

    function State(): Cursor
      reads this
    {
      Cursor(drawn, fallbacks)
    }

    constructor (pool: nat -> bv8, below: BelowOracle)
      ensures this.pool == pool && this.below == below
      ensures drawn == 0 && fallbacks == 0
    {
      this.pool := pool;
      this.below := below;
      drawn, fallbacks := 0, 0;
    }

    method TokenBytes(n: nat) returns (bs: seq<bv8>)
      modifies this`drawn
      ensures bs == Bytes(pool, old(drawn), n)
      ensures drawn == old(drawn) + n
    {
      bs := Bytes(pool, drawn, n);
      drawn := drawn + n;
    }

    method RandBelow(n: nat) returns (v: nat)
      requires n > 0
      modifies this`fallbacks
      ensures v == below(old(fallbacks), n) && v < n
      ensures fallbacks == old(fallbacks) + 1
    {
      v := below(fallbacks, n);
      fallbacks := fallbacks + 1;
    }

    /** `roll_die`: a face in `[1, sides]`; errors are raised before any draw, and
        a one-sided die draws nothing. */
    method RollDie(sides: int) returns (r: Result<int>)
      modifies this
      ensures sides < 1 ==> r == Err(ValueError("Die must have at least 1 side")) && unchanged(this)
      ensures sides > MAX_SIDES ==>
        r == Err(LimitError("Die cannot have more than 1000000000 sides")) && unchanged(this)
      ensures 1 <= sides <= MAX_SIDES ==> r.Ok? && 1 <= r.value <= sides
      ensures sides == 1 ==> r == Ok(1) && unchanged(this)
      ensures r == Roll(this, old(State()), sides).result && State() == Roll(this, old(State()), sides).cursor
    {
      if sides < 1 {
        return Err(ValueError("Die must have at least 1 side"));
      }
      if sides > MAX_SIDES {
        return Err(LimitError("Die cannot have more than 1000000000 sides"));
      }
      if sides == 1 {
        return Ok(1);
      }
      r := Sample(sides);
    }

    /** The rejection loop and the fallback of `roll_die`, for a die it samples. */
    method Sample(sides: nat) returns (r: Result<int>)
      requires 2 <= sides <= MAX_SIDES
      modifies this
      ensures r.Ok? && 1 <= r.value <= sides
      ensures r == Roll(this, old(State()), sides).result && State() == Roll(this, old(State()), sides).cursor
    {
      ghost var start := State();
      var found, face := RejectionLoop(sides);
      if found {
        assert Rejection(pool, start.drawn, sides, 0) == Accepted(face, drawn);
        return Ok(face);
      }
      var v := RandBelow(sides);
      return Ok(v + 1);
    }

    /** Up to `MAX_ATTEMPTS` draws of `ByteWidth(sides)` bytes, stopping at the first
        block below the bound. */
    method RejectionLoop(sides: nat) returns (found: bool, face: int)
      requires 2 <= sides
      modifies this`drawn
      ensures found <==> Rejection(pool, old(drawn), sides, 0).Accepted?
      ensures found ==> Rejection(pool, old(drawn), sides, 0) == Accepted(face, drawn)
      ensures !found ==> Rejection(pool, old(drawn), sides, 0) == Exhausted(drawn)
    {
      var bytesNeeded := ByteWidth(sides);
      var bound := Bound(sides);
      var attempts := 0;
      while attempts < MAX_ATTEMPTS
        invariant attempts <= MAX_ATTEMPTS
        invariant Rejection(pool, old(drawn), sides, 0) == Rejection(pool, drawn, sides, attempts)
      {
        ghost var at := drawn;
        var randomBytes := TokenBytes(bytesNeeded);
        var value := FromBytes(randomBytes);
        RejectionStep(pool, at, sides, attempts, value);
        if value < bound {
          return true, FaceOf(value, sides);
        }
        attempts := attempts + 1;
      }
      return false, 0;
    }
  }
}
