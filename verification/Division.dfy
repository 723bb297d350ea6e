/**
 * kernel/arch/arm/div.c: division by shifting and subtracting, for a processor without a
 * divide instruction.  Unsigned words are numbers below 2^32 and arithmetic wraps.
 */
module Division {
  import opened PowersOfTwo

  const WORD: int := 0x1_0000_0000
  const HALF: int := 0x8000_0000

  type Unsigned = x: int | 0 <= x < WORD
  type Signed = x: int | -HALF <= x < HALF

  function Wrap(x: int): Unsigned { x % WORD }

  /** The signed reading of a word. */
  function AsSigned(x: Unsigned): Signed { if x < HALF then x else x - WORD }

  /** The number of bits of `n` from the highest one on. */
  function Length(n: nat): nat { if n == 0 then 0 else 1 + Length(n / 2) }

  /** __builtin_clz. */
  function Clz(n: Unsigned): int { 32 - Length(n) }

  lemma {:induction false} Powers(a: nat, b: nat)
    ensures Pow2(a) >= 1 && Pow2(a + b) == Pow2(a) * Pow2(b)
  {
    if a > 0 {
      Powers(a - 1, b);
      assert Pow2(a + b) == 2 * (Pow2(a - 1) * Pow2(b)) == Pow2(a) * Pow2(b);
    }
  }

  lemma {:induction false} PowerOrder(a: nat, b: nat)
    requires a <= b
    ensures Pow2(a) <= Pow2(b)
  {
    if a > 0 { PowerOrder(a - 1, b - 1); } else { Powers(b, 0); }
  }

  lemma PowerValues()
    ensures Pow2(31) == HALF && Pow2(32) == WORD
  {
    assert Pow2(8) == 0x100;
    assert Pow2(16) == 0x10000;
    assert Pow2(24) == 0x100_0000;
  }

  lemma {:induction false} LengthBounds(n: nat)
    requires n > 0
    ensures Length(n) > 0 && Pow2(Length(n) - 1) <= n < Pow2(Length(n))
  {
    if n > 1 { LengthBounds(n / 2); }
  }

  lemma {:induction false} LengthAtMost(n: nat, k: nat)
    requires n < Pow2(k)
    ensures Length(n) <= k
  {
    if n > 0 { LengthAtMost(n / 2, k - 1); }
  }

  lemma {:induction false} LengthMonotone(a: nat, b: nat)
    requires a <= b
    ensures Length(a) <= Length(b)
  {
    if a > 0 { LengthMonotone(a / 2, b / 2); }
  }

  /** Shifts of a word by `k` bits. */
  function Left(n: Unsigned, k: nat): Unsigned { Wrap(n * Pow2(k)) }

  lemma Larger(x: nat, p: nat)
    requires p > 0
    ensures x * p >= x
  {
    assert x * p == x * (p - 1) + x;
  }

  lemma Multiply(a: nat, b: nat, c: nat)
    requires a < b
    ensures a * c + c <= b * c
  {
    assert (b - a) * c >= c by {
      if b - a > 1 { assert (b - a - 1) * c >= 0; }
      assert (b - a) * c == (b - a - 1) * c + c;
    }
  }

  lemma Halved(n: nat, p: nat)
    requires p > 0
    ensures 0 <= n / p <= n
  {
    var x := n / p;
    assert n == x * p + n % p;
    if x > n { Multiply(n, x, p); Larger(n, p); }
  }

  function Right(n: Unsigned, k: nat): Unsigned {
    Powers(k, 0);
    Halved(n, Pow2(k));
    n / Pow2(k)
  }

  // ---------- the loop ----------

  /**
   * With `k` rounds to go: `h` is the quotient without its last bit, which is in `carry`, and `top` are the bits
   * of `n` still to come.
   */
  predicate Round(n: nat, d: nat, k: nat, q: nat, r: nat, carry: nat, h: nat, top: nat) {
    && 0 < d && r < d && carry <= 1 && k <= 32
    && top < Pow2(k) && h < Pow2(32 - k) && q == top * Pow2(32 - k) + h
    && n == ((2 * h + carry) * d + r) * Pow2(k) + top
  }

  lemma TopBit(k: nat, top: nat) returns (bit: nat, rest: nat)
    requires 0 < k && top < Pow2(k)
    ensures bit <= 1 && rest < Pow2(k - 1) && top == bit * Pow2(k - 1) + rest
  {
    bit := if top < Pow2(k - 1) then 0 else 1;
    rest := top - bit * Pow2(k - 1);
  }

  /** A word of a bit and 31 others. */
  lemma Split(q: nat, bit: nat, low: nat)
    requires q == bit * HALF + low && bit <= 1 && low < HALF
    ensures q < WORD && q / HALF == bit && Wrap(2 * q) == 2 * low
  {
  }

  lemma Double(x: nat, y: nat)
    ensures x * (2 * y) == 2 * (x * y)
  {
  }

  lemma Distribute(a: nat, p: nat, b: nat, r: nat)
    ensures (a * p + b) * r == a * (p * r) + b * r
  {
  }

  lemma Products(p: nat, r: nat, bit: nat, rest: nat, h: nat) returns (z: nat)
    requires rest < p && h < r
    ensures z == rest * r && (bit * p + rest) * r + h == bit * (p * r) + (z + h) && z + h < p * r
    ensures rest * (2 * r) == 2 * z
  {
    z := rest * r;
    Distribute(bit, p, rest, r);
    Multiply(rest, p, r);
    Double(rest, r);
  }

  /** The word `q` hands its top bit over and takes a quotient bit in. */
  lemma ShiftWord(k: nat, q: nat, carry: nat, h: nat, top: nat, bit: nat, rest: nat)
    requires 0 < k <= 32 && carry <= 1 && h < Pow2(32 - k) && q == top * Pow2(32 - k) + h
    requires bit <= 1 && rest < Pow2(k - 1) && top == bit * Pow2(k - 1) + rest
    ensures q < WORD && q / HALF == bit
    ensures Wrap(2 * q) + carry == rest * Pow2(33 - k) + (2 * h + carry) && 2 * h + carry < Pow2(33 - k)
  {
    Powers(k - 1, 32 - k);
    PowerValues();
    var z := Products(Pow2(k - 1), Pow2(32 - k), bit, rest, h);
    Split(q, bit, z + h);
  }

  /** The value that the registers stand for does not change when a bit moves from `n` to the remainder. */
  lemma ShiftValue(n: nat, x: nat, p: nat, bit: nat, rest: nat)
    requires n == x * (2 * p) + (bit * p + rest)
    ensures n == (2 * x + bit) * p + rest
  {
    assert x * (2 * p) == (2 * x) * p;
    assert (2 * x + bit) * p == (2 * x) * p + bit * p;
  }

  lemma TakeDivisor(h: nat, d: nat, r: nat, carry: nat)
    requires carry <= 1 && (carry == 1 ==> r >= d)
    ensures 2 * (h * d) + r == (2 * h + carry) * d + (r - carry * d)
  {
    assert (2 * h) * d == 2 * (h * d);
    assert (2 * h + carry) * d == (2 * h) * d + carry * d;
  }

  /** The test that the code makes on the sign bit. */
  predicate Negative(x: int) { AsSigned(Wrap(x)) < 0 }

  /** In each round the shifted remainder is a word, and the sign bit tells whether the divisor fits. */
  lemma SignIsExact(n: Unsigned, d: Unsigned, r: nat, bit: nat)
    requires 0 < d && r < d && bit <= 1
    requires d < HALF || (2 * r + bit == n && n >= HALF)
    ensures 2 * r + bit < WORD && (Negative(d - (2 * r + bit) - 1) <==> 2 * r + bit >= d)
  {
  }

  /** With a divisor of 32 bits there is one round, and it starts with quotient 0. */
  predicate Short(n: nat, d: nat, k: nat, h: nat, carry: nat) {
    d < HALF || k == 0 || (k == 1 && h == 0 && carry == 0 && n >= HALF)
  }

  /** The bit of the quotient: 1 if the divisor can be taken off. */
  function Fits(r: int, d: int): nat { if Negative(d - r - 1) then 1 else 0 }

  /** The remainder after the divisor has been taken off, if it fits. */
  function Reduced(r: int, d: int): int { if Negative(d - r - 1) then r - d else r }

  lemma ShiftRemainder(n: Unsigned, d: Unsigned, k: nat, r: nat, carry: nat, h: nat, top: nat, bit: nat, rest: nat)
    requires 0 < k && 0 < d && r < d && carry <= 1 && Short(n, d, k, h, carry)
    requires n == ((2 * h + carry) * d + r) * Pow2(k) + top
    requires bit <= 1 && rest < Pow2(k - 1) && top == bit * Pow2(k - 1) + rest
    ensures var r1 := 2 * r + bit;
            && r1 < WORD && (Fits(r1, d) == 1 ==> r1 >= d) && 0 <= Reduced(r1, d) < d
            && n == ((2 * (2 * h + carry) + Fits(r1, d)) * d + Reduced(r1, d)) * Pow2(k - 1) + rest
  {
    var x, p, r1 := 2 * h + carry, Pow2(k - 1), 2 * r + bit;
    ShiftValue(n, x * d + r, p, bit, rest);
    assert 2 * (x * d + r) + bit == 2 * (x * d) + r1;
    if !(d < HALF) { assert r1 == n; }
    SignIsExact(n, d, r, bit);
    TakeDivisor(x, d, r1, Fits(r1, d));
  }

  /** One round of the loop. */
  lemma RoundNext(n: Unsigned, d: Unsigned, k: nat, q: nat, r: nat, carry: nat, h: nat, top: nat, r1: nat)
    returns (rest: nat)
    requires Round(n, d, k, q, r, carry, h, top) && Short(n, d, k, h, carry) && k > 0 && r1 == 2 * r + q / HALF
    ensures q < WORD && r1 < WORD && (Fits(r1, d) == 1 ==> r1 >= d) && Reduced(r1, d) >= 0
    ensures Round(n, d, k - 1, Wrap(2 * q) + carry, Reduced(r1, d), Fits(r1, d), 2 * h + carry, rest)
  {
    var bit;
    bit, rest := TopBit(k, top);
    ShiftWord(k, q, carry, h, top, bit, rest);
    ShiftRemainder(n, d, k, r, carry, h, top, bit, rest);
  }

  // ---------- before and after the loop ----------

  /** Both words are not zero, and the first is not much shorter. */
  predicate Aligned(n: Unsigned, d: Unsigned, sr: nat) {
    n > 0 && d > 0 && sr == Length(n) - Length(d) + 1 && 1 <= sr <= 31
  }

  lemma LengthOfWord(n: Unsigned)
    ensures Length(n) <= 32
    ensures n >= HALF <==> Length(n) == 32
  {
    PowerValues();
    LengthAtMost(n, 32);
    if n > 0 { LengthBounds(n); }
    if n < HALF { LengthAtMost(n, 31); } else if Length(n) < 32 { PowerOrder(Length(n), 31); }
  }

  /** The quotient of a shorter word is 0. */
  lemma ShorterIsLess(n: nat, d: nat)
    requires Length(n) < Length(d)
    ensures n < d
  {
    if d <= n { LengthMonotone(d, n); }
  }

  lemma OneBit(d: nat)
    requires Length(d) == 1
    ensures d == 1
  {
    LengthBounds(d);
  }

  lemma SameQuotient(x: nat, r: nat, y: nat, z: nat, d: nat)
    requires x * d + r == y * d + z && r < d && z < d
    ensures x == y && r == z
  {
    if x < y { Multiply(x, y, d); assert false; }
    if y < x { Multiply(y, x, d); assert false; }
    assert x * d == y * d;
  }

  lemma DivideUnique(n: nat, d: nat, x: nat, r: nat)
    requires n == x * d + r && r < d
    ensures n / d == x && n % d == r
  {
    assert n == (n / d) * d + n % d;
    SameQuotient(x, r, n / d, n % d, d);
  }

  lemma DivideBelow(n: nat, p: nat, c: nat)
    requires p > 0 && n < c * p
    ensures n / p < c
  {
    var x := n / p;
    assert n == x * p + n % p;
    if x >= c { if x > c { Multiply(c, x, p); } }
  }

  lemma WrapMultiple(x: nat, y: nat)
    requires y < WORD
    ensures Wrap(x * WORD + y) == y
  {
  }

  /** Shifting left drops the bits above the word. */
  lemma ShiftUp(n: nat, x: nat, p: nat, r: nat, top: nat)
    requires p * r == WORD && n == x * p + top && top < p && r > 0
    ensures Wrap(n * r) == top * r
  {
    Distribute(x, p, top, r);
    Multiply(top, p, r);
    WrapMultiple(x, top * r);
  }

  lemma Parts(n: nat, p: nat) returns (x: nat, top: nat)
    requires p > 0
    ensures x == n / p && n == x * p + top && top < p
  {
    Halved(n, p);
    x, top := n / p, n % p;
  }

  lemma FirstWord(n: Unsigned, sr: nat) returns (x: nat, top: nat)
    requires sr <= 32
    ensures x == Right(n, sr) && n == x * Pow2(sr) + top && top < Pow2(sr)
    ensures Left(n, 32 - sr) == top * Pow2(32 - sr)
  {
    Powers(sr, 32 - sr);
    Powers(32 - sr, 0);
    PowerValues();
    x, top := Parts(n, Pow2(sr));
    ShiftUp(n, x, Pow2(sr), Pow2(32 - sr), top);
  }

  lemma FirstRemainder(n: Unsigned, d: Unsigned, sr: nat)
    requires Aligned(n, d, sr)
    ensures Right(n, sr) < d
  {
    LengthBounds(n);
    LengthBounds(d);
    Powers(Length(d) - 1, sr);
    Powers(sr, 0);
    DivideBelow(n, Pow2(sr), Pow2(Length(d) - 1));
  }

  /** The registers before the first round. */
  lemma RoundFirst(n: Unsigned, d: Unsigned, sr: nat) returns (top: nat)
    requires Aligned(n, d, sr)
    ensures Round(n, d, sr, Left(n, 32 - sr), Right(n, sr), 0, 0, top) && Short(n, d, sr, 0, 0)
  {
    var x;
    x, top := FirstWord(n, sr);
    FirstRemainder(n, d, sr);
    LengthOfWord(n);
    LengthOfWord(d);
    Powers(32 - sr, 0);
    assert (0 * d + x) * Pow2(sr) == x * Pow2(sr);
  }

  /** The registers after the last round. */
  lemma RoundLast(n: Unsigned, d: Unsigned, q: nat, r: nat, carry: nat, h: nat, top: nat)
    requires Round(n, d, 0, q, r, carry, h, top)
    ensures Wrap(2 * q) + carry == n / d < WORD && n % d == r
  {
    var x := 2 * h + carry;
    DivideUnique(n, d, x, r);
    Halved(n, d);
    assert q == h;
  }

  // ---------- the functions ----------

  lemma WrapSmall(x: int)
    requires 0 <= x < WORD
    ensures Wrap(x) == x
  {
  }

  /** The remainder takes in the top bit of `q`, and the divisor is taken off if it fits. */
  method TakeOff(d: Unsigned, q: Unsigned, r: Unsigned, ghost r1: nat) returns (r': Unsigned, carry: Unsigned)
    requires r1 == 2 * r + q / HALF < WORD && Reduced(r1, d) >= 0
    ensures r' == Reduced(r1, d) && carry == Fits(r1, d)
  {
    var bit := q / HALF;
    WrapSmall(2 * r);
    r' := Wrap(2 * r) + bit;
    WrapSmall(Reduced(r', d));
    var negative := Negative(d - r' - 1);
    carry := if negative then 1 else 0;
    r' := Wrap(r' - if negative then d else 0);
  }

  /** The body of the loop in __udivsi3. */
  method OneRound(ghost n: Unsigned, d: Unsigned, ghost sr: nat, q: Unsigned, r: Unsigned, carry: Unsigned,
                  ghost h: nat, ghost top: nat)
    returns (q': Unsigned, r': Unsigned, carry': Unsigned, ghost rest: nat)
    requires Round(n, d, sr, q, r, carry, h, top) && Short(n, d, sr, h, carry) && sr > 0
    ensures Round(n, d, sr - 1, q', r', carry', 2 * h + carry, rest)
    ensures r' == Reduced(2 * r + q / HALF, d) && q' == Wrap(2 * q) + carry
  {
    ghost var r1: nat := 2 * r + q / HALF;
    rest := RoundNext(n, d, sr, q, r, carry, h, top, r1);
    q' := Wrap(2 * q) + carry;
    r', carry' := TakeOff(d, q, r, r1);
  }

  lemma ShiftCases(x: nat, y: nat)
    requires 1 <= x <= 32 && 1 <= y <= 32
    ensures Wrap((32 - y) - (32 - x)) == if x < y then WORD + x - y else x - y
  {
  }

  lemma EdgeQuotients(n: nat, d: nat)
    requires d > 0
    ensures (n < d ==> n / d == 0) && (d == 1 ==> n / d == n)
  {
  }

  /** The difference of the leading zeros, as a word. */
  method Shift(n: Unsigned, d: Unsigned) returns (sr: nat)
    requires n > 0 && d > 0
    ensures sr > 31 ==> n / d == 0
    ensures sr == 31 ==> n / d == n
    ensures sr < 31 ==> Aligned(n, d, sr + 1)
  {
    LengthOfWord(n);
    LengthOfWord(d);
    LengthBounds(n);
    LengthBounds(d);
    sr := Wrap(Clz(d) - Clz(n));
    ShiftCases(Length(n), Length(d));
    if Length(n) < Length(d) { ShorterIsLess(n, d); }
    if Length(d) == 1 { OneBit(d); }
    EdgeQuotients(n, d);
  }

  method LastShift(ghost n: Unsigned, ghost d: Unsigned, q: Unsigned, ghost r: Unsigned, carry: Unsigned,
                   ghost h: nat, ghost top: nat) returns (quotient: Unsigned)
    requires Round(n, d, 0, q, r, carry, h, top)
    ensures quotient == n / d
  {
    RoundLast(n, d, q, r, carry, h, top);
    quotient := Wrap(2 * q) + carry;
  }

  /** __udivsi3 from the increment of `sr` on. */
  method Divide(n: Unsigned, d: Unsigned, shift: nat) returns (quotient: Unsigned)
    requires Aligned(n, d, shift)
    ensures quotient == n / d
  {
    var sr := shift;
    ghost var h: nat, top: nat := 0, 0;
    top := RoundFirst(n, d, sr);
    var q: Unsigned, r: Unsigned, carry: Unsigned := Left(n, 32 - sr), Right(n, sr), 0;
    while sr > 0
      invariant Round(n, d, sr, q, r, carry, h, top) && Short(n, d, sr, h, carry)
    {
      ghost var h' := 2 * h + carry;
      q, r, carry, top := OneRound(n, d, sr, q, r, carry, h, top);
      h := h';
      sr := sr - 1;
    }
    quotient := LastShift(n, d, q, r, carry, h, top);
  }

  /** __udivsi3: the quotient, and 0 for a division by zero. */
  method Udivsi3(n: Unsigned, d: Unsigned) returns (quotient: Unsigned)
    ensures quotient == if d == 0 then 0 else n / d
  {
    if d == 0 { return 0; }
    EdgeQuotients(n, d);
    if n == 0 { return 0; }
    var sr := Shift(n, d);
    if sr > 31 { return 0; }
    if sr == 31 { return n; }
    quotient := Divide(n, d, sr + 1);
  }

  /** __umodsi3. */
  method Umodsi3(a: Unsigned, b: Unsigned) returns (r: Unsigned)
    ensures r == if b == 0 then a else a % b
  {
    var q := Udivsi3(a, b);
    assert b != 0 ==> a - q * b == a % b;
    r := Wrap(a - Wrap(q * b));
  }

  // ---------- signed division ----------

  function Abs(x: int): nat { if x < 0 then -x else x }

  /** The quotient of section 6.5.5 of ISO/IEC 9899:1999: truncated toward zero. */
  function Quotient(a: int, b: int): int
    requires b != 0
  {
    if (a < 0) == (b < 0) then Abs(a) / Abs(b) else -(Abs(a) / Abs(b))
  }

  /** The remainder that belongs to it. */
  function Remainder(a: int, b: int): int
    requires b != 0
  {
    a - Quotient(a, b) * b
  }

  /** x ^ s, for s = x >> 31 of some word: nothing, or all bits turned over. */
  function Flip(x: int, s: int): int { if s == 0 then x else -1 - x }

  /** a >> 31. */
  function Sign(a: Signed): int { if a < 0 then -1 else 0 }

  lemma Magnitude(a: Signed)
    ensures Wrap(Flip(a, Sign(a)) - Sign(a)) == Abs(a)
  {
  }

  lemma Restore(u: Unsigned, s: int)
    requires s == 0 || s == -1
    ensures Wrap(Wrap(Flip(u, s)) - s) == if s == 0 then u else Wrap(0 - u)
  {
  }

  /** __divsi3. */
  method Divsi3(a: Signed, b: Signed) returns (q: Signed)
    ensures q == if b == 0 then 0 else AsSigned(Wrap(Quotient(a, b)))
  {
    Magnitude(a);
    Magnitude(b);
    var sa, sb := Sign(a), Sign(b);
    var ua: Unsigned := Wrap(Flip(a, sa) - sa);
    var ub: Unsigned := Wrap(Flip(b, sb) - sb);
    var s := if sa == sb then 0 else -1;
    var u := Udivsi3(ua, ub);
    Restore(u, s);
    q := AsSigned(Wrap(Wrap(Flip(u, s)) - s));
  }

  lemma SignedWrap(x: int)
    requires -HALF <= x < HALF
    ensures AsSigned(Wrap(x)) == x
  {
  }

  lemma WrapDifference(a: int, p: int)
    ensures Wrap(a - AsSigned(Wrap(p))) == Wrap(a - p)
  {
  }

  /** The quotient is a signed word, but for the one division that overflows. */
  lemma QuotientFits(a: Signed, b: Signed)
    requires b != 0
    ensures -HALF <= Quotient(a, b) <= HALF
    ensures Quotient(a, b) == HALF <==> a == -HALF && b == -1
  {
    var x, y := Abs(a), Abs(b);
    Halved(x, y);
    if y == 1 {
      assert x / y == x;
    } else {
      DivideBelow(x, y, HALF);
    }
  }

  lemma DivisionLaw(x: nat, y: nat)
    requires y > 0
    ensures 0 <= x - (x / y) * y < y
  {
    assert x == (x / y) * y + x % y;
  }

  lemma Opposites(x: int, y: int)
    ensures (-x) * y == -(x * y) && x * (-y) == -(x * y) && (-x) * (-y) == x * y
  {
  }

  /** The quotient is truncated toward zero: what remains is less than the divisor and has the sign of `a`. */
  lemma RemainderBounds(a: int, b: int)
    requires b != 0
    ensures a == Quotient(a, b) * b + Remainder(a, b)
    ensures Abs(Remainder(a, b)) < Abs(b)
    ensures if a < 0 then Remainder(a, b) <= 0 else Remainder(a, b) >= 0
  {
    var z := Abs(a) / Abs(b);
    DivisionLaw(Abs(a), Abs(b));
    Opposites(z, Abs(b));
  }

  /** No other quotient and remainder meet these conditions. */
  lemma OnlyQuotient(a: int, b: int, q: int, r: int)
    requires b != 0 && a == q * b + r && Abs(r) < Abs(b) && if a < 0 then r <= 0 else r >= 0
    ensures q == Quotient(a, b) && r == Remainder(a, b)
  {
    var z := if (a < 0) == (b < 0) then q else -q;
    Opposites(q, b);
    assert Abs(a) == z * Abs(b) + Abs(r);
    if z < 0 {
      Multiply(0, -z, Abs(b));
      Opposites(z, Abs(b));
      assert false;
    }
    DivideUnique(Abs(a), Abs(b), z, Abs(r));
  }

  lemma ModIsRemainder(a: Signed, b: Signed, q: Signed)
    requires b != 0 && q == AsSigned(Wrap(Quotient(a, b)))
    ensures AsSigned(Wrap(a - q * b)) == Remainder(a, b)
  {
    QuotientFits(a, b);
    RemainderBounds(a, b);
    SignedWrap(Remainder(a, b));
    if Quotient(a, b) == HALF {
      assert Wrap(a - q * b) == 0;
    } else {
      SignedWrap(Quotient(a, b));
    }
  }

  /** __modsi3. */
  method Modsi3(a: Signed, b: Signed) returns (r: Signed)
    ensures r == if b == 0 then a else Remainder(a, b)
  {
    var q := Divsi3(a, b);
    r := AsSigned(Wrap(a - AsSigned(Wrap(q * b))));
    WrapDifference(a, q * b);
    if b != 0 { ModIsRemainder(a, b, q); }
  }
}
