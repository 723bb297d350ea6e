/** kernel/memory.c: page frames in a bitmap, where a set bit is a free frame. */
module Frames {
  import opened PowersOfTwo
  import opened Wrappers

  const BITMAP_SIZE: nat := 32768

  /** Frames below this one are never free: 64 words of the bitmap. */
  const FIRST: nat := 2048

  const FRAME: nat := 0x1000

  /** A word of the bitmap, as its 32 bits from the lowest on. */
  type Word = w: seq<bool> | |w| == 32 witness seq(32, _ => false)

  type Bitmap = seq<Word>

  predicate IsFree(m: Bitmap, f: int) {
    0 <= f < 32 * |m| && m[f / 32][f % 32]
  }

  /** The same for one word, whose first frame is `base`. */
  function WithoutIn(w: Word, base: nat, f: nat, n: nat): Word {
    seq(32, b requires 0 <= b < 32 => w[b] && !(f <= base + b < f + n))
  }

  /** Frames `f` to `f + n - 1` are not free any more. */
  function Without(m: Bitmap, f: nat, n: nat): (m': Bitmap)
    ensures |m'| == |m|
  {
    seq(|m|, i requires 0 <= i < |m| => WithoutIn(m[i], 32 * i, f, n))
  }

  /** Frame `f` is free. */
  function With(m: Bitmap, f: nat): (m': Bitmap)
    ensures |m'| == |m|
  {
    if f < 32 * |m| then m[f / 32 := m[f / 32][f % 32 := true]] else m
  }

  /** Bit `j` of word `i` and its frame. */
  lemma Position(m: Bitmap, i: nat, j: nat)
    requires i < |m| && j < 32
    ensures (32 * i + j) / 32 == i && (32 * i + j) % 32 == j && (IsFree(m, 32 * i + j) <==> m[i][j])
    ensures ((i * 32 + j) * FRAME) / FRAME == 32 * i + j && ((i * 32 + j) * FRAME) % FRAME == 0
  {
  }

  lemma WithoutIsFree(m: Bitmap, f: nat, n: nat, g: int)
    ensures IsFree(Without(m, f, n), g) <==> IsFree(m, g) && !(f <= g < f + n)
  {
  }

  lemma WithoutMeans(m: Bitmap, f: nat, n: nat)
    ensures forall g: int :: IsFree(Without(m, f, n), g) <==> IsFree(m, g) && !(0 <= g - f < n)
  {
    forall g: int ensures IsFree(Without(m, f, n), g) <==> IsFree(m, g) && !(0 <= g - f < n) {
      WithoutIsFree(m, f, n, g);
    }
  }

  lemma WithIsFree(m: Bitmap, f: nat, g: int)
    requires f < 32 * |m|
    ensures IsFree(With(m, f), g) <==> IsFree(m, g) || g == f
  {
  }

  lemma SameBitmap(a: Bitmap, b: Bitmap)
    requires |a| == |b| && forall f: int :: IsFree(a, f) <==> IsFree(b, f)
    ensures a == b
  {
    forall i | 0 <= i < |a| ensures a[i] == b[i] {
      forall j | 0 <= j < 32 ensures a[i][j] == b[i][j] { assert IsFree(a, 32 * i + j) <==> IsFree(b, 32 * i + j); }
    }
  }

  lemma WithoutOne(m: Bitmap, i: nat, j: nat)
    requires i < |m| && j < 32
    ensures m[i := m[i][j := false]] == Without(m, 32 * i + j, 1)
  {
    var a, b := m[i := m[i][j := false]], Without(m, 32 * i + j, 1);
    forall f: int ensures IsFree(a, f) <==> IsFree(b, f) { WithoutIsFree(m, 32 * i + j, 1, f); }
    SameBitmap(a, b);
  }

  lemma WithoutNone(m: Bitmap, f: nat)
    ensures Without(m, f, 0) == m
  {
    forall g: int ensures IsFree(Without(m, f, 0), g) <==> IsFree(m, g) { WithoutIsFree(m, f, 0, g); }
    SameBitmap(Without(m, f, 0), m);
  }

  lemma WithoutNext(m: Bitmap, f: nat, n: nat)
    ensures Without(Without(m, f, n), f + n, 1) == Without(m, f, n + 1)
  {
    var a, b := Without(Without(m, f, n), f + n, 1), Without(m, f, n + 1);
    forall g: int ensures IsFree(a, g) <==> IsFree(b, g) {
      WithoutIsFree(Without(m, f, n), f + n, 1, g);
      WithoutIsFree(m, f, n, g);
      WithoutIsFree(m, f, n + 1, g);
    }
    SameBitmap(a, b);
  }

  // ---------- what the allocators promise ----------

  /** `f` is the lowest free frame. */
  ghost predicate Lowest(m: Bitmap, f: int) {
    IsFree(m, f) && forall g: int :: IsFree(m, g) ==> f <= g
  }

  function Modulo(x: nat, a: nat): nat {
    PowPositive(a);
    x % Pow2(a)
  }

  lemma ModuloMultiple(x: nat, a: nat) returns (k: nat)
    requires Modulo(x, a) == 0
    ensures x == k * Pow2(a)
  {
    PowPositive(a);
    k := x / Pow2(a);
  }

  /** Frames `f` to `f + n - 1` are free. */
  ghost predicate AllFree(m: Bitmap, f: int, n: nat) {
    forall g: int :: f <= g < f + n ==> IsFree(m, g)
  }

  /** A run of `n` free frames from `f` on, in one word of the bitmap, with `f` divisible by 2^a. */
  ghost predicate FreeRun(m: Bitmap, n: nat, a: nat, f: int) {
    && 0 <= f && f % 32 + n <= 32 && f < 32 * |m| && Modulo(f, a) == 0
    && AllFree(m, f, n)
  }

  ghost predicate FirstRun(m: Bitmap, n: nat, a: nat, f: int) {
    FreeRun(m, n, a, f) && forall g: int :: FreeRun(m, n, a, g) ==> f <= g
  }

  // ---------- alignment within a word of the bitmap ----------

  lemma NoCarry(p: nat, k: int)
    ensures k >= 1 ==> p * k >= p
    ensures k <= -1 ==> p * k <= 0 - p
  {
  }

  lemma SmallMultiple(p: nat, k: int, r: int)
    requires 0 <= r < p && 0 <= p * k + r < p
    ensures k == 0
  {
    NoCarry(p, k);
  }

  lemma ModuloUnique(x: nat, p: nat, q: nat, r: nat)
    requires x == p * q + r && r < p
    ensures x % p == r
  {
    assert x == p * (x / p) + x % p;
    assert p * (q - x / p) == p * q - p * (x / p);
    SmallMultiple(p, q - x / p, r);
  }

  /** From one multiple of 2^a to the next. */
  lemma ModuloStep(x: nat, d: nat, a: nat)
    requires Modulo(x, a) == 0 && d <= Pow2(a)
    ensures Modulo(x + d, a) == if d == Pow2(a) then 0 else d
  {
    PowPositive(a);
    var p := Pow2(a);
    assert x == p * (x / p);
    if d < p {
      ModuloUnique(x + d, p, x / p, d);
    } else {
      assert x + d == p * (x / p + 1);
      ModuloUnique(x + d, p, x / p + 1, 0);
    }
  }

  lemma {:induction false} WordIsMultiple(i: nat, a: nat)
    requires a <= 5
    ensures Modulo(32 * i, a) == 0
  {
    assert Pow2(0) == 1 && Pow2(1) == 2 && Pow2(2) == 4 && Pow2(3) == 8 && Pow2(4) == 16 && Pow2(5) == 32;
    if a == 0 {} else if a == 1 {} else if a == 2 {} else if a == 3 {} else if a == 4 {} else {}
  }

  lemma {:induction false} Thirtytwo(a: nat)
    requires a >= 5
    ensures Pow2(a) == 32 * Pow2(a - 5)
  {
    if a == 5 { assert Pow2(5) == 32 && Pow2(0) == 1; } else { Thirtytwo(a - 1); }
  }

  /** Beyond 2^5 a word begins at a multiple of 2^a, or no frame in it is one. */
  lemma WordStart(i: nat, a: nat, b: nat)
    requires a >= 5 && b < 32 && Modulo(32 * i, a) != 0
    ensures Modulo(32 * i, a) >= 32 && Modulo(32 * i + b, a) != 0
  {
    PowPositive(a - 5);
    Thirtytwo(a);
    var c := Pow2(a - 5);
    var q, r := i / c, i % c;
    assert i == c * q + r;
    assert 32 * i == (32 * c) * q + 32 * r;
    ModuloUnique(32 * i, 32 * c, q, 32 * r);
    ModuloUnique(32 * i + b, 32 * c, q, 32 * r + b);
  }

  predicate Multiple(i: nat, a: nat, b: nat) { Modulo(32 * i + b, a) == 0 }

  /** The search in word `i` begins with the word, or there is nothing to search. */
  lemma SearchStart(i: nat, a: nat)
    ensures Multiple(i, a, 0) || (Modulo(32 * i, a) >= 32 && forall b: nat :: b < 32 ==> !Multiple(i, a, b))
  {
    if !Multiple(i, a, 0) {
      assert a > 5 by { if a <= 5 { WordIsMultiple(i, a); } }
      WordStart(i, a, 0);
      forall b: nat | b < 32 ensures !Multiple(i, a, b) { WordStart(i, a, b); }
    }
  }

  /** A run begins at bit `b` of word `i`. */
  ghost predicate RunAt(m: Bitmap, n: nat, a: nat, i: nat, b: nat) {
    FreeRun(m, n, a, 32 * i + b)
  }

  /** No run begins in word `i` before bit `j`. */
  ghost predicate NoRun(m: Bitmap, n: nat, a: nat, i: nat, j: nat) {
    forall b: nat :: b < 32 && b < j ==> !RunAt(m, n, a, i, b)
  }

  lemma NoRunNext(m: Bitmap, n: nat, a: nat, i: nat, j: nat)
    requires NoRun(m, n, a, i, j) && Modulo(32 * i + j, a) == 0 && !RunAt(m, n, a, i, j)
    ensures NoRun(m, n, a, i, j + Pow2(a)) && Modulo(32 * i + (j + Pow2(a)), a) == 0
  {
    ModuloStep(32 * i + j, Pow2(a), a);
    forall b: nat | b < 32 && b < j + Pow2(a) ensures !RunAt(m, n, a, i, b) {
      if b > j { ModuloStep(32 * i + j, b - j, a); }
    }
  }

  /** A word that has been searched to where no run fits any more has none. */
  lemma NoRunInWord(m: Bitmap, n: nat, a: nat, i: nat, j: nat, f: int)
    requires NoRun(m, n, a, i, j) && j + n > 32 && 32 * i <= f < 32 * i + 32
    ensures !FreeRun(m, n, a, f)
  {
    var b: nat := f - 32 * i;
    assert f == 32 * i + b && f % 32 == b;
    if b < j { assert !RunAt(m, n, a, i, b); }
  }

  lemma NoRunAtFirst(m: Bitmap, n: nat, a: nat, i: nat)
    ensures NoRun(m, n, a, i, Modulo(32 * i, a)) && (Multiple(i, a, Modulo(32 * i, a)) || Modulo(32 * i, a) >= 32)
  {
    SearchStart(i, a);
    forall b: nat | b < 32 && b < Modulo(32 * i, a) ensures !RunAt(m, n, a, i, b) { assert !Multiple(i, a, b); }
  }

  lemma NoRunInEmpty(m: Bitmap, n: nat, a: nat, i: nat, f: int)
    requires i < |m| && n > 0 && m[i] == seq(32, _ => false) && 32 * i <= f < 32 * i + 32
    ensures !FreeRun(m, n, a, f)
  {
    assert IsFree(m, f) <==> m[f / 32][f % 32];
  }

  class Memory {
    const bitmap: array<Word>

    constructor ()
      ensures fresh(bitmap) && bitmap.Length == BITMAP_SIZE
      ensures forall f: int :: !IsFree(bitmap[..], f)
    {
      bitmap := new Word[BITMAP_SIZE](_ => seq(32, _ => false));
    }

    /** memory_init. */
    method Init()
      requires bitmap.Length == BITMAP_SIZE && forall f: int :: !IsFree(bitmap[..], f)
      modifies bitmap
      ensures forall f: int :: IsFree(bitmap[..], f) <==> 2048 <= f < 0x100000
    {
      for i := 64 to BITMAP_SIZE
        invariant forall k :: 0 <= k < 64 ==> bitmap[k] == old(bitmap[k])
        invariant forall k, b :: 64 <= k < i && 0 <= b < 32 ==> bitmap[k][b]
      {
        bitmap[i] := seq(32, _ => true);
      }
      forall f: int ensures IsFree(bitmap[..], f) <==> FIRST <= f < 32 * BITMAP_SIZE {
        if 0 <= f < FIRST { assert !IsFree(old(bitmap[..]), f); }
      }
    }

    /** memory_alloc; None stands for its panic. */
    method Alloc() returns (frame: Option<nat>)
      modifies bitmap
      ensures frame == None <==> forall f: int :: !IsFree(old(bitmap[..]), f)
      ensures frame == None ==> bitmap[..] == old(bitmap[..])
      ensures frame.Some? ==>
        && frame.value % FRAME == 0 && Lowest(old(bitmap[..]), frame.value / FRAME)
        && bitmap[..] == Without(old(bitmap[..]), frame.value / FRAME, 1)
      ensures frame.Some? ==> forall g: int ::
        IsFree(bitmap[..], g) <==> IsFree(old(bitmap[..]), g) && g != frame.value / 0x1000
    {
      for i := 0 to bitmap.Length
        invariant bitmap[..] == old(bitmap[..])
        invariant forall f: int :: f < 32 * i ==> !IsFree(bitmap[..], f)
      {
        if bitmap[i] == seq(32, _ => false) { continue; }
        for j := 0 to 32
          invariant bitmap[..] == old(bitmap[..])
          invariant forall f: int :: f < 32 * i + j ==> !IsFree(bitmap[..], f)
        {
          Position(bitmap[..], i, j);
          if !bitmap[i][j] { continue; }
          WithoutOne(bitmap[..], i, j);
          WithoutMeans(bitmap[..], 32 * i + j, 1);
          bitmap[i] := bitmap[i][j := false];
          return Some((i * 32 + j) * FRAME);
        }
      }
      return None;
    }

    /** How many of the `frames` bits from bit `j` of word `i` on are set before one that is not. */
    method RunLength(i: nat, j: nat, frames: nat) returns (k: nat)
      requires i < bitmap.Length && j + frames <= 32
      ensures k <= frames && AllFree(bitmap[..], 32 * i + j, k)
      ensures k < frames ==> !IsFree(bitmap[..], 32 * i + j + k)
    {
      k := 0;
      while k < frames && bitmap[i][j + k]
        invariant k <= frames && AllFree(bitmap[..], 32 * i + j, k)
      {
        Position(bitmap[..], i, j + k);
        k := k + 1;
      }
      if k < frames { Position(bitmap[..], i, j + k); }
    }

    /** The loop over the bits of word `i`: the first bit at which a run begins. */
    method SearchWord(i: nat, frames: nat, alignment: nat) returns (found: Option<nat>)
      requires i < bitmap.Length && 1 <= frames
      ensures found == None ==>
        forall f: int :: 32 * i <= f < 32 * i + 32 ==> !FreeRun(bitmap[..], frames, alignment, f)
      ensures found.Some? ==>
        && found.value + frames <= 32 && FreeRun(bitmap[..], frames, alignment, 32 * i + found.value)
        && forall f: int :: 32 * i <= f < 32 * i + found.value ==> !FreeRun(bitmap[..], frames, alignment, f)
    {
      var value := Pow2(alignment);
      NoRunAtFirst(bitmap[..], frames, alignment, i);
      var j := Modulo(i * 32, alignment);
      while j <= 32 - frames
        invariant Multiple(i, alignment, j) || j >= 32
        invariant NoRun(bitmap[..], frames, alignment, i, j)
        decreases 32 - j
      {
        var run := RunLength(i, j, frames);
        if run == frames {
          Position(bitmap[..], i, j);
          forall f: int | 32 * i <= f < 32 * i + j ensures !FreeRun(bitmap[..], frames, alignment, f) {
            assert !RunAt(bitmap[..], frames, alignment, i, f - 32 * i);
          }
          return Some(j);
        }
        NoRunNext(bitmap[..], frames, alignment, i, j);
        PowPositive(alignment);
        j := j + value;
      }
      forall f: int | 32 * i <= f < 32 * i + 32 ensures !FreeRun(bitmap[..], frames, alignment, f) {
        NoRunInWord(bitmap[..], frames, alignment, i, j, f);
      }
      return None;
    }

    method Clear(i: nat, j: nat, frames: nat)
      requires i < bitmap.Length && j + frames <= 32
      modifies bitmap
      ensures bitmap[..] == Without(old(bitmap[..]), 32 * i + j, frames)
    {
      WithoutNone(bitmap[..], 32 * i + j);
      for k := 0 to frames
        invariant bitmap[..] == Without(old(bitmap[..]), 32 * i + j, k)
      {
        WithoutNext(old(bitmap[..]), 32 * i + j, k);
        WithoutOne(bitmap[..], i, j + k);
        bitmap[i] := bitmap[i][j + k := false];
      }
    }

    /** memory_alloc_aligned; None stands for its panic. */
    method AllocAligned(frames: nat, alignment: nat) returns (frame: Option<nat>)
      requires 1 <= frames && alignment <= 30
      modifies bitmap
      ensures frame == None <==> forall f: int :: !FreeRun(old(bitmap[..]), frames, alignment, f)
      ensures frame == None ==> bitmap[..] == old(bitmap[..])
      ensures frame.Some? ==>
        && frame.value % FRAME == 0 && FirstRun(old(bitmap[..]), frames, alignment, frame.value / FRAME)
        && bitmap[..] == Without(old(bitmap[..]), frame.value / FRAME, frames)
      ensures frame.Some? ==>
        && frame.value % 0x1000 == 0 && (exists k: nat :: frame.value / 0x1000 == k * Pow2(alignment))
        && (forall g: int :: 0 <= g - frame.value / 0x1000 < frames ==> IsFree(old(bitmap[..]), g))
        && forall g: int :: IsFree(bitmap[..], g) <==>
             IsFree(old(bitmap[..]), g) && !(0 <= g - frame.value / 0x1000 < frames)
    {
      for i := 0 to bitmap.Length
        invariant bitmap[..] == old(bitmap[..])
        invariant forall f: int :: f < 32 * i ==> !FreeRun(bitmap[..], frames, alignment, f)
      {
        if bitmap[i] == seq(32, _ => false) {
          forall f: int | 32 * i <= f < 32 * i + 32 ensures !FreeRun(bitmap[..], frames, alignment, f) {
            NoRunInEmpty(bitmap[..], frames, alignment, i, f);
          }
          continue;
        }
        var j := SearchWord(i, frames, alignment);
        if j.Some? {
          Position(bitmap[..], i, j.value);
          WithoutMeans(bitmap[..], 32 * i + j.value, frames);
          ghost var k := ModuloMultiple(32 * i + j.value, alignment);
          Clear(i, j.value, frames);
          return Some((i * 32 + j.value) * FRAME);
        }
      }
      return None;
    }

    /** memory_free. */
    method Free(frame: nat)
      requires frame / FRAME < 32 * bitmap.Length
      modifies bitmap
      ensures bitmap[..] == With(old(bitmap[..]), frame / FRAME)
      ensures forall g: int :: IsFree(bitmap[..], g) <==> IsFree(old(bitmap[..]), g) || g == frame / 0x1000
    {
      var f := frame / FRAME;
      bitmap[f / 32] := bitmap[f / 32][f % 32 := true];
    }
  }

  /** Freeing the frame that memory_alloc gave restores the bitmap. */
  lemma FreeRestores(m: Bitmap, f: nat)
    requires IsFree(m, f)
    ensures With(Without(m, f, 1), f) == m
  {
    var a := With(Without(m, f, 1), f);
    forall g: int ensures IsFree(a, g) <==> IsFree(m, g) {
      WithIsFree(Without(m, f, 1), f, g);
      WithoutIsFree(m, f, 1, g);
    }
    SameBitmap(a, m);
  }

  /** Frames `f` to `f + n - 1` are freed, one after the other. */
  function WithRun(m: Bitmap, f: nat, n: nat): Bitmap {
    if n == 0 then m else With(WithRun(m, f, n - 1), f + n - 1)
  }

  lemma {:induction false} WithRunIsFree(m: Bitmap, f: nat, n: nat, g: int)
    requires f + n <= 32 * |m|
    ensures |WithRun(m, f, n)| == |m|
    ensures IsFree(WithRun(m, f, n), g) <==> IsFree(m, g) || f <= g < f + n
  {
    if n > 0 {
      WithRunIsFree(m, f, n - 1, g);
      WithIsFree(WithRun(m, f, n - 1), f + n - 1, g);
    }
  }

  /** Freeing the frames that memory_alloc_aligned gave restores the bitmap. */
  lemma FreeRunRestores(m: Bitmap, n: nat, a: nat, f: nat)
    requires FreeRun(m, n, a, f)
    ensures WithRun(Without(m, f, n), f, n) == m
  {
    var z := WithRun(Without(m, f, n), f, n);
    WithRunIsFree(Without(m, f, n), f, n, 0);
    forall g: int ensures IsFree(z, g) <==> IsFree(m, g) {
      WithRunIsFree(Without(m, f, n), f, n, g);
      WithoutIsFree(m, f, n, g);
    }
    SameBitmap(z, m);
  }

  // ---------- runs ----------

  /** The calls and what they returned, by frame numbers. */
  datatype Call =
    | Single(frame: int)                           // memory_alloc
    | Several(frames: nat, alignment: nat, first: int) // memory_alloc_aligned
    | Release(frame: int)                          // memory_free of a frame that is in use

  /** The call hands out frame `f`. */
  predicate Takes(c: Call, f: int) {
    match c
    case Single(g) => f == g
    case Several(n, a, g) => g <= f < g + n
    case Release(_) => false
  }

  /** The bitmap and the frames that are in use. */
  datatype State = State(bitmap: Bitmap, used: set<int>)

  /** The frames from FIRST on are either free or in use, and no other frame is. */
  ghost predicate Good(s: State) {
    && |s.bitmap| == BITMAP_SIZE
    && (forall f: int :: f in s.used ==> FIRST <= f < 32 * BITMAP_SIZE)
    && (forall f: int :: IsFree(s.bitmap, f) <==> FIRST <= f < 32 * BITMAP_SIZE && f !in s.used)
  }

  function RunOf(f: int, n: nat): (run: set<int>)
    ensures forall g: int :: g in run <==> f <= g < f + n
  {
    if n == 0 then {} else RunOf(f, n - 1) + {f + n - 1}
  }

  /** The calls do what the methods above promise. */
  ghost predicate Step(s: State, c: Call, s': State) {
    match c
    case Single(f) =>
      f >= 0 && Lowest(s.bitmap, f) && s'.bitmap == Without(s.bitmap, f, 1) && s'.used == s.used + {f}
    case Several(n, a, f) =>
      && FirstRun(s.bitmap, n, a, f) && s'.bitmap == Without(s.bitmap, f, n)
      && s'.used == s.used + RunOf(f, n)
    case Release(f) =>
      f in s.used && f >= 0 && s'.bitmap == With(s.bitmap, f) && s'.used == s.used - {f}
  }

  lemma StepGood(s: State, c: Call, s': State)
    requires Good(s) && Step(s, c, s')
    ensures Good(s')
    ensures forall f: int :: Takes(c, f) ==> FIRST <= f < 32 * BITMAP_SIZE && f !in s.used && f in s'.used
  {
    match c
    case Single(f) =>
      forall g: int ensures IsFree(s'.bitmap, g) <==> IsFree(s.bitmap, g) && g != f {
        WithoutIsFree(s.bitmap, f, 1, g);
      }
    case Several(n, a, f) =>
      forall g: int ensures IsFree(s'.bitmap, g) <==> IsFree(s.bitmap, g) && !(f <= g < f + n) {
        WithoutIsFree(s.bitmap, f, n, g);
      }
      forall g: int | Takes(c, g) ensures FIRST <= g < 32 * BITMAP_SIZE && g !in s.used && g in s'.used {
        assert IsFree(s.bitmap, g);
      }
    case Release(f) =>
      forall g: int ensures IsFree(s'.bitmap, g) <==> IsFree(s.bitmap, g) || g == f { WithIsFree(s.bitmap, f, g); }
  }

  ghost predicate Run(ss: seq<State>, cs: seq<Call>) {
    && |ss| == |cs| + 1 && Good(ss[0]) && ss[0].used == {}
    && forall i {:trigger cs[i]} :: 0 <= i < |cs| ==> Step(ss[i], cs[i], ss[i + 1])
  }

  /** The frames from 2048 on are either free or in use, and no other frame is. */
  lemma {:induction false} RunGood(ss: seq<State>, cs: seq<Call>, i: nat)
    requires Run(ss, cs) && i < |ss|
    ensures Good(ss[i])
    ensures forall f: int :: f in ss[i].used ==> 2048 <= f < 0x100000
    ensures forall f: int :: IsFree(ss[i].bitmap, f) <==> 2048 <= f < 0x100000 && f !in ss[i].used
  {
    if i > 0 {
      RunGood(ss, cs, i - 1);
      assert Step(ss[i - 1], cs[i - 1], ss[i]);
      StepGood(ss[i - 1], cs[i - 1], ss[i]);
    }
  }

  /** A frame stays in use until it is released. */
  lemma {:induction false} StaysUsed(ss: seq<State>, cs: seq<Call>, i: nat, j: nat, f: int)
    requires Run(ss, cs) && i <= j < |ss| && f in ss[i].used
    requires forall k :: i <= k < j ==> cs[k] != Release(f)
    ensures f in ss[j].used
  {
    if i < j {
      StaysUsed(ss, cs, i, j - 1, f);
      assert cs[j - 1] != Release(f);
      assert Step(ss[j - 1], cs[j - 1], ss[j]);
    }
  }

  /** No frame below 2048 is ever handed out, and none is handed out twice without a release between. */
  lemma HandedOutOnce(ss: seq<State>, cs: seq<Call>, i: nat, j: nat, f: int)
    requires Run(ss, cs) && i <= j < |cs|
    requires cs[i] == Single(f) || (cs[i].Several? && cs[i].first <= f < cs[i].first + cs[i].frames)
    requires cs[j] == Single(f) || (cs[j].Several? && cs[j].first <= f < cs[j].first + cs[j].frames)
    ensures 2048 <= f < 0x100000
    ensures i < j ==> exists k :: i < k < j && cs[k] == Release(f)
  {
    RunGood(ss, cs, i);
    RunGood(ss, cs, j);
    assert Takes(cs[i], f) && Takes(cs[j], f);
    assert Step(ss[i], cs[i], ss[i + 1]) && Step(ss[j], cs[j], ss[j + 1]);
    StepGood(ss[i], cs[i], ss[i + 1]);
    StepGood(ss[j], cs[j], ss[j + 1]);
    if i < j && forall k :: i < k < j ==> cs[k] != Release(f) {
      StaysUsed(ss, cs, i + 1, j, f);
    }
  }

  lemma RunNext(ss: seq<State>, cs: seq<Call>, c: Call, s': State)
    requires Run(ss, cs) && Step(ss[|cs|], c, s')
    ensures Run(ss + [s'], cs + [c])
  {
    var ss', cs' := ss + [s'], cs + [c];
    forall i | 0 <= i < |cs'| ensures Step(ss'[i], cs'[i], ss'[i + 1]) {
      if i < |cs| { assert Step(ss[i], cs[i], ss[i + 1]); }
    }
  }

  /** A program that uses the allocator: what it has done is a run. */
  class Program {
    const memory: Memory
    ghost var used: set<int>
    ghost var states: seq<State>
    ghost var calls: seq<Call>

    ghost predicate Valid()
      reads this, memory.bitmap
    {
      Run(states, calls) && states[|calls|] == State(memory.bitmap[..], used)
    }

    constructor ()
      ensures Valid() && used == {} && calls == [] && fresh(memory) && fresh(memory.bitmap)
    {
      memory := new Memory();
      new;
      memory.Init();
      used := {};
      states := [State(memory.bitmap[..], {})];
      calls := [];
    }

    ghost method Record(c: Call)
      requires Run(states, calls) && Step(states[|calls|], c, State(memory.bitmap[..], used))
      modifies `states, `calls
      ensures Valid() && calls == old(calls) + [c]
    {
      RunNext(states, calls, c, State(memory.bitmap[..], used));
      states, calls := states + [State(memory.bitmap[..], used)], calls + [c];
    }

    method Alloc() returns (frame: Option<nat>)
      requires Valid()
      modifies this, memory.bitmap
      ensures Valid()
      ensures frame == None ==> used == old(used) && calls == old(calls)
      ensures frame == None ==> forall f: int :: 2048 <= f < 0x100000 ==> f in old(used)
      ensures frame.Some? ==> var f := frame.value / 0x1000;
        f !in old(used) && used == old(used) + {f} && calls == old(calls) + [Single(f)]
    {
      RunGood(states, calls, |calls|);
      frame := memory.Alloc();
      if frame.Some? {
        used := used + {frame.value / FRAME};
        Record(Single(frame.value / FRAME));
      }
    }

    method AllocAligned(frames: nat, alignment: nat) returns (frame: Option<nat>)
      requires Valid() && 1 <= frames && alignment <= 30
      modifies this, memory.bitmap
      ensures Valid()
      ensures frame == None ==> used == old(used) && calls == old(calls)
      ensures frame.Some? ==> var f := frame.value / 0x1000;
        && (forall g: int :: f <= g < f + frames ==> g !in old(used))
        && (forall g: int :: g in used <==> g in old(used) || f <= g < f + frames)
        && calls == old(calls) + [Several(frames, alignment, f)]
    {
      RunGood(states, calls, |calls|);
      frame := memory.AllocAligned(frames, alignment);
      if frame.Some? {
        used := used + RunOf(frame.value / FRAME, frames);
        Record(Several(frames, alignment, frame.value / FRAME));
      }
    }

    method Free(frame: nat)
      requires Valid() && frame / 0x1000 in used
      modifies this, memory.bitmap
      ensures Valid()
      ensures used == old(used) - {frame / 0x1000} && calls == old(calls) + [Release(frame / 0x1000)]
    {
      RunGood(states, calls, |calls|);
      memory.Free(frame);
      used := used - {frame / FRAME};
      Record(Release(frame / FRAME));
    }
  }
}
