/** Facts about 32-bit words and addresses that need no memory. */
module Bits {
  /** The page numbers from 0xd0000 up to 0xe0000. */
  predicate InWindow(p: bv32) { p >> 16 == 0xd }

  function High(p: bv32): bv8 { ((p >> 8) & 0xff) as bv8 }
  function Low(p: bv32): bv8 { (p & 0xff) as bv8 }

  /** The pair of bytes `a`, `b` comes before the pair `c`, `d`. */
  predicate Less(a: bv8, b: bv8, c: bv8, d: bv8) {
    a < c || (a == c && b < d)
  }

  /** Window page `q` comes before window page `p`. */
  predicate Before(q: bv32, p: bv32) {
    Less(High(q), Low(q), High(p), Low(p))
  }

  /** The window's first address and the address behind it. */
  const START: bv32 := 0xd0000000
  const END: bv32 := 0xe0000000

  /** A scan by pages can be at address `v`: a page of the window, or behind the last one. */
  predicate At(v: bv32) {
    v & 0xfff == 0 && (v == END || InWindow(v >> 12))
  }

  /** A scan that has come to address `v` has passed page `q`. */
  predicate Passed(q: bv32, v: bv32) {
    v == END || Before(q, v >> 12)
  }

  lemma SamePage(q: bv32, p: bv32)
    requires InWindow(q) && InWindow(p) && High(q) == High(p) && Low(q) == Low(p)
    ensures q == p
  {
  }

  lemma NextWithin(v: bv32, p: bv32)
    requires v & 0xfff == 0 && InWindow(p) && p == v >> 12 && Low(p) != 0xff
    ensures High((v + 0x1000) >> 12) == High(p) && Low((v + 0x1000) >> 12) == Low(p) + 1
    ensures InWindow((v + 0x1000) >> 12)
  {
  }

  lemma NextAcross(v: bv32, p: bv32)
    requires v & 0xfff == 0 && InWindow(p) && p == v >> 12 && Low(p) == 0xff && High(p) != 0xff
    ensures High((v + 0x1000) >> 12) == High(p) + 1 && Low((v + 0x1000) >> 12) == 0
    ensures InWindow((v + 0x1000) >> 12)
  {
  }

  lemma LessUp(a: bv8, b: bv8, c: bv8, d: bv8)
    requires d != 0xff && Less(a, b, c, d + 1)
    ensures Less(a, b, c, d) || (a == c && b == d)
  {
  }

  lemma LessCarry(a: bv8, b: bv8, c: bv8)
    requires c != 0xff && Less(a, b, c + 1, 0)
    ensures Less(a, b, c, 0xff) || (a == c && b == 0xff)
  {
  }

  lemma LessTop(a: bv8, b: bv8)
    ensures Less(a, b, 0xff, 0xff) || (a == 0xff && b == 0xff)
  {
  }

  lemma PassedWithin(q: bv32, p: bv32, n: bv32)
    requires InWindow(q) && InWindow(p) && Low(p) != 0xff
    requires High(n) == High(p) && Low(n) == Low(p) + 1 && Before(q, n)
    ensures Before(q, p) || q == p
  {
    LessUp(High(q), Low(q), High(p), Low(p));
    if High(q) == High(p) && Low(q) == Low(p) { SamePage(q, p); }
  }

  lemma PassedAcross(q: bv32, p: bv32, n: bv32)
    requires InWindow(q) && InWindow(p) && Low(p) == 0xff && High(p) != 0xff
    requires High(n) == High(p) + 1 && Low(n) == 0 && Before(q, n)
    ensures Before(q, p) || q == p
  {
    LessCarry(High(q), Low(q), High(p));
    if High(q) == High(p) && Low(q) == Low(p) { SamePage(q, p); }
  }

  lemma PassedLast(q: bv32, p: bv32)
    requires InWindow(q) && InWindow(p) && Low(p) == 0xff && High(p) == 0xff
    ensures Before(q, p) || q == p
  {
    LessTop(High(q), Low(q));
    if High(q) == High(p) && Low(q) == Low(p) { SamePage(q, p); }
  }

  lemma NotLast(v: bv32, p: bv32)
    requires v & 0xfff == 0 && InWindow(p) && p == v >> 12 && (Low(p) != 0xff || High(p) != 0xff)
    ensures v + 0x1000 != END
  {
  }

  /** One step of a scan by pages: the pages passed are those passed before and the one at `v`. */
  lemma PassedPages(q: bv32, v: bv32)
    requires v & 0xfff == 0 && InWindow(v >> 12) && InWindow(q) && Passed(q, v + 0x1000)
    ensures Passed(q, v) || q == v >> 12
  {
    var p, n := v >> 12, (v + 0x1000) >> 12;
    if Low(p) != 0xff {
      NotLast(v, p);
      NextWithin(v, p);
      PassedWithin(q, p, n);
    } else if High(p) != 0xff {
      NotLast(v, p);
      NextAcross(v, p);
      PassedAcross(q, p, n);
    } else {
      PassedLast(q, p);
    }
  }

  lemma NextPage(v: bv32)
    requires At(v) && v != END
    ensures At(v + 0x1000)
  {
  }

  lemma Below(v: bv32)
    requires At(v) && v < END
    ensures v != END
  {
  }

  lemma AtEnd(v: bv32)
    requires At(v) && !(v < END)
    ensures v == END
  {
  }

  function Value(b: bv8): nat { b as int }

  lemma ValueUp(b: bv8)
    requires b != 0xff
    ensures Value(b + 1) == Value(b) + 1
  {
  }

  /** How many pages a scan at `v` has before it. */
  function Left(v: bv32): (n: int)
    requires At(v)
  {
    if v == END then 0 else 0x10000 - 256 * Value(High(v >> 12)) - Value(Low(v >> 12))
  }

  lemma LeftPositive(v: bv32)
    requires At(v) && v != END
    ensures Left(v) > 0
  {
  }

  lemma FewerLeft(v: bv32)
    requires At(v) && v != END && At(v + 0x1000)
    ensures 0 <= Left(v + 0x1000) < Left(v)
  {
    var p := v >> 12;
    LeftPositive(v);
    if v + 0x1000 != END {
      LeftPositive(v + 0x1000);
      if Low(p) != 0xff {
        NextWithin(v, p);
        ValueUp(Low(p));
      } else {
        NextAcross(v, p);
        ValueUp(High(p));
      }
    }
  }

  lemma SumOfDisjoint(a: bv32, b: bv32)
    requires a < 0x400 && b & 0x3ff == 0
    ensures a + b == a | b
  {
  }

  lemma Scaled(x: bv32)
    ensures 0x400 * x == x << 10
  {
  }

  /** The subscript that paging_getphys computes is the page number. */
  lemma GetphysSubscript(v: bv32)
    ensures (v >> 12) & (0x3ff + 0x400 * (v >> 22)) == v >> 12
  {
  }

  /** The subscript that paging_map computes is the page number. */
  lemma MapSubscript(v: bv32)
    ensures ((v >> 12) & 0x3ff) + 0x400 * (v >> 22) == v >> 12
  {
    Scaled(v >> 22);
    SumOfDisjoint((v >> 12) & 0x3ff, (v >> 22) << 10);
  }

  // ---------- the slots of a page by number ----------

  lemma Predecessor(s: bv10)
    requires s != 0
    ensures (s - 1) as int == s as int - 1
  {
  }

  function Number(s: bv10): nat
    decreases s as int
  {
    if s == 0 then 0 else
      Predecessor(s);
      Number(s - 1) + 1
  }

  function SlotAt(n: nat): (s: bv10)
    requires n < 1024
  {
    if n == 0 then 0 else SlotAt(n - 1) + 1
  }

  lemma {:induction false} NumberIs(s: bv10)
    ensures Number(s) == s as int
    decreases s as int
  {
    if s != 0 {
      Predecessor(s);
      NumberIs(s - 1);
    }
  }

  lemma NumberUp(s: bv10)
    requires s != 0x3ff
    ensures Number(s + 1) == Number(s) + 1
  {
    assert (s + 1) - 1 == s;
  }

  lemma LastSlot(s: bv10)
    ensures Number(s) == 1023 <==> s == 0x3ff
  {
    NumberIs(s);
  }

  lemma SameNumber(s: bv10, t: bv10)
    requires Number(s) == Number(t)
    ensures s == t
  {
    NumberIs(s);
    NumberIs(t);
  }

  lemma {:induction false} NumberOfSlot(n: nat)
    requires n < 1024
    ensures Number(SlotAt(n)) == n
  {
    if n > 0 {
      NumberOfSlot(n - 1);
      LastSlot(SlotAt(n - 1));
      NumberUp(SlotAt(n - 1));
    }
  }

  lemma SlotOfNumber(s: bv10)
    ensures Number(s) < 1024 && SlotAt(Number(s)) == s
  {
    NumberIs(s);
    NumberOfSlot(Number(s));
    SameNumber(SlotAt(Number(s)), s);
  }

  /** The slots of the user half and of the shared kernel half of a directory. */
  lemma Halves(s: bv10)
    ensures Number(s) < 768 <==> s < 768
    ensures Number(s) < 1022 <==> s < 1022
  {
    NumberIs(s);
  }

  lemma LastTwo(s: bv10)
    ensures s == 1022 || s == 1023 <==> Number(s) >= 1022
  {
    NumberIs(s);
  }

  lemma NextSlot(s: bv10, n: nat)
    requires n < 1024
    ensures Number(s) < n + 1 <==> Number(s) < n || s == SlotAt(n)
  {
    NumberOfSlot(n);
    if Number(s) == n { SameNumber(s, SlotAt(n)); }
  }
}
