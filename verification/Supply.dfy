/** memory_alloc on its bitmap does what module Paging asks of it: the free frames are the set bits. */
module Supply {
  import opened Wrappers
  import opened Bits
  import opened Mmu
  import opened Boot
  import Frames

  // ---------- frame numbers ----------

  function High(f: bv20): bv10 { (f >> 10) as bv10 }
  function Low(f: bv20): bv10 { (f & 0x3ff) as bv10 }

  lemma Narrow(x: bv20)
    requires x < 0x400
    ensures (x as bv10) as int == x as int
  {
  }

  lemma Halved(f: bv20, h: bv20, l: bv20)
    requires h == f >> 10 && l == f & 0x3ff
    ensures f as int == 1024 * (h as int) + l as int && h < 0x400 && l < 0x400
  {
  }

  lemma ValueOf(f: bv20)
    ensures f as int == 1024 * Number(High(f)) + Number(Low(f))
  {
    Halved(f, f >> 10, f & 0x3ff);
    Narrow(f >> 10);
    Narrow(f & 0x3ff);
    NumberIs(High(f));
    NumberIs(Low(f));
  }

  lemma SameHalves(f: bv20, g: bv20)
    requires High(f) == High(g) && Low(f) == Low(g)
    ensures f == g
  {
  }

  lemma Digits(a: nat, b: nat, c: nat, d: nat)
    requires 1024 * a + b == 1024 * c + d && b < 1024 && d < 1024
    ensures a == c && b == d
  {
  }

  lemma SameFrame(f: bv20, g: bv20)
    requires f as int == g as int
    ensures f == g
  {
    ValueOf(f);
    ValueOf(g);
    SlotOfNumber(Low(f));
    SlotOfNumber(Low(g));
    Digits(Number(High(f)), Number(Low(f)), Number(High(g)), Number(Low(g)));
    SameNumber(High(f), High(g));
    SameNumber(Low(f), Low(g));
    SameHalves(f, g);
  }

  function Joined(h: bv10, l: bv10): bv20 { ((h as bv20) << 10) | (l as bv20) }

  lemma JoinedHalves(h: bv10, l: bv10)
    ensures High(Joined(h, l)) == h && Low(Joined(h, l)) == l
  {
  }

  /** The frame with number `n`. */
  function FrameAt(n: nat): (f: bv20)
    requires n < 0x100000
    ensures f as int == n
  {
    var f := Joined(SlotAt(n / 1024), SlotAt(n % 1024));
    JoinedHalves(SlotAt(n / 1024), SlotAt(n % 1024));
    NumberOfSlot(n / 1024);
    NumberOfSlot(n % 1024);
    ValueOf(f);
    f
  }

  lemma LowNumber(f: bv20)
    ensures LowFrame(f) <==> f as int < 0xc0000
  {
    assert LowFrame(f) <==> f < 0xc0000;
  }

  // ---------- the free frames ----------

  function FreeFrames(m: Frames.Bitmap): set<bv20> {
    set n: nat | n < 0x100000 && Frames.IsFree(m, n) :: FrameAt(n)
  }

  lemma InFreeFrames(m: Frames.Bitmap, f: bv20)
    ensures f in FreeFrames(m) <==> Frames.IsFree(m, f as int)
  {
    var n: nat := f as int;
    SameFrame(f, FrameAt(n));
    if Frames.IsFree(m, n) { assert FrameAt(n) in FreeFrames(m); }
  }

  lemma WithoutFrame(m: Frames.Bitmap, f: bv20)
    ensures FreeFrames(Frames.Without(m, f as int, 1)) == FreeFrames(m) - {f}
  {
    var m' := Frames.Without(m, f as int, 1);
    forall g: bv20 ensures g in FreeFrames(m') <==> g in FreeFrames(m) && g != f {
      InFreeFrames(m, g);
      InFreeFrames(m', g);
      Frames.WithoutIsFree(m, f as int, 1, g as int);
      if f as int == g as int { SameFrame(f, g); }
    }
  }

  lemma LowestIsLow(m: Frames.Bitmap, f: bv20, g: bv20)
    requires Frames.Lowest(m, f as int) && g in FreeFrames(m) && LowFrame(g)
    ensures LowFrame(f)
  {
    InFreeFrames(m, g);
    LowNumber(f);
    LowNumber(g);
  }

  /** memory_alloc: the contract of Paging.Kernel.MemoryAlloc, with the set bits for the free frames. */
  method MemoryAlloc(memory: Frames.Memory) returns (phys: Option<bv32>, ghost f: bv20)
    requires memory.bitmap.Length == Frames.BITMAP_SIZE
    modifies memory.bitmap
    ensures var free, free' := old(FreeFrames(memory.bitmap[..])), FreeFrames(memory.bitmap[..]);
            && (phys == None <==> free == {})
            && (phys == None ==> free' == free)
            && (phys.Some? ==> phys.value == Address(f) && f in free && free' == free - {f})
            && ((exists g: bv20 :: g in free && LowFrame(g)) ==> phys.Some? && LowFrame(f))
  {
    ghost var m := memory.bitmap[..];
    f := 0;
    var frame := memory.Alloc();
    if frame == None { return None, f; }
    var g := FrameAt(frame.value / Frames.FRAME);
    f := g;
    InFreeFrames(m, f);
    WithoutFrame(m, f);
    forall h: bv20 | h in FreeFrames(m) && LowFrame(h) ensures LowFrame(f) { LowestIsLow(m, f, h); }
    phys := Some(Address(g));
  }
}
