/** What the operations of kernel/arch/i386/paging.c do to memory, as functions of the memory before. */
module Edits {
  import opened Bits
  import opened Mmu
  import opened Contexts

  /** A table entry is written in context `c`, whose table for `virt` is present. */
  function SetEntry(m: Memory, c: bv20, virt: bv32, e: bv32): Memory {
    m[Cell(FrameOf(Word(m, c, DirIndex(virt))), TableIndex(virt)) := e]
  }

  /** The first `n` words of frame `f` are zero. */
  ghost function ZeroedTo(m: Memory, f: bv20, n: nat): Memory {
    imap x: Cell :: if x.frame == f && Number(x.slot) < n then 0 else m[x]
  }

  /** A new table `f` is put into the directory of `c` for `virt`, with one entry. */
  ghost function NewTable(m: Memory, c: bv20, virt: bv32, f: bv20, d: bv32, e: bv32): Memory {
    ZeroedTo(m, f, 1024)[Cell(c, DirIndex(virt)) := d][Cell(f, TableIndex(virt)) := e]
  }

  lemma ZeroedNext(m: Memory, f: bv20, n: nat)
    requires n < 1024
    ensures ZeroedTo(m, f, n)[Cell(f, SlotAt(n)) := 0] == ZeroedTo(m, f, n + 1)
  {
    var a, b := ZeroedTo(m, f, n)[Cell(f, SlotAt(n)) := 0], ZeroedTo(m, f, n + 1);
    forall x: Cell ensures a[x] == b[x] {
      NextSlot(x.slot, n);
    }
  }

  /** Words 768 up to `n` of frame `f` are those of frame `b`. */
  ghost function CopiedTo(m: Memory, b: bv20, f: bv20, n: nat): Memory {
    imap x: Cell :: if x.frame == f && 768 <= Number(x.slot) < n then m[Cell(b, x.slot)] else m[x]
  }

  /**
   * Frames `f` and `t` are the directory and the self table of a new context with the kernel half of `b`;
   * the entries `d` and `e` point to them.
   */
  ghost function NewContext(m: Memory, b: bv20, f: bv20, t: bv20, d: bv32, e: bv32): Memory {
    imap x: Cell ::
      if x.frame == f then
        if Number(x.slot) < 768 then 0
        else if Number(x.slot) < 1022 then m[Cell(b, x.slot)]
        else if x.slot == 1022 then e
        else d
      else if x.frame == t then
        if x.slot == 1023 then d else 0
      else m[x]
  }

  lemma CopiedNone(m: Memory, b: bv20, f: bv20)
    ensures CopiedTo(m, b, f, 768) == m
  {
  }

  lemma CopiedNext(m: Memory, b: bv20, f: bv20, n: nat)
    requires 768 <= n < 1024
    ensures CopiedTo(m, b, f, n)[Cell(f, SlotAt(n)) := m[Cell(b, SlotAt(n))]] == CopiedTo(m, b, f, n + 1)
  {
    var a := CopiedTo(m, b, f, n)[Cell(f, SlotAt(n)) := m[Cell(b, SlotAt(n))]];
    var z := CopiedTo(m, b, f, n + 1);
    NumberOfSlot(n);
    forall x: Cell ensures a[x] == z[x] {
      NextSlot(x.slot, n);
    }
  }

  /** The clearing and copying of paging_create_context, word by word. */
  lemma HalfMade(m: Memory, b: bv20, f: bv20, t: bv20, x: Cell)
    requires f != t && b != f && b != t
    ensures CopiedTo(ZeroedTo(ZeroedTo(m, t, 1024), f, 768), b, f, 1022)[x] ==
            if x.frame == f then
              if Number(x.slot) < 768 then 0 else if Number(x.slot) < 1022 then m[Cell(b, x.slot)] else m[x]
            else if x.frame == t then 0
            else m[x]
  {
    SlotOfNumber(x.slot);
  }

  lemma SameMemory(a: Memory, z: Memory)
    requires forall x: Cell :: a[x] == z[x]
    ensures a == z
  {
  }

  /** The last three writes of paging_create_context. */
  function SelfMap(m: Memory, f: bv20, t: bv20, d: bv32, e: bv32): Memory {
    m[Cell(t, 1023) := d][Cell(f, 1022) := e][Cell(f, 1023) := d]
  }

  lemma SelfMapWord(m: Memory, f: bv20, t: bv20, d: bv32, e: bv32, x: Cell)
    requires f != t
    ensures SelfMap(m, f, t, d, e)[x] ==
            if x.frame == f then if x.slot == 1023 then d else if x.slot == 1022 then e else m[x]
            else if x.frame == t && x.slot == 1023 then d else m[x]
  {
  }

  lemma NewContextWord(m: Memory, m': Memory, b: bv20, f: bv20, t: bv20, d: bv32, e: bv32, x: Cell)
    requires f != t && b != f && b != t
    requires m' == CopiedTo(ZeroedTo(ZeroedTo(m, t, 1024), f, 768), b, f, 1022)
    ensures SelfMap(m', f, t, d, e)[x] == NewContext(m, b, f, t, d, e)[x]
  {
    LastTwo(x.slot);
    if x.frame == f {
      HalfMade(m, b, f, t, x);
      SelfMapWord(m', f, t, d, e, x);
    } else if x.frame == t {
      HalfMade(m, b, f, t, x);
      SelfMapWord(m', f, t, d, e, x);
    } else {
      HalfMade(m, b, f, t, x);
      SelfMapWord(m', f, t, d, e, x);
    }
  }

  /** The steps of paging_create_context, put together. */
  lemma NewContextInSteps(m: Memory, m': Memory, b: bv20, f: bv20, t: bv20, d: bv32, e: bv32)
    requires f != t && b != f && b != t
    requires m' == CopiedTo(ZeroedTo(ZeroedTo(m, t, 1024), f, 768), b, f, 1022)
    ensures SelfMap(m', f, t, d, e) == NewContext(m, b, f, t, d, e)
  {
    var a := SelfMap(m', f, t, d, e);
    var z := NewContext(m, b, f, t, d, e);
    forall x: Cell ensures a[x] == z[x] {
      NewContextWord(m, m', b, f, t, d, e, x);
    }
    SameMemory(a, z);
  }

  /** A window entry that was zero, set and cleared around the making of a context. */
  lemma RestoredContext(m: Memory, w: Cell, a: bv32, b: bv20, f: bv20, t: bv20, d: bv32, e: bv32)
    requires m[w] == 0 && w.frame != f && w.frame != t && w.frame != b
    ensures NewContext(m[w := a], b, f, t, d, e)[w := 0] == NewContext(m, b, f, t, d, e)
  {
  }

  lemma NewContextWindow(m: Memory, k: bv20, b: bv20, f: bv20, t: bv20, d: bv32, e: bv32, p: bv32)
    requires InWindow(p) && k != f && k != t
    ensures WindowCell(NewContext(m, b, f, t, d, e), k, p) == WindowCell(m, k, p)
  {
  }

  lemma NewContextFresh(m: Memory, b: bv20, f: bv20, t: bv20)
    requires f != t && b != f && b != t
    ensures Contexts.Fresh(NewContext(m, b, f, t, Pointer(Address(f)), Pointer(Address(t))), b, f, t)
  {
    forall i: bv10 ensures (Number(i) < 768 <==> i < 768) && (Number(i) < 1022 <==> i < 1022) {
      Halves(i);
    }
  }

  lemma ZeroedElsewhere(m: Memory, f: bv20, w: Cell, a: bv32)
    requires w.frame != f
    ensures ZeroedTo(m[w := a], f, 1024) == ZeroedTo(m, f, 1024)[w := a]
  {
  }

  lemma RestoredTwo(m: Memory, w: Cell, a: bv32, x: Cell, d: bv32, y: Cell, e: bv32)
    requires m[w] == 0 && w != x && w != y
    ensures m[w := a][x := d][y := e][w := 0] == m[x := d][y := e]
  {
  }

  /** A window entry that was zero, set and cleared around the installation of a table in frame `f`. */
  lemma RestoredNew(m: Memory, w: Cell, a: bv32, c: bv20, virt: bv32, f: bv20, d: bv32, e: bv32)
    requires m[w] == 0 && w.frame != f && w.frame != c
    ensures ZeroedTo(m[w := a], f, 1024)[Cell(c, DirIndex(virt)) := d][Cell(f, TableIndex(virt)) := e][w := 0]
         == NewTable(m, c, virt, f, d, e)
  {
    ZeroedElsewhere(m, f, w, a);
    RestoredTwo(ZeroedTo(m, f, 1024), w, a, Cell(c, DirIndex(virt)), d, Cell(f, TableIndex(virt)), e);
  }

  /** A window entry that was zero, set and cleared around a write to another word. */
  lemma Restored(m: Memory, w: Cell, a: bv32, x: Cell, e: bv32)
    requires m[w] == 0 && x != w
    ensures m[w := a][x := e][w := 0] == m[x := e]
  {
  }
}
