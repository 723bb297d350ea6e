/**
 * Physical memory and the two-level address translation of the 32-bit x86
 * (Intel SDM Volume 3A, section 4.3), with a coherent TLB.
 */
module Mmu {
  import opened Wrappers

  /** A word of physical memory: one of the 1024 words of a frame. */
  datatype Cell = Cell(frame: bv20, slot: bv10)

  type Memory = m: imap<Cell, bv32> | forall x: Cell :: x in m ghost witness imap x: Cell :: 0

  function Word(m: Memory, f: bv20, s: bv10): bv32 {
    m[Cell(f, s)]
  }

  // ---------- entries ----------

  predicate Present(e: bv32) { e & 1 == 1 }

  /** The page-size bit: in a directory entry it maps 4 MB without a table. */
  predicate Big(e: bv32) { e & 0x80 == 0x80 }

  function FrameOf(e: bv32): bv20 { (e >> 12) as bv20 }

  function Address(f: bv20): bv32 { (f as bv32) << 12 }

  /** The entry for the frame at `phys`: present and writable. */
  function Pointer(phys: bv32): bv32 { phys | 3 }

  // ---------- virtual addresses ----------

  function DirIndex(v: bv32): bv10 { (v >> 22) as bv10 }
  function TableIndex(v: bv32): bv10 { ((v >> 12) & 0x3ff) as bv10 }
  function WordIndex(v: bv32): bv10 { ((v >> 2) & 0x3ff) as bv10 }

  // ---------- translation ----------

  /** The frame that holds the page of `v` in the context whose directory is frame `c`. */
  function Page(m: Memory, c: bv20, v: bv32): Option<bv20> {
    var d := Word(m, c, DirIndex(v));
    if !Present(d) then None
    else if Big(d) then Some(FrameOf((d & 0xffc00000) | (v & 0x003fffff)))
    else
      var t := Word(m, FrameOf(d), TableIndex(v));
      if Present(t) then Some(FrameOf(t)) else None
  }

  /** The word of memory that an aligned access to `v` reaches. */
  function Walk(m: Memory, c: bv20, v: bv32): Option<Cell> {
    var f := Page(m, c, v);
    if f.Some? then Some(Cell(f.value, WordIndex(v))) else None
  }

  lemma PageOfTable(m: Memory, c: bv20, v: bv32, d: bv32, t: bv32)
    requires Word(m, c, DirIndex(v)) == d && Present(d) && !Big(d) && Word(m, FrameOf(d), TableIndex(v)) == t
    ensures Page(m, c, v) == if Present(t) then Some(FrameOf(t)) else None
  {
  }

  lemma PageBase(t: bv32)
    ensures t & 0xfffff000 == Address(FrameOf(t))
  {
  }

  lemma ByteInFrame(t: bv32, v: bv32)
    ensures var a := (t & 0xfffff000) + (v & 0xfff); FrameOf(a) == FrameOf(t) && a & 0xfff == v & 0xfff
  {
  }

  /** A translation depends on one directory entry and, through it, on one table entry. */
  lemma PageSame(m: Memory, m': Memory, c: bv20, v: bv32)
    requires Word(m', c, DirIndex(v)) == Word(m, c, DirIndex(v))
    requires var d := Word(m, c, DirIndex(v));
             Present(d) && !Big(d) ==> Word(m', FrameOf(d), TableIndex(v)) == Word(m, FrameOf(d), TableIndex(v))
    ensures Page(m', c, v) == Page(m, c, v)
  {
  }

  // ---------- the windows ----------

  const PAGE_DIR: bv32 := 0xffbff000
  const PAGE_TABLES: bv32 := 0xffc00000

  /** The address of page_dir[i], page_tables[p] and word `i` of a page at `v`. */
  function DirAddress(i: bv10): bv32 { PAGE_DIR + ((i as bv32) << 2) }

  function TableAddress(p: bv32): bv32
    requires p < 0x100000
  {
    PAGE_TABLES + (p << 2)
  }

  function WordAddress(v: bv32, i: bv10): bv32 { v + ((i as bv32) << 2) }

  /** Entry 1023 of the directory points to the directory, and so does entry 1023 of table 1022. */
  ghost predicate SelfMapped(m: Memory, c: bv20) {
    && Word(m, c, 1023) == Pointer(Address(c))
    && Present(Word(m, c, 1022)) && !Big(Word(m, c, 1022))
    && Word(m, FrameOf(Word(m, c, 1022)), 1023) == Pointer(Address(c))
  }

  /** Page number `p` has its table entry here, if its table is present. */
  function PteCell(m: Memory, c: bv20, p: bv32): Cell
    requires p < 0x100000
  {
    Cell(FrameOf(Word(m, c, (p >> 10) as bv10)), (p & 0x3ff) as bv10)
  }

  lemma SelfEntry(c: bv20)
    ensures var e := Pointer(Address(c)); Present(e) && !Big(e) && FrameOf(e) == c
  {
  }

  lemma DirIndices(i: bv10, v: bv32)
    requires v == PAGE_DIR + ((i as bv32) << 2)
    ensures DirIndex(v) == 1022 && TableIndex(v) == 1023 && WordIndex(v) == i
  {
  }

  /** page_dir[i] is entry `i` of the directory that is in use. */
  lemma DirWindow(m: Memory, c: bv20, i: bv10)
    requires SelfMapped(m, c)
    ensures Walk(m, c, DirAddress(i)) == Some(Cell(c, i))
  {
    SelfEntry(c);
    DirIndices(i, DirAddress(i));
  }

  lemma TableIndices(p: bv32, v: bv32)
    requires p < 0x100000 && v == PAGE_TABLES + (p << 2)
    ensures DirIndex(v) == 1023 && TableIndex(v) == (p >> 10) as bv10 && WordIndex(v) == (p & 0x3ff) as bv10
  {
  }

  /** page_tables[p] is the table entry of page number `p`, whenever its table is present. */
  lemma TableWindow(m: Memory, c: bv20, p: bv32)
    requires SelfMapped(m, c) && p < 0x100000
    ensures Walk(m, c, TableAddress(p)) ==
            if Present(Word(m, c, (p >> 10) as bv10)) then Some(PteCell(m, c, p)) else None
  {
    SelfEntry(c);
    TableIndices(p, TableAddress(p));
  }

  /** A page's address, its page number and its indices. */
  lemma PageNumber(v: bv32)
    ensures v >> 12 < 0x100000
    ensures ((v >> 12) >> 10) as bv10 == DirIndex(v) && ((v >> 12) & 0x3ff) as bv10 == TableIndex(v)
  {
  }

  /** page_tables[p] for the page of `v`, in terms of the indices of `v`. */
  lemma TableCell(m: Memory, c: bv20, v: bv32, p: bv32)
    requires SelfMapped(m, c) && p == v >> 12 && p < 0x100000 && Present(Word(m, c, DirIndex(v)))
    ensures Walk(m, c, TableAddress(p)) == Some(Cell(FrameOf(Word(m, c, DirIndex(v))), TableIndex(v)))
  {
    PageNumber(v);
    TableWindow(m, c, p);
  }

  lemma WordOfPage(v: bv32, i: bv10)
    requires v & 0xfff == 0
    ensures var a := WordAddress(v, i);
            DirIndex(a) == DirIndex(v) && TableIndex(a) == TableIndex(v) && WordIndex(a) == i
  {
  }

  lemma EntryOf(phys: bv32, flags: bv32)
    requires flags < 0x1000
    ensures FrameOf(phys | flags | 3) == FrameOf(phys) && Present(phys | flags | 3)
  {
  }

  lemma AddressFrame(f: bv20)
    ensures FrameOf(Address(f)) == f && Address(f) & 0xfff == 0
  {
  }
}
