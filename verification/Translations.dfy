/** What the operations of kernel/arch/i386/paging.c mean for the addresses that programs use. */
module Translations {
  import opened Wrappers
  import opened Bits
  import opened Mmu
  import opened Contexts
  import opened Edits
  import opened Boot
  import opened Effects

  // ---------- paging_map ----------

  lemma SetThenTranslate(m: Memory, c: bv20, virt: bv32, e: bv32)
    requires Plain(Word(m, c, DirIndex(virt))) && FrameOf(Word(m, c, DirIndex(virt))) != c && Present(e)
    ensures Page(SetEntry(m, c, virt, e), c, virt) == Some(FrameOf(e))
  {
    PageOfTable(SetEntry(m, c, virt, e), c, virt, Word(m, c, DirIndex(virt)), e);
  }

  lemma NewThenTranslate(m: Memory, c: bv20, virt: bv32, f: bv20, d: bv32, e: bv32)
    requires Plain(d) && FrameOf(d) == f && f != c && Present(e)
    ensures Page(NewTable(m, c, virt, f, d, e), c, virt) == Some(FrameOf(e))
  {
    PageOfTable(NewTable(m, c, virt, f, d, e), c, virt, d, e);
  }

  /** After paging_map the walk of the page gives the frame. */
  lemma MapThenTranslate(m: Memory, m': Memory, k: bv20, cs: set<bv20>, fs: set<bv20>, fs': set<bv20>,
                         rs: Roles, rs': Roles, c: bv20, virt: bv32, phys: bv32, access: bv32, f: bv20)
    requires Structure(m, k, cs, rs) && c in cs && UserPage(virt) && Flags(access) && TableOrNone(m, c, virt)
    requires forall g: bv20 :: g in fs ==> !Used(rs, g)
    requires Mapped(m, m', fs, fs', rs, rs', c, virt, phys, access, f)
    ensures Page(m', c, virt) == Some(FrameOf(phys))
  {
    assert Context(m, k, c, rs) && UserEntry(m, k, c, rs, DirIndex(virt));
    EntryOf(phys, access);
    if Present(Word(m, c, DirIndex(virt))) {
      SetThenTranslate(m, c, virt, phys | access | 3);
    } else {
      TableEntry(f, access);
      NewThenTranslate(m, c, virt, f, Address(f) | access | 3, phys | access | 3);
    }
  }

  lemma SetKeepsOthers(m: Memory, k: bv20, cs: set<bv20>, rs: Roles, c: bv20, virt: bv32, e: bv32, b: bv20, v: bv32)
    requires Structure(m, k, cs, rs) && c in cs && UserPage(virt) && Plain(Word(m, c, DirIndex(virt)))
    requires b in cs && DirIndex(v) < 1022
    requires b == c ==> !(DirIndex(v) == DirIndex(virt) && TableIndex(v) == TableIndex(virt))
    ensures Page(SetEntry(m, c, virt, e), b, v) == Page(m, b, v)
  {
    TableOwner(m, k, cs, rs, b, v);
    TableOwner(m, k, cs, rs, c, virt);
    PageSame(m, SetEntry(m, c, virt, e), b, v);
  }

  lemma NewKeepsOthers(m: Memory, k: bv20, cs: set<bv20>, rs: Roles, c: bv20, virt: bv32, f: bv20, d: bv32, e: bv32,
                       b: bv20, v: bv32)
    requires Structure(m, k, cs, rs) && c in cs && UserPage(virt) && !Present(Word(m, c, DirIndex(virt)))
    requires !Used(rs, f) && Plain(d) && FrameOf(d) == f
    requires b in cs && DirIndex(v) < 1022
    requires b == c ==> !(DirIndex(v) == DirIndex(virt) && TableIndex(v) == TableIndex(virt))
    ensures Page(NewTable(m, c, virt, f, d, e), b, v) == Page(m, b, v)
  {
    TableOwner(m, k, cs, rs, b, v);
    TableOwner(m, k, cs, rs, c, virt);
    var m' := NewTable(m, c, virt, f, d, e);
    var entry := Word(m, b, DirIndex(v));
    NewTableWord(m, c, virt, f, d, e, Cell(b, DirIndex(v)));
    if b == c && DirIndex(v) == DirIndex(virt) {
      NewTableWord(m, c, virt, f, d, e, Cell(f, TableIndex(v)));
      PageOfTable(m', b, v, d, 0);
    } else {
      NewTableWord(m, c, virt, f, d, e, Cell(FrameOf(entry), TableIndex(v)));
      PageSame(m, m', b, v);
    }
  }

  /** Every other page below directory slot 1022 translates as before, in every context. */
  lemma MapKeepsOthers(m: Memory, m': Memory, k: bv20, cs: set<bv20>, fs: set<bv20>, fs': set<bv20>,
                       rs: Roles, rs': Roles, c: bv20, virt: bv32, phys: bv32, access: bv32, f: bv20,
                       b: bv20, v: bv32)
    requires Structure(m, k, cs, rs) && c in cs && UserPage(virt) && Flags(access) && TableOrNone(m, c, virt)
    requires forall g: bv20 :: g in fs ==> !Used(rs, g)
    requires Mapped(m, m', fs, fs', rs, rs', c, virt, phys, access, f)
    requires b in cs && DirIndex(v) < 1022
    requires b == c ==> !(DirIndex(v) == DirIndex(virt) && TableIndex(v) == TableIndex(virt))
    ensures Page(m', b, v) == Page(m, b, v)
  {
    if Present(Word(m, c, DirIndex(virt))) {
      SetKeepsOthers(m, k, cs, rs, c, virt, phys | access | 3, b, v);
    } else {
      TableEntry(f, access);
      NewKeepsOthers(m, k, cs, rs, c, virt, f, Address(f) | access | 3, phys | access | 3, b, v);
    }
  }

  lemma SamePageNumber(v: bv32, w: bv32)
    requires (v >> 22) as bv10 == (w >> 22) as bv10
    requires ((v >> 12) & 0x3ff) as bv10 == ((w >> 12) & 0x3ff) as bv10
    ensures v >> 12 == w >> 12
  {
  }

  lemma FlagBits(f: bv20, access: bv32)
    requires access < 0x1000
    ensures (Address(f) | access | 3) & 0xfff == access | 3
  {
  }

  /** The access bits are in the table entry, and in the directory entry if that is new. */
  lemma MappedEntries(m: Memory, m': Memory, k: bv20, cs: set<bv20>, fs: set<bv20>, fs': set<bv20>,
                      rs: Roles, rs': Roles, c: bv20, virt: bv32, phys: bv32, access: bv32, f: bv20)
    requires Structure(m, k, cs, rs) && c in cs && UserPage(virt) && Flags(access) && TableOrNone(m, c, virt)
    requires forall g: bv20 :: g in fs ==> !Used(rs, g)
    requires Mapped(m, m', fs, fs', rs, rs', c, virt, phys, access, f)
    ensures var d := Word(m', c, DirIndex(virt));
            && Word(m', FrameOf(d), TableIndex(virt)) == phys | access | 3
            && if Present(Word(m, c, DirIndex(virt))) then d == Word(m, c, DirIndex(virt)) else d & 0xfff == access | 3
  {
    TableOwner(m, k, cs, rs, c, virt);
    if !Present(Word(m, c, DirIndex(virt))) {
      TableEntry(f, access);
      FlagBits(f, access);
    }
  }

  /** The page is mapped, and all other pages of all contexts translate as before. */
  lemma MapMeans(m: Memory, m': Memory, k: bv20, cs: set<bv20>, fs: set<bv20>, fs': set<bv20>,
                 rs: Roles, rs': Roles, c: bv20, virt: bv32, phys: bv32, access: bv32, f: bv20)
    requires Structure(m, k, cs, rs) && c in cs && UserPage(virt) && Flags(access) && TableOrNone(m, c, virt)
    requires forall g: bv20 :: g in fs ==> !Used(rs, g)
    requires Mapped(m, m', fs, fs', rs, rs', c, virt, phys, access, f)
    ensures Page(m', c, virt) == Some(FrameOf(phys))
    ensures forall b: bv20, v: bv32 :: b in cs && DirIndex(v) < 1022 && (b != c || v >> 12 != virt >> 12) ==>
              Page(m', b, v) == Page(m, b, v)
  {
    MapThenTranslate(m, m', k, cs, fs, fs', rs, rs', c, virt, phys, access, f);
    forall b: bv20, v: bv32 | b in cs && DirIndex(v) < 1022 && (b != c || v >> 12 != virt >> 12)
      ensures Page(m', b, v) == Page(m, b, v)
    {
      if DirIndex(v) == DirIndex(virt) && TableIndex(v) == TableIndex(virt) {
        SamePageNumber(v, virt);
      }
      MapKeepsOthers(m, m', k, cs, fs, fs', rs, rs', c, virt, phys, access, f, b, v);
    }
  }

  lemma ZeroWhenFree(m: Memory, k: bv20, cs: set<bv20>, rs: Roles, p: bv32)
    requires Structure(m, k, cs, rs) && FreePage(m, k, p)
    ensures m[WindowCell(m, k, p)] == 0 && Used(rs, WindowCell(m, k, p).frame)
    ensures rs[Frame(WindowCell(m, k, p).frame)].KernelTable?
  {
    WindowShared(m, k, cs, rs, k, p);
    assert WindowEntry(m, k, p) == m[WindowCell(m, k, p)];
  }

  lemma TwiceRestored(m: Memory, v: Cell, w: Cell, a: bv32, b: bv32, x: Cell, e: bv32)
    requires v != w && v != x && w != x && m[v] == 0 && m[w] == 0
    ensures m[v := a][w := b][x := e][w := 0][v := 0] == m[x := e]
  {
  }

  /**
   * The fast path refines the slow path: mapping directory and table at two free window pages, writing the
   * entry and clearing both window entries leaves the memory that the one write through page_tables leaves.
   */
  lemma SlowPathIsFastPath(m: Memory, k: bv20, cs: set<bv20>, rs: Roles, c: bv20, virt: bv32, e: bv32,
                           p: bv32, q: bv32, a: bv32, b: bv32)
    requires Structure(m, k, cs, rs) && c in cs && UserPage(virt) && Plain(Word(m, c, DirIndex(virt)))
    requires p != q && FreePage(m, k, p) && FreePage(m, k, q)
    ensures var v, w := WindowCell(m, k, p), WindowCell(m, k, q);
            var x := Cell(FrameOf(Word(m, c, DirIndex(virt))), TableIndex(virt));
            m[v := a][w := b][x := e][w := 0][v := 0] == m[PteCell(m, c, virt >> 12) := e]
  {
    TableOwner(m, k, cs, rs, c, virt);
    ZeroWhenFree(m, k, cs, rs, p);
    ZeroWhenFree(m, k, cs, rs, q);
    WindowInjective(m, k, cs, rs, p, q);
    PageNumber(virt);
    TwiceRestored(m, WindowCell(m, k, p), WindowCell(m, k, q), a, b, PteCell(m, c, virt >> 12), e);
  }

  // ---------- kernel space ----------

  /** Kernel space is the same in all contexts. */
  lemma KernelShared(m: Memory, k: bv20, cs: set<bv20>, rs: Roles, a: bv20, b: bv20, v: bv32)
    requires Structure(m, k, cs, rs) && a in cs && b in cs && 768 <= DirIndex(v) < 1022
    ensures Page(m, a, v) == Page(m, b, v)
  {
    assert Context(m, k, a, rs) && Context(m, k, b, rs);
    assert KernelEntry(m, k, a, rs, DirIndex(v)) && KernelEntry(m, k, b, rs, DirIndex(v));
  }

  /** A write to the table of directory entry `i` is not seen at other addresses. */
  lemma TableWriteElsewhere(m: Memory, k: bv20, cs: set<bv20>, rs: Roles, i: bv10, x: Cell, w: bv32, c: bv20, v: bv32)
    requires Structure(m, k, cs, rs) && c in cs && DirIndex(v) < 1022 && Plays(rs, x.frame, KernelTable(i))
    requires !(DirIndex(v) == i && TableIndex(v) == x.slot)
    ensures Page(m[x := w], c, v) == Page(m, c, v)
  {
    TableOwner(m, k, cs, rs, c, v);
    PageSame(m, m[x := w], c, v);
  }

  /** A write to the table of kernel entry `i`, at the address that it is for. */
  lemma TableWriteHere(m: Memory, k: bv20, cs: set<bv20>, rs: Roles, i: bv10, w: bv32, c: bv20, v: bv32)
    requires Structure(m, k, cs, rs) && c in cs && DirIndex(v) == i && 768 <= i < 1022
    ensures Page(m[Cell(FrameOf(Word(m, k, i)), TableIndex(v)) := w], c, v) ==
            if Present(w) then Some(FrameOf(w)) else None
  {
    assert Context(m, k, c, rs) && KernelEntry(m, k, c, rs, i);
    PageOfTable(m[Cell(FrameOf(Word(m, k, i)), TableIndex(v)) := w], c, v, Word(m, k, i), w);
  }

  lemma WindowMapsHere(m: Memory, k: bv20, cs: set<bv20>, rs: Roles, p: bv32, w: bv32, c: bv20, v: bv32)
    requires Structure(m, k, cs, rs) && InWindow(p) && c in cs && v >> 12 == p
    ensures Page(m[WindowCell(m, k, p) := w], c, v) == if Present(w) then Some(FrameOf(w)) else None
  {
    PageNumber(v);
    WindowIndex(p);
    TableWriteHere(m, k, cs, rs, (p >> 10) as bv10, w, c, v);
  }

  lemma WindowMapsElsewhere(m: Memory, k: bv20, cs: set<bv20>, rs: Roles, p: bv32, q: bv32, w: bv32, c: bv20, v: bv32)
    requires Structure(m, k, cs, rs) && InWindow(p) && c in cs && DirIndex(v) < 1022 && v >> 12 == q && q != p
    ensures Page(m[WindowCell(m, k, p) := w], c, v) == Page(m, c, v)
  {
    PageNumber(v);
    WindowShared(m, k, cs, rs, k, p);
    if (p >> 10) as bv10 == (q >> 10) as bv10 && (p & 0x3ff) as bv10 == (q & 0x3ff) as bv10 { PageSplit(p, q); }
    TableWriteElsewhere(m, k, cs, rs, (p >> 10) as bv10, WindowCell(m, k, p), w, c, v);
  }

  /** paging_map_kernel and paging_unmap_kernel change one page, the same in all contexts. */
  lemma WindowMapsOne(m: Memory, k: bv20, cs: set<bv20>, rs: Roles, p: bv32, w: bv32, c: bv20, v: bv32)
    requires Structure(m, k, cs, rs) && InWindow(p) && c in cs && DirIndex(v) < 1022
    ensures Page(m[WindowCell(m, k, p) := w], c, v) ==
            if v >> 12 == p then if Present(w) then Some(FrameOf(w)) else None else Page(m, c, v)
  {
    if v >> 12 == p {
      WindowMapsHere(m, k, cs, rs, p, w, c, v);
    } else {
      WindowMapsElsewhere(m, k, cs, rs, p, v >> 12, w, c, v);
    }
  }

  /** The same about all contexts and pages. */
  lemma WindowMaps(m: Memory, k: bv20, cs: set<bv20>, rs: Roles, p: bv32, w: bv32)
    requires Structure(m, k, cs, rs) && InWindow(p)
    ensures forall c: bv20, v: bv32 :: c in cs && DirIndex(v) < 1022 ==>
      Page(m[WindowCell(m, k, p) := w], c, v) ==
      if v >> 12 == p then if Present(w) then Some(FrameOf(w)) else None else Page(m, c, v)
  {
    forall c: bv20, v: bv32 | c in cs && DirIndex(v) < 1022
      ensures Page(m[WindowCell(m, k, p) := w], c, v) ==
              if v >> 12 == p then if Present(w) then Some(FrameOf(w)) else None else Page(m, c, v)
    {
      WindowMapsOne(m, k, cs, rs, p, w, c, v);
    }
  }

  // ---------- paging_create_context ----------

  /** Words of frames that are in use stay as they are. */
  lemma NewContextKeepsUsed(m: Memory, rs: Roles, b: bv20, f: bv20, t: bv20, d: bv32, e: bv32)
    requires !Used(rs, f) && !Used(rs, t)
    ensures UsedKept(m, NewContext(m, b, f, t, d, e), rs)
  {
  }

  /** Nothing changes in the contexts that are there already. */
  lemma CreateKeepsOthers(m: Memory, m': Memory, k: bv20, cs: set<bv20>, cs': set<bv20>, fs: set<bv20>, fs': set<bv20>,
                          rs: Roles, rs': Roles, b: bv20, f: bv20, t: bv20, c: bv20, v: bv32)
    requires Structure(m, k, cs, rs) && (forall g: bv20 :: g in fs ==> !Used(rs, g))
    requires Created(m, m', fs, fs', cs, cs', rs, rs', b, f, t)
    requires c in cs && DirIndex(v) < 1022
    ensures Page(m', c, v) == Page(m, c, v)
  {
    TableOwner(m, k, cs, rs, c, v);
    NewContextKeepsUsed(m, rs, b, f, t, Pointer(Address(f)), Pointer(Address(t)));
    PageSame(m, m', c, v);
  }

  /** A new context has an empty user space, and the kernel space of all others. */
  lemma NewContextPages(m: Memory, m': Memory, k: bv20, cs: set<bv20>, cs': set<bv20>, fs: set<bv20>, fs': set<bv20>,
                        rs: Roles, rs': Roles, b: bv20, f: bv20, t: bv20, v: bv32)
    requires Structure(m, k, cs, rs) && b in cs && (forall g: bv20 :: g in fs ==> !Used(rs, g))
    requires Created(m, m', fs, fs', cs, cs', rs, rs', b, f, t) && Structure(m', k, cs', rs')
    requires DirIndex(v) < 1022
    ensures Page(m', f, v) == if DirIndex(v) < 768 then None else Page(m, k, v)
  {
    assert Context(m, k, b, rs);
    NewContextFresh(m, b, f, t);
    if DirIndex(v) < 768 {
      assert Word(m', f, DirIndex(v)) == 0;
    } else {
      KernelShared(m', k, cs', rs', f, k, v);
      CreateKeepsOthers(m, m', k, cs, cs', fs, fs', rs, rs', b, f, t, k, v);
    }
  }

  /** The new context has no user pages and the kernel pages of context `b`; the other contexts keep all their pages. */
  lemma CreateMeans(m: Memory, m': Memory, k: bv20, cs: set<bv20>, cs': set<bv20>, fs: set<bv20>, fs': set<bv20>,
                    rs: Roles, rs': Roles, b: bv20, f: bv20, t: bv20)
    requires Structure(m, k, cs, rs) && b in cs && (forall g: bv20 :: g in fs ==> !Used(rs, g))
    requires Created(m, m', fs, fs', cs, cs', rs, rs', b, f, t) && Structure(m', k, cs', rs')
    ensures f !in cs
    ensures forall v: bv32 :: DirIndex(v) < 1022 ==> Page(m', f, v) == if DirIndex(v) < 768 then None else Page(m, b, v)
    ensures forall c: bv20, v: bv32 :: c in cs && DirIndex(v) < 1022 ==> Page(m', c, v) == Page(m, c, v)
  {
    forall c: bv20 | c in cs ensures c != f { assert Context(m, k, c, rs); }
    forall v: bv32 | DirIndex(v) < 1022
      ensures Page(m', f, v) == if DirIndex(v) < 768 then None else Page(m, b, v)
    {
      NewContextPages(m, m', k, cs, cs', fs, fs', rs, rs', b, f, t, v);
      if DirIndex(v) >= 768 { KernelShared(m, k, cs, rs, b, k, v); }
    }
    forall c: bv20, v: bv32 | c in cs && DirIndex(v) < 1022 ensures Page(m', c, v) == Page(m, c, v) {
      CreateKeepsOthers(m, m', k, cs, cs', fs, fs', rs, rs', b, f, t, c, v);
    }
  }

  /** Its pointers to itself. */
  lemma CreatedPointers(m: Memory, m': Memory, fs: set<bv20>, fs': set<bv20>, cs: set<bv20>, cs': set<bv20>,
                        rs: Roles, rs': Roles, b: bv20, f: bv20, t: bv20)
    requires Created(m, m', fs, fs', cs, cs', rs, rs', b, f, t) && b != f && b != t
    ensures Word(m', f, 1022) == Address(t) | 3 && Word(m', f, 1023) == Address(f) | 3
    ensures Word(m', t, 1023) == Address(f) | 3 && forall i: bv10 :: i < 1023 ==> Word(m', t, i) == 0
  {
    NewContextFresh(m, b, f, t);
  }

  // ---------- paging_init ----------

  lemma FirstEntryMaps(t: bv10)
    ensures Present(FirstEntry(t)) && FrameOf(FirstEntry(t)) == t as bv20
  {
  }

  /** After paging_init the 4 MB from 0xc0000000 are the first 4 MB of memory, in every context. */
  lemma FirstMegabytes(m: Memory, k: bv20, cs: set<bv20>, rs: Roles, c: bv20, v: bv32)
    requires Structure(m, k, cs, rs) && c in cs && Made(m, k, rs, 768) && DirIndex(v) == 768
    ensures Page(m, c, v) == Some(TableIndex(v) as bv20)
  {
    KernelShared(m, k, cs, rs, c, k, v);
    var d := Word(m, k, 768);
    assert Word(m, FrameOf(d), TableIndex(v)) == Initial(k, 768, TableIndex(v));
    FirstEntryMaps(TableIndex(v));
    PageOfTable(m, k, v, d, FirstEntry(TableIndex(v)));
  }

  lemma LowIdentity(m: Memory, k: bv20, v: bv32)
    requires LowHalf(m, k) && DirIndex(v) < 768
    ensures Page(m, k, v) == Some(FrameOf(v))
  {
    LowBase(v);
    BigPage(m, k, v, LowEntry(DirIndex(v)));
  }

  lemma NoPageYet(m: Memory, k: bv20, rs: Roles, v: bv32)
    requires Made(m, k, rs, DirIndex(v)) && 768 < DirIndex(v) < 1022
    ensures Page(m, k, v) == None
  {
    var d := Word(m, k, DirIndex(v));
    assert Word(m, FrameOf(d), TableIndex(v)) == Initial(k, DirIndex(v), TableIndex(v));
  }

  /**
   * After paging_init the addresses below 0xc0000000 are physical ones, the 4 MB from there are the first 4 MB of
   * memory, and the rest of kernel space is not mapped.
   */
  lemma BootPages(m: Memory, k: bv20, rs: Roles)
    requires Structure(m, k, {k}, rs) && LowHalf(m, k)
    requires forall s: bv10 :: 768 <= Number(s) < 1023 ==> Made(m, k, rs, s)
    ensures forall v: bv32 :: DirIndex(v) < 768 ==> Page(m, k, v) == Some(FrameOf(v))
    ensures forall v: bv32 :: DirIndex(v) == 768 ==> Page(m, k, v) == Some(TableIndex(v) as bv20)
    ensures forall v: bv32 :: 768 < DirIndex(v) < 1022 ==> Page(m, k, v) == None
  {
    forall v: bv32 | DirIndex(v) < 768 ensures Page(m, k, v) == Some(FrameOf(v)) { LowIdentity(m, k, v); }
    forall v: bv32 | DirIndex(v) == 768 ensures Page(m, k, v) == Some(TableIndex(v) as bv20) {
      Halves(768);
      FirstMegabytes(m, k, {k}, rs, k, v);
    }
    forall v: bv32 | 768 < DirIndex(v) < 1022 ensures Page(m, k, v) == None {
      Halves(DirIndex(v));
      NoPageYet(m, k, rs, v);
    }
  }
}
