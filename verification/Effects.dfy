/** What paging_map and paging_create_context leave in memory, and when they succeed. */
module Effects {
  import opened Wrappers
  import opened Bits
  import opened Mmu
  import opened Contexts
  import opened Edits

  // ---------- the window ----------

  /** The window shows the same frames, through the same table entries. */
  ghost predicate SameWindow(m: Memory, m': Memory, k: bv20) {
    forall q: bv32 {:trigger WindowCell(m', k, q)} {:trigger WindowEntry(m', k, q)} :: InWindow(q) ==>
      WindowCell(m', k, q) == WindowCell(m, k, q) && WindowEntry(m', k, q) == WindowEntry(m, k, q)
  }

  /** The window has no free page. */
  ghost predicate Full(m: Memory, k: bv20) {
    forall p: bv32 :: InWindow(p) ==> Present(WindowEntry(m, k, p))
  }

  ghost predicate FreePage(m: Memory, k: bv20, p: bv32) {
    InWindow(p) && !Present(WindowEntry(m, k, p))
  }

  /** The window has two free pages. */
  ghost predicate Room(m: Memory, k: bv20) {
    exists p: bv32, q: bv32 :: p != q && FreePage(m, k, p) && FreePage(m, k, q)
  }

  /** With one page mapped there is a free one left if there were two. */
  lemma RoomLeft(m: Memory, k: bv20, cs: set<bv20>, roles: Roles, p: bv32, a: bv32)
    requires Structure(m, k, cs, roles) && FreePage(m, k, p) && Present(a)
    ensures Room(m, k) <==> !Full(m[WindowCell(m, k, p) := a], k)
  {
    var m' := m[WindowCell(m, k, p) := a];
    WindowWrite(m, k, cs, roles, p, a);
    if Room(m, k) {
      var q, r :| q != r && FreePage(m, k, q) && FreePage(m, k, r);
      assert if q == p then FreePage(m', k, r) else FreePage(m', k, q);
    }
    if !Full(m', k) {
      var q :| InWindow(q) && !Present(WindowEntry(m', k, q));
      assert FreePage(m, k, q) && q != p;
    }
  }

  ghost predicate Two(fs: set<bv20>) {
    exists g: bv20, h: bv20 :: g != h && g in fs && h in fs
  }

  lemma OneLeft(fs: set<bv20>, f: bv20)
    requires f in fs
    ensures fs - {f} != {} <==> Two(fs)
  {
    if Two(fs) {
      var g, h :| g != h && g in fs && h in fs;
      assert if g == f then h in fs - {f} else g in fs - {f};
    }
    if !Two(fs) {
      assert forall g: bv20 :: g !in fs - {f};
    }
  }

  /** What paging_create_context does when it runs on directory `b`: `f` is the new directory, `t` its self table. */
  ghost predicate Created(m: Memory, m': Memory, fs: set<bv20>, fs': set<bv20>, cs: set<bv20>, cs': set<bv20>,
                          rs: Roles, rs': Roles, b: bv20, f: bv20, t: bv20) {
    && f in fs && t in fs && f != t && fs' == fs - {f, t}
    && cs' == cs + {f} && rs' == rs[Frame(f) := Directory][Frame(t) := SelfTable(f)]
    && m' == NewContext(m, b, f, t, Pointer(Address(f)), Pointer(Address(t)))
  }

  /** What the slow path of paging_map needs: two free window pages, and a frame if there is no table yet. */
  ghost predicate Roomy(m: Memory, k: bv20, fs: set<bv20>, c: bv20, virt: bv32) {
    Room(m, k) && (Present(Word(m, c, DirIndex(virt))) || fs != {})
  }

  // ---------- what paging_map and paging_getphys do ----------

  /** The table that context `b` has for `v`, if any, belongs to `b` alone or is a kernel table. */
  lemma TableOwner(m: Memory, k: bv20, cs: set<bv20>, rs: Roles, b: bv20, v: bv32)
    requires Structure(m, k, cs, rs) && b in cs && DirIndex(v) < 1022
    ensures var d := Word(m, b, DirIndex(v));
            Plain(d) ==>
              && Used(rs, FrameOf(d))
              && (if DirIndex(v) < 768 then Plays(rs, FrameOf(d), UserTable(b, DirIndex(v)))
                  else Plays(rs, FrameOf(d), KernelTable(DirIndex(v))))
    ensures Plays(rs, b, Directory)
  {
    assert Context(m, k, b, rs);
    if DirIndex(v) < 768 {
      assert UserEntry(m, k, b, rs, DirIndex(v));
    } else {
      assert KernelEntry(m, k, b, rs, DirIndex(v));
    }
  }

  /** The directory entry for `virt` is empty or has a table: no 4 MB page. */
  predicate TableOrNone(m: Memory, c: bv20, virt: bv32) {
    var d := Word(m, c, DirIndex(virt));
    Plain(d) || !Present(d)
  }

  /** The frame that the directory and table entries of `v` name, read without a look at the page-size bit. */
  function TwoLevel(m: Memory, c: bv20, v: bv32): Option<bv20> {
    var d := Word(m, c, DirIndex(v));
    if !Present(d) then None
    else
      var t := Word(m, FrameOf(d), TableIndex(v));
      if Present(t) then Some(FrameOf(t)) else None
  }

  lemma TwoLevelOf(m: Memory, c: bv20, v: bv32, d: bv32, t: bv32)
    requires Word(m, c, DirIndex(v)) == d && Present(d) && Word(m, FrameOf(d), TableIndex(v)) == t
    ensures TwoLevel(m, c, v) == if Present(t) then Some(FrameOf(t)) else None
  {
  }

  /** The two entries give the translation. */
  predicate Translates(m: Memory, c: bv20, v: bv32) { TwoLevel(m, c, v) == Page(m, c, v) }

  /** They give it when word `x` holds `t`. */
  predicate TranslatesWith(m: Memory, c: bv20, v: bv32, x: Cell, t: bv32) { Translates(m[x := t], c, v) }

  lemma TableTranslates(m: Memory, c: bv20, v: bv32)
    requires TableOrNone(m, c, v)
    ensures Translates(m, c, v)
  {
  }

  /** They give it, whatever the second one, word `x`, holds, if and only if the first is no 4 MB page. */
  lemma TranslatesIffTable(m: Memory, c: bv20, v: bv32, x: Cell)
    requires x == Cell(FrameOf(Word(m, c, DirIndex(v))), TableIndex(v)) && x != Cell(c, DirIndex(v))
    ensures TableOrNone(m, c, v) <==> forall t: bv32 :: TranslatesWith(m, c, v, x, t)
  {
    if TableOrNone(m, c, v) {
      forall t: bv32 ensures TranslatesWith(m, c, v, x, t) { TableTranslates(m[x := t], c, v); }
    } else {
      assert !TranslatesWith(m, c, v, x, 0);
    }
  }

  /** What paging_map does to memory, free frames and roles; `f` is the new table, if one was needed. */
  ghost predicate Mapped(m: Memory, m': Memory, fs: set<bv20>, fs': set<bv20>, rs: Roles, rs': Roles,
                         c: bv20, virt: bv32, phys: bv32, access: bv32, f: bv20) {
    if Present(Word(m, c, DirIndex(virt))) then
      && m' == SetEntry(m, c, virt, phys | access | 3)
      && fs' == fs && rs' == rs
    else
      && f in fs && fs' == fs - {f} && rs' == rs[Frame(f) := UserTable(c, DirIndex(virt))]
      && m' == NewTable(m, c, virt, f, Address(f) | access | 3, phys | access | 3)
  }

  lemma NewTableWord(m: Memory, c: bv20, virt: bv32, f: bv20, d: bv32, e: bv32, x: Cell)
    requires f != c
    ensures NewTable(m, c, virt, f, d, e)[x] ==
            if x == Cell(f, TableIndex(virt)) then e
            else if x == Cell(c, DirIndex(virt)) then d
            else if x.frame == f then 0 else m[x]
  {
    SlotOfNumber(x.slot);
  }

  predicate UserPage(virt: bv32) { DirIndex(virt) < 768 }

  /** The window's table entries stay in place. */
  lemma MappedWindow(m: Memory, m': Memory, k: bv20, cs: set<bv20>, fs: set<bv20>, fs': set<bv20>,
                     rs: Roles, rs': Roles, c: bv20, virt: bv32, phys: bv32, access: bv32, f: bv20, p: bv32)
    requires Structure(m, k, cs, rs) && c in cs && UserPage(virt) && TableOrNone(m, c, virt) && InWindow(p)
    requires forall g: bv20 :: g in fs ==> !Used(rs, g)
    requires Mapped(m, m', fs, fs', rs, rs', c, virt, phys, access, f)
    ensures WindowCell(m', k, p) == WindowCell(m, k, p)
  {
    TableOwner(m, k, cs, rs, c, virt);
    TableOwner(m, k, cs, rs, k, virt);
    WindowIndex(p);
    if !Present(Word(m, c, DirIndex(virt))) {
      NewTableWord(m, c, virt, f, Address(f) | access | 3, phys | access | 3, Cell(k, (p >> 10) as bv10));
    }
  }

  /** The window entry of the directory, set before and cleared after, leaves no trace. */
  lemma MappedAround(m: Memory, m': Memory, fs: set<bv20>, fs': set<bv20>, rs: Roles, rs': Roles,
                     c: bv20, virt: bv32, phys: bv32, access: bv32, f: bv20, w: Cell, a: bv32)
    requires Mapped(m[w := a], m', fs, fs', rs, rs', c, virt, phys, access, f)
    requires m[w] == 0 && w.frame != c && w.frame !in fs
    requires Present(Word(m, c, DirIndex(virt))) ==> w.frame != FrameOf(Word(m, c, DirIndex(virt)))
    ensures Mapped(m, m'[w := 0], fs, fs', rs, rs', c, virt, phys, access, f)
  {
    if Present(Word(m, c, DirIndex(virt))) {
      Restored(m, w, a, Cell(FrameOf(Word(m, c, DirIndex(virt))), TableIndex(virt)), phys | access | 3);
    } else {
      RestoredNew(m, w, a, c, virt, f, Address(f) | access | 3, phys | access | 3);
    }
  }

  /** Access bits: in the flag part of an entry, and not the page-size bit. */
  predicate Flags(access: bv32) { access < 0x1000 && access & 0x80 == 0 }

  lemma TableEntry(f: bv20, access: bv32)
    requires Flags(access)
    ensures Plain(Address(f) | access | 3) && FrameOf(Address(f) | access | 3) == f
  {
  }

  lemma UserAddress(virt: bv32)
    ensures virt < 0xc0000000 <==> UserPage(virt)
  {
  }

  lemma TableOf(d: bv32)
    ensures d & 0xfffff000 == Address(FrameOf(d & 0xfffff000)) && FrameOf(d & 0xfffff000) == FrameOf(d)
  {
  }

  lemma KernelEntryOf(phys: bv32)
    ensures Present(phys | 0x103) && FrameOf(phys | 0x103) == FrameOf(phys)
  {
  }
}
