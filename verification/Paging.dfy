/**
 * kernel/arch/i386/paging.c.  Tables are read and written only through virtual
 * addresses, as the kernel does: every access is a walk through the very tables that are
 * being edited.
 */
module Paging {
  import opened Wrappers
  import opened Bits
  import opened Mmu
  import opened Contexts
  import opened Edits
  import opened Boot
  import opened Effects
  import opened Translations

  class Kernel {
    var mem: Memory
    var current: bv32         // the directory in use (CR3), a physical address
    var selected: bv32        // current_context
    var free: set<bv20>       // the frames that memory_alloc can still return
    ghost var boot: bv20      // the kernel context, the directory the system started with
    ghost var contexts: set<bv20>
    ghost var roles: Roles

    ghost predicate Valid()
      reads this
    {
      && Structure(mem, boot, contexts, roles)
      && current == Address(FrameOf(current)) && FrameOf(current) in contexts && selected == current
      && (forall f: bv20 :: f in free ==> !Used(roles, f))
    }

    /** The machine as the boot code leaves it, running on the directory in frame `boot`. */
    constructor (m: Memory, boot: bv20, free: set<bv20>)
      ensures mem == m && this.boot == boot && current == Address(boot) && selected == 0 && this.free == free
      ensures contexts == {} && roles == map[]
    {
      mem := m;
      current := Address(boot);
      selected := 0;
      this.free := free;
      this.boot := boot;
      contexts := {};
      roles := map[];
    }

    /** A load from an aligned virtual address that is mapped. */
    method Load(v: bv32) returns (w: bv32)
      requires Walk(mem, FrameOf(current), v).Some?
      ensures w == mem[Walk(mem, FrameOf(current), v).value]
    {
      w := mem[Walk(mem, FrameOf(current), v).value];
    }

    /** A store to an aligned virtual address that is mapped. */
    method Store(v: bv32, w: bv32)
      requires Walk(mem, FrameOf(current), v).Some?
      modifies `mem
      ensures mem == old(mem)[Walk(old(mem), FrameOf(current), v).value := w]
    {
      mem := mem[Walk(mem, FrameOf(current), v).value := w];
    }

    /** memory_alloc; None stands for its panic, and `f` is the frame. It prefers low frames. */
    method MemoryAlloc() returns (phys: Option<bv32>, ghost f: bv20)
      modifies `free
      ensures phys == None <==> old(free) == {}
      ensures phys == None ==> free == old(free)
      ensures phys.Some? ==> phys.value == Address(f) && f in old(free) && free == old(free) - {f}
      ensures (exists g: bv20 :: g in old(free) && LowFrame(g)) ==> phys.Some? && LowFrame(f)
    {
      if g: bv20 :| g in free && LowFrame(g) {
        free := free - {g};
        f := g;
        phys := Some(Address(g));
      } else if g: bv20 :| g in free {
        free := free - {g};
        f := g;
        phys := Some(Address(g));
      } else {
        assert forall g: bv20 :: g !in free;
        assert free == {};
        f := 0;
        phys := None;
      }
    }

    ghost predicate WindowFull()
      reads this
    {
      Full(mem, boot)
    }

    /** The table entry of a window page, reached through page_tables. */
    method PutWindow(virt: bv32, w: bv32)
      requires Valid() && InWindow(virt >> 12) && (Present(w) || w == 0)
      modifies `mem
      ensures Valid()
      ensures mem == old(mem)[WindowCell(old(mem), boot, virt >> 12) := w]
    {
      WindowShared(mem, boot, contexts, roles, FrameOf(current), virt >> 12);
      WindowWrite(mem, boot, contexts, roles, virt >> 12, w);
      Store(TableAddress(virt >> 12), w);
    }

    method GetWindow(virt: bv32) returns (w: bv32)
      requires Valid() && InWindow(virt >> 12)
      ensures w == WindowEntry(mem, boot, virt >> 12)
    {
      WindowShared(mem, boot, contexts, roles, FrameOf(current), virt >> 12);
      w := Load(TableAddress(virt >> 12));
    }

    /** All pages before address `v` are mapped. */
    ghost predicate Searched(v: bv32)
      reads this
    {
      forall q: bv32 :: InWindow(q) && Passed(q, v) ==> Present(WindowEntry(mem, boot, q))
    }

    lemma SearchedNext(v: bv32)
      requires At(v) && v != END && Searched(v) && Present(WindowEntry(mem, boot, v >> 12))
      ensures Searched(v + 0x1000)
    {
      forall q: bv32 | InWindow(q) && Passed(q, v + 0x1000) ensures Present(WindowEntry(mem, boot, q)) {
        PassedPages(q, v);
      }
    }

    /** The search loop of paging_map_kernel: the first window page without a mapping. */
    method FindWindow() returns (v: bv32)
      requires Valid()
      ensures At(v) && Searched(v)
      ensures v != END ==> !Present(WindowEntry(mem, boot, v >> 12))
    {
      v := START;
      while v < END
        invariant At(v) && Searched(v)
        decreases Left(v)
      {
        Below(v);
        NextPage(v);
        FewerLeft(v);
        var e := GetWindow(v);
        if e & 1 != 1 { return; }
        SearchedNext(v);
        v := v + 0x1000;
      }
      AtEnd(v);
    }

    /** The entry of window page `v` is set for the frame at `phys`. */
    method MapPage(v: bv32, phys: bv32, ghost p: bv32)
      requires Valid() && p == v >> 12 && InWindow(p)
      modifies `mem
      ensures Valid()
      ensures mem == old(mem)[WindowCell(old(mem), boot, p) := phys | 0x103]
      ensures forall c: bv20, u: bv32 :: c in contexts && DirIndex(u) < 1022 ==>
        Page(mem, c, u) == if u >> 12 == p then Some(FrameOf(phys)) else Page(old(mem), c, u)
    {
      WindowMaps(mem, boot, contexts, roles, p, phys | 0x103);
      KernelEntryOf(phys);
      PutWindow(v, phys | 0x103);
    }

    /** paging_map_kernel: the first free window page is mapped to `phys`; None stands for its panic. */
    method MapKernel(phys: bv32) returns (virt: Option<bv32>, ghost p: bv32)
      requires Valid()
      modifies `mem
      ensures Valid()
      ensures virt == None <==> old(WindowFull())
      ensures virt == None ==> mem == old(mem)
      ensures virt.Some? ==>
        && InWindow(p) && virt.value == (p << 12) + (phys & 0xfff)
        && !Present(WindowEntry(old(mem), boot, p))
        && (forall q: bv32 :: InWindow(q) && Before(q, p) ==> Present(WindowEntry(old(mem), boot, q)))
        && mem == old(mem)[WindowCell(old(mem), boot, p) := phys | 0x103]
      ensures virt.Some? ==> forall c: bv20, u: bv32 :: c in contexts && DirIndex(u) < 1022 ==>
        Page(mem, c, u) == if u >> 12 == p then Some(FrameOf(phys)) else Page(old(mem), c, u)
    {
      var v := FindWindow();
      p := v >> 12;
      if v == END { return None, p; }
      MapPage(v, phys, p);
      virt := Some(v + (phys & 0xfff));
    }

    /** paging_unmap_kernel: the table entry of page `p` is cleared, if its table can be reached. */
    method UnmapKernel(virt: bv32, ghost p: bv32)
      requires p == virt >> 12 < 0x100000 && Walk(mem, FrameOf(current), TableAddress(p)).Some?
      modifies `mem
      ensures mem == old(mem)[Walk(old(mem), FrameOf(current), TableAddress(p)).value := 0]
      ensures old(Valid()) && InWindow(p) ==> Valid() && mem == old(mem)[WindowCell(old(mem), boot, p) := 0]
      ensures old(Valid()) && InWindow(p) ==> forall c: bv20, v: bv32 :: c in contexts && DirIndex(v) < 1022 ==>
        Page(mem, c, v) == if v >> 12 == p then None else Page(old(mem), c, v)
    {
      if Valid() && InWindow(p) {
        WindowShared(mem, boot, contexts, roles, FrameOf(current), p);
        WindowWrite(mem, boot, contexts, roles, p, 0);
        WindowMaps(mem, boot, contexts, roles, p, 0);
      }
      Store(TableAddress(virt >> 12), 0);
    }

    // ---------- frames opened in the window ----------

    /** Window page `p` shows frame `f`. */
    ghost predicate Opened(p: bv32, f: bv20)
      reads this
    {
      InWindow(p) && Present(WindowEntry(mem, boot, p)) && FrameOf(WindowEntry(mem, boot, p)) == f
    }

    /**
     * paging_map_kernel of the whole frame `f`: window page `p`, whose entry was zero, now shows it.
     * The entry is word `w`, in a kernel table, and was set to `a`.
     */
    method Open(phys: bv32, ghost f: bv20) returns (virt: Option<bv32>, ghost p: bv32, ghost w: Cell, ghost a: bv32)
      requires Valid() && phys == Address(f)
      modifies `mem
      ensures Valid()
      ensures virt == None <==> old(WindowFull())
      ensures Room(old(mem), boot) <==> virt.Some? && !WindowFull()
      ensures virt == None ==> mem == old(mem)
      ensures virt.Some? ==>
        && virt.value == p << 12 && Opened(p, f) && w == WindowCell(mem, boot, p)
        && Used(roles, w.frame) && roles[Frame(w.frame)].KernelTable?
        && old(mem)[w] == 0 && mem == old(mem)[w := a]
        && (forall q: bv32, g: bv20 :: old(Opened(q, g)) ==> Opened(q, g))
    {
      AddressFrame(f);
      KernelEntryOf(phys);
      virt, p := MapKernel(phys);
      a := phys | 0x103;
      w := Cell(0, 0);
      if virt.Some? {
        w := WindowCell(old(mem), boot, p);
        RoomLeft(old(mem), boot, contexts, roles, p, a);
        WindowWrite(old(mem), boot, contexts, roles, p, a);
        WindowShared(mem, boot, contexts, roles, boot, p);
      }
    }

    /** paging_unmap_kernel of window page `p`, whose entry is word `w`. */
    method Close(virt: bv32, ghost p: bv32, ghost w: Cell)
      requires Valid() && InWindow(p) && virt == p << 12 && w == WindowCell(mem, boot, p)
      modifies `mem
      ensures Valid()
      ensures mem == old(mem)[w := 0]
    {
      ShiftedPage(p);
      WindowShared(mem, boot, contexts, roles, FrameOf(current), p);
      UnmapKernel(virt, p);
    }

    /** A load and a store through window page `p`. */
    method GetWord(v: bv32, i: bv10, ghost p: bv32, ghost f: bv20) returns (w: bv32)
      requires Valid() && Opened(p, f) && v == p << 12
      ensures w == Word(mem, f, i)
    {
      WindowAccess(mem, boot, contexts, roles, FrameOf(current), p, i);
      w := Load(WordAddress(v, i));
    }

    method PutWord(v: bv32, i: bv10, w: bv32, ghost p: bv32, ghost f: bv20)
      requires Valid() && Opened(p, f) && v == p << 12
      modifies `mem
      ensures mem == old(mem)[Cell(f, i) := w]
    {
      WindowAccess(mem, boot, contexts, roles, FrameOf(current), p, i);
      Store(WordAddress(v, i), w);
    }

    /** page_dir[i]. */
    method ReadEntry(i: bv10) returns (d: bv32)
      requires Valid()
      ensures d == Word(mem, FrameOf(current), i)
    {
      assert Context(mem, boot, FrameOf(current), roles);
      DirWindow(mem, FrameOf(current), i);
      d := Load(DirAddress(i));
    }

    /** A store to a frame that is not in use yet. */
    method PutFresh(v: bv32, i: bv10, w: bv32, ghost p: bv32, ghost f: bv20)
      requires Valid() && Opened(p, f) && v == p << 12 && !Used(roles, f)
      modifies `mem
      ensures Valid() && SameWindow(old(mem), mem, boot)
      ensures mem == old(mem)[Cell(f, i) := w]
    {
      OtherWrite(mem, boot, contexts, roles, Cell(f, i), w);
      PutWord(v, i, w, p, f);
    }

    /** memset of the first `n` words of a frame that is not in use yet, through its window page. */
    method Clear(v: bv32, n: nat, ghost p: bv32, ghost f: bv20)
      requires Valid() && Opened(p, f) && v == p << 12 && !Used(roles, f) && n <= 1024
      modifies `mem
      ensures Valid() && SameWindow(old(mem), mem, boot)
      ensures mem == ZeroedTo(old(mem), f, n)
    {
      for i := 0 to n
        invariant Valid() && SameWindow(old(mem), mem, boot)
        invariant mem == ZeroedTo(old(mem), f, i)
      {
        ZeroedNext(old(mem), f, i);
        PutFresh(v, SlotAt(i), 0, p, f);
      }
    }

    // ---------- paging_map ----------

    /** The subscript of page_tables in paging_map: the number of the page. */
    method MapSubscript(virt: bv32) returns (p: bv32)
      ensures p == virt >> 12 && p < 0x100000
    {
      Bits.MapSubscript(virt);
      var pdidx := virt >> 22;
      var ptidx := (virt >> 12) & 0x3ff;
      p := ptidx + 0x400 * pdidx;
    }

    /** The fast path of paging_map: the entry is written through page_tables. */
    method MapFast(virt: bv32, phys: bv32, access: bv32)
      requires Valid() && UserPage(virt) && Flags(access)
      requires Plain(Word(mem, FrameOf(current), DirIndex(virt)))
      modifies `mem
      ensures Valid()
      ensures mem == SetEntry(old(mem), FrameOf(current), virt, phys | access | 3)
    {
      ghost var c := FrameOf(current);
      assert Context(mem, boot, c, roles) && UserEntry(mem, boot, c, roles, DirIndex(virt));
      PageNumber(virt);
      TableWindow(mem, c, virt >> 12);
      OtherWrite(mem, boot, contexts, roles, PteCell(mem, c, virt >> 12), phys | access | 3);
      var subscript := MapSubscript(virt);
      Store(TableAddress(subscript), phys | access | 3);
    }

    /** A fresh frame is cleared and put into the directory, which is open at window page `q`. */
    method Install(dir: bv32, v: bv32, i: bv10, d: bv32, ghost q: bv32, ghost p: bv32, ghost c: bv20, ghost f: bv20)
      requires Valid() && Opened(q, c) && dir == q << 12 && Opened(p, f) && v == p << 12
      requires c in contexts && i < 768 && !Present(Word(mem, c, i))
      requires !Used(roles, f) && f !in free && Plain(d) && FrameOf(d) == f
      modifies `mem, `roles
      ensures Valid() && Opened(p, f)
      ensures WindowCell(mem, boot, p) == WindowCell(old(mem), boot, p)
      ensures mem == ZeroedTo(old(mem), f, 1024)[Cell(c, i) := d]
      ensures roles == old(roles)[Frame(f) := UserTable(c, i)]
    {
      assert Context(mem, boot, c, roles);
      Clear(v, 1024, p, f);
      InstallTable(mem, boot, contexts, roles, c, i, f, d);
      PutWord(dir, i, d, q, c);
      roles := roles[Frame(f) := UserTable(c, i)];
    }

    /** The entry is written to the opened table, and the table is closed. */
    method WriteAndClose(v: bv32, i: bv10, e: bv32, ghost p: bv32, ghost t: bv20, ghost w: Cell)
      requires Valid() && Opened(p, t) && v == p << 12 && w == WindowCell(mem, boot, p)
      requires Used(roles, t) && roles[Frame(t)].UserTable?
      modifies `mem
      ensures Valid()
      ensures mem == old(mem)[Cell(t, i) := e][w := 0]
    {
      OtherWrite(mem, boot, contexts, roles, Cell(t, i), e);
      PutWord(v, i, e, p, t);
      Close(v, p, w);
    }

    /** The slow path with the table present: it is opened, written and closed again. */
    method MapIntoOld(d: bv32, virt: bv32, e: bv32, ghost c: bv20) returns (ok: bool)
      requires Valid() && UserPage(virt) && c in contexts
      requires d == Word(mem, c, DirIndex(virt)) && Plain(d)
      modifies `mem
      ensures Valid()
      ensures ok <==> !old(WindowFull())
      ensures ok ==> mem == SetEntry(old(mem), c, virt, e)
    {
      TableOwner(mem, boot, contexts, roles, c, virt);
      TableOf(d);
      ghost var t := FrameOf(d);
      var table, p, w, a := Open(d & 0xfffff000, t);
      if table == None { return false; }
      WriteAndClose(table.value, TableIndex(virt), e, p, t, w);
      Restored(old(mem), w, a, Cell(t, TableIndex(virt)), e);
      return true;
    }

    /** A fresh frame becomes a table with one entry, and is closed. */
    method Build(dir: bv32, v: bv32, virt: bv32, d: bv32, e: bv32,
                 ghost q: bv32, ghost p: bv32, ghost c: bv20, ghost f: bv20, ghost w: Cell)
      requires Valid() && Opened(q, c) && dir == q << 12 && Opened(p, f) && v == p << 12
      requires w == WindowCell(mem, boot, p)
      requires c in contexts && UserPage(virt) && !Present(Word(mem, c, DirIndex(virt)))
      requires !Used(roles, f) && f !in free && Plain(d) && FrameOf(d) == f
      modifies `mem, `roles
      ensures Valid()
      ensures mem == ZeroedTo(old(mem), f, 1024)[Cell(c, DirIndex(virt)) := d][Cell(f, TableIndex(virt)) := e][w := 0]
      ensures roles == old(roles)[Frame(f) := UserTable(c, DirIndex(virt))]
    {
      Install(dir, v, DirIndex(virt), d, q, p, c, f);
      WriteAndClose(v, TableIndex(virt), e, p, f, w);
    }

    /** The slow path without a table, with the frame for it in hand. */
    method MapWithFrame(dir: bv32, ptable: bv32, virt: bv32, d: bv32, e: bv32,
                        ghost q: bv32, ghost c: bv20, ghost f: bv20) returns (ok: bool)
      requires Valid() && UserPage(virt) && c in contexts
      requires Opened(q, c) && dir == q << 12 && !Present(Word(mem, c, DirIndex(virt)))
      requires ptable == Address(f) && !Used(roles, f) && f !in free
      requires Plain(d) && FrameOf(d) == f
      modifies `mem, `roles
      ensures Valid()
      ensures ok <==> !old(WindowFull())
      ensures ok ==> roles == old(roles)[Frame(f) := UserTable(c, DirIndex(virt))]
      ensures ok ==> mem == NewTable(old(mem), c, virt, f, d, e)
    {
      TableOwner(mem, boot, contexts, roles, c, virt);
      var table, p, w, a := Open(ptable, f);
      ok := table.Some?;
      if ok {
        RestoredNew(old(mem), w, a, c, virt, f, d, e);
        Build(dir, table.value, virt, d, e, q, p, c, f, w);
      }
    }

    method DirectoryEntry(ptable: bv32, access: bv32, ghost f: bv20) returns (d: bv32)
      requires Flags(access) && ptable == Address(f)
      ensures d == Address(f) | access | 3 && Plain(d) && FrameOf(d) == f
    {
      TableEntry(f, access);
      d := ptable | access | 3;
    }

    /** The slow path without a table: a new one is put into the directory, which is open at page `q`. */
    method MapIntoNew(dir: bv32, virt: bv32, access: bv32, e: bv32, ghost q: bv32, ghost c: bv20)
      returns (ok: bool, ghost f: bv20)
      requires Valid() && UserPage(virt) && Flags(access) && c in contexts
      requires Opened(q, c) && dir == q << 12 && !Present(Word(mem, c, DirIndex(virt)))
      modifies `mem, `free, `roles
      ensures Valid()
      ensures ok <==> !old(WindowFull()) && old(free) != {}
      ensures ok ==> f in old(free) && free == old(free) - {f}
      ensures ok ==> roles == old(roles)[Frame(f) := UserTable(c, DirIndex(virt))]
      ensures ok ==> mem == NewTable(old(mem), c, virt, f, Address(f) | access | 3, e)
    {
      var ptable;
      ptable, f := MemoryAlloc();
      if ptable == None { return false, f; }
      var d := DirectoryEntry(ptable.value, access, f);
      ok := MapWithFrame(dir, ptable.value, virt, d, e, q, c, f);
    }

    /** The directory `c` is opened at window page `p`, whose entry is word `w`. */
    method OpenDirectory(context: bv32, ghost virt: bv32, ghost c: bv20)
      returns (dir: Option<bv32>, ghost p: bv32, ghost w: Cell, ghost a: bv32)
      requires Valid() && UserPage(virt) && context == Address(c) && c in contexts && TableOrNone(mem, c, virt)
      modifies `mem
      ensures Valid() && free == old(free) && roles == old(roles)
      ensures Room(old(mem), boot) <==> dir.Some? && !WindowFull()
      ensures dir.Some? ==>
        && dir.value == p << 12 && Opened(p, c) && w == WindowCell(mem, boot, p)
        && old(mem)[w] == 0 && mem == old(mem)[w := a]
        && w.frame != c && w.frame !in free && TableOrNone(mem, c, virt)
        && var d := Word(old(mem), c, DirIndex(virt)); Present(d) ==> w.frame != FrameOf(d)
    {
      TableOwner(mem, boot, contexts, roles, c, virt);
      dir, p, w, a := Open(context, c);
    }

    /** The middle of the slow path, with the directory open at window page `p`. */
    method MapOpened(dir: bv32, virt: bv32, phys: bv32, access: bv32, ghost p: bv32, ghost c: bv20)
      returns (ok: bool, ghost f: bv20)
      requires Valid() && UserPage(virt) && Flags(access) && c in contexts && TableOrNone(mem, c, virt)
      requires Opened(p, c) && dir == p << 12
      modifies `mem, `free, `roles
      ensures Valid()
      ensures ok <==> !old(WindowFull()) && (Present(Word(old(mem), c, DirIndex(virt))) || old(free) != {})
      ensures ok ==> Mapped(old(mem), mem, old(free), free, old(roles), roles, c, virt, phys, access, f)
    {
      var d := GetWord(dir, DirIndex(virt), p, c);
      if d & 1 != 1 {
        ok, f := MapIntoNew(dir, virt, access, phys | access | 3, p, c);
      } else {
        f := 0;
        ok := MapIntoOld(d, virt, phys | access | 3, c);
      }
    }

    /** The middle of the slow path; the window's entry for page `p` stays where it is. */
    method MapInPlace(dir: bv32, virt: bv32, phys: bv32, access: bv32, ghost p: bv32, ghost c: bv20)
      returns (ok: bool, ghost f: bv20)
      requires Valid() && UserPage(virt) && Flags(access) && c in contexts && TableOrNone(mem, c, virt)
      requires Opened(p, c) && dir == p << 12
      modifies `mem, `free, `roles
      ensures Valid()
      ensures ok <==> !old(WindowFull()) && (Present(Word(old(mem), c, DirIndex(virt))) || old(free) != {})
      ensures ok ==> WindowCell(mem, boot, p) == WindowCell(old(mem), boot, p)
      ensures ok ==> Mapped(old(mem), mem, old(free), free, old(roles), roles, c, virt, phys, access, f)
    {
      ok, f := MapOpened(dir, virt, phys, access, p, c);
      if ok {
        MappedWindow(old(mem), mem, boot, contexts, old(free), free, old(roles), roles, c, virt, phys, access, f, p);
      }
    }

    /** The end of the slow path: window page `p` is closed again. */
    method CloseMapped(dir: bv32, ghost m: Memory, ghost fs: set<bv20>, ghost rs: Roles,
                       ghost p: bv32, ghost w: Cell, ghost a: bv32,
                       ghost c: bv20, ghost virt: bv32, ghost phys: bv32, ghost access: bv32, ghost f: bv20)
      requires Valid() && InWindow(p) && dir == p << 12 && w == WindowCell(mem, boot, p) && m[w] == 0
      requires w.frame != c && w.frame !in fs
      requires var d := Word(m, c, DirIndex(virt)); Present(d) ==> w.frame != FrameOf(d)
      requires Mapped(m[w := a], mem, fs, free, rs, roles, c, virt, phys, access, f)
      modifies `mem
      ensures Valid() && free == old(free) && roles == old(roles)
      ensures Mapped(m, mem, fs, free, rs, roles, c, virt, phys, access, f)
    {
      MappedAround(m, mem, fs, free, rs, roles, c, virt, phys, access, f, w, a);
      Close(dir, p, w);
    }

    /** The slow path after word `w` of memory `m` was set to `a`, which opened the directory at window page `p`. */
    method MapAndClose(dir: bv32, virt: bv32, phys: bv32, access: bv32,
                       ghost m: Memory, ghost p: bv32, ghost w: Cell, ghost a: bv32, ghost c: bv20)
      returns (ok: bool, ghost f: bv20)
      requires Valid() && UserPage(virt) && Flags(access) && c in contexts && TableOrNone(mem, c, virt)
      requires Opened(p, c) && dir == p << 12 && w == WindowCell(mem, boot, p) && mem == m[w := a] && m[w] == 0
      requires w.frame != c && w.frame !in free
      requires var d := Word(m, c, DirIndex(virt)); Present(d) ==> w.frame != FrameOf(d)
      modifies `mem, `free, `roles
      ensures Valid()
      ensures ok <==> !old(WindowFull()) && (Present(Word(m, c, DirIndex(virt))) || old(free) != {})
      ensures ok ==> Mapped(m, mem, old(free), free, old(roles), roles, c, virt, phys, access, f)
    {
      ok, f := MapInPlace(dir, virt, phys, access, p, c);
      if ok {
        CloseMapped(dir, m, old(free), old(roles), p, w, a, c, virt, phys, access, f);
      }
    }

    /** The slow path of paging_map: directory and table are mapped at window pages, written and unmapped. */
    method MapSlow(context: bv32, virt: bv32, phys: bv32, access: bv32) returns (ok: bool, ghost f: bv20)
      requires Valid() && UserPage(virt) && Flags(access)
      requires context == Address(FrameOf(context)) && FrameOf(context) in contexts
      requires TableOrNone(mem, FrameOf(context), virt)
      modifies `mem, `free, `roles
      ensures Valid()
      ensures ok <==> Roomy(old(mem), boot, old(free), FrameOf(context), virt)
      ensures ok ==>
        Mapped(old(mem), mem, old(free), free, old(roles), roles, FrameOf(context), virt, phys, access, f)
    {
      ghost var c := FrameOf(context);
      var dir, p, w, a := OpenDirectory(context, virt, c);
      if dir == None { return false, 0; }
      ok, f := MapAndClose(dir.value, virt, phys, access, old(mem), p, w, a, c);
    }

    // ---------- paging_init ----------

    /** A store to a low frame through its physical address, on the boot directory. */
    method PutLow(v: bv32, i: bv10, w: bv32, ghost f: bv20)
      requires LowHalf(mem, boot) && current == Address(boot) && LowFrame(f) && v == Address(f)
      modifies `mem
      ensures mem == old(mem)[Cell(f, i) := w]
    {
      LowWalk(mem, boot, f, i);
      AddressFrame(boot);
      Store(WordAddress(v, i), w);
    }

    /** memset of a whole table, through its physical address. */
    method ClearLow(v: bv32, ghost f: bv20)
      requires LowHalf(mem, boot) && current == Address(boot) && LowFrame(f) && f != boot && v == Address(f)
      modifies `mem
      ensures LowHalf(mem, boot) && mem == ZeroedTo(old(mem), f, 1024)
    {
      for i := 0 to 1024
        invariant LowHalf(mem, boot) && mem == ZeroedTo(old(mem), f, i)
      {
        ZeroedNext(old(mem), f, i);
        PutLow(v, SlotAt(i), 0, f);
      }
    }

    /** The inner loop of paging_init: a table for the first 4 MB. */
    method FillLow(v: bv32, ghost f: bv20)
      requires LowHalf(mem, boot) && current == Address(boot) && LowFrame(f) && f != boot && v == Address(f)
      modifies `mem
      ensures LowHalf(mem, boot) && mem == FilledTo(old(mem), f, 1024)
    {
      for j := 0 to 1024
        invariant LowHalf(mem, boot) && mem == FilledTo(old(mem), f, j)
      {
        FilledNext(old(mem), f, j);
        PutLow(v, SlotAt(j), FirstEntry(SlotAt(j)), f);
      }
    }

    method InitEntry(kcontext: bv32, w: bv32, i: nat)
      requires LowHalf(mem, boot) && LowFrame(boot) && current == Address(boot) && kcontext == Address(boot) && i < 255
      modifies `mem
      ensures LowHalf(mem, boot) && mem == old(mem)[Cell(boot, SlotAt(768 + i)) := w]
    {
      PutLow(kcontext, SlotAt(768 + i), w, boot);
      forall s: bv10 | s < 768 ensures Word(mem, boot, s) == LowEntry(s) { NotLow(s, 768 + i); }
    }

    /** One round of the loop of paging_init, with the frame for the table. */
    method InitTable(kcontext: bv32, table: bv32, i: nat, ghost f: bv20)
      requires LowHalf(mem, boot) && LowFrame(boot) && current == Address(boot) && kcontext == Address(boot)
      requires LowFrame(f) && f != boot && table == Address(f) && i < 255
      modifies `mem
      ensures mem == WithTable(old(mem), boot, SlotAt(768 + i), f)
    {
      RoundMakesTable(mem, boot, i, f);
      InitEntry(kcontext, Pointer(table), i);
      ClearLow(table, f);
      if i == 0 {
        FillLow(table, f);
      } else if i == 254 {
        PutLow(table, 1023, Pointer(kcontext), f);
      }
    }

    /** One round of the loop of paging_init. */
    method InitRound(kcontext: bv32, i: nat)
      requires Booting(mem, boot, roles, i) && LowFrame(boot) && current == Address(boot) && kcontext == Address(boot)
      requires i < 255 && |LowFrames(free)| >= 255 - i && forall f: bv20 :: f in free ==> !Used(roles, f)
      modifies `mem, `free, `roles
      ensures Booting(mem, boot, roles, i + 1) && OnlyUsed(old(mem), mem, roles)
      ensures |LowFrames(free)| >= 255 - (i + 1) && forall f: bv20 :: f in free ==> !Used(roles, f)
      ensures Grown(old(roles), roles, old(free), free)
    {
      SomeLow(free);
      var table, f := MemoryAlloc();
      OneLess(old(free), f);
      InitTable(kcontext, table.value, i, f);
      BootingNext(old(mem), boot, roles, i, f);
      roles := roles[Frame(f) := RoleOf(boot, SlotAt(768 + i))];
    }

    /** paging_activate_context. */
    method Activate(context: bv32)
      modifies `current, `selected
      ensures selected == context && current == if context == old(selected) then old(current) else context
      ensures old(Valid()) && context == Address(FrameOf(context)) && FrameOf(context) in contexts ==> Valid()
    {
      if context == selected { return; }
      current := context;
      selected := context;
    }

    /** The loop of paging_init. */
    method InitTables(kcontext: bv32)
      requires LowHalf(mem, boot) && LowFrame(boot) && boot !in free
      requires kcontext == Address(boot) && current == Address(boot)
      requires |LowFrames(free)| >= 255
      modifies `mem, `free, `roles
      ensures Booting(mem, boot, roles, 255) && OnlyUsed(old(mem), mem, roles)
      ensures Grown(map[Frame(boot) := Directory], roles, old(free), free)
      ensures forall f: bv20 :: f in free ==> !Used(roles, f)
    {
      roles := map[Frame(boot) := Directory];
      for i := 0 to 255
        invariant Booting(mem, boot, roles, i) && OnlyUsed(old(mem), mem, roles)
        invariant |LowFrames(free)| >= 255 - i && forall f: bv20 :: f in free ==> !Used(roles, f)
        invariant Grown(map[Frame(boot) := Directory], roles, old(free), free)
      {
        InitRound(kcontext, i);
      }
    }

    /** paging_init behind its loop. */
    method Finish(kcontext: bv32)
      requires Booting(mem, boot, roles, 255) && LowFrame(boot) && kcontext == Address(boot) && current == Address(boot)
      requires forall f: bv20 :: f in free ==> !Used(roles, f)
      modifies `mem, `current, `selected, `contexts
      ensures Valid() && contexts == {boot} && selected == kcontext && LowHalf(mem, boot)
      ensures mem == old(mem)[Cell(boot, 1023) := Pointer(Address(boot))]
      ensures forall s: bv10 :: 768 <= Number(s) < 1023 ==> Made(mem, boot, roles, s)
    {
      Booted(mem, boot, roles);
      PutLow(kcontext, 1023, Pointer(kcontext), boot);
      contexts := {boot};
      AddressFrame(boot);
      Activate(kcontext);
    }

    /** paging_init up to what its tables mean. */
    method Establish(kcontext: bv32)
      requires LowHalf(mem, boot) && LowFrame(boot) && boot !in free
      requires kcontext == Address(boot) && current == Address(boot)
      requires |LowFrames(free)| >= 255
      modifies `mem, `current, `selected, `free, `contexts, `roles
      ensures Valid() && contexts == {boot} && selected == kcontext && LowHalf(mem, boot)
      ensures forall s: bv10 :: 768 <= Number(s) < 1023 ==> Made(mem, boot, roles, s)
      ensures OnlyUsed(old(mem), mem, roles) && Grown(map[Frame(boot) := Directory], roles, old(free), free)
    {
      InitTables(kcontext);
      Finish(kcontext);
    }

    /** paging_init, on the directory of the boot code. */
    method Init(kcontext: bv32)
      requires forall i: bv10 :: i < 768 ==> Word(mem, boot, i) == ((i as bv32) << 22) | 0x83
      requires LowFrame(boot) && boot !in free && kcontext == Address(boot) && current == Address(boot)
      requires |set f | f in free && LowFrame(f)| >= 255
      modifies `mem, `current, `selected, `free, `contexts, `roles
      ensures Valid() && contexts == {boot} && selected == kcontext
      ensures forall s: bv10 :: 768 <= Number(s) < 1023 ==> Made(mem, boot, roles, s)
      ensures forall v: bv32 :: DirIndex(v) < 768 ==> Page(mem, boot, v) == Some(FrameOf(v))
      ensures forall v: bv32 :: DirIndex(v) == 768 ==> Page(mem, boot, v) == Some(TableIndex(v) as bv20)
      ensures forall v: bv32 :: 768 < DirIndex(v) < 1022 ==> Page(mem, boot, v) == None
      ensures OnlyUsed(old(mem), mem, roles) && Grown(map[Frame(boot) := Directory], roles, old(free), free)
    {
      assert LowFrames(free) == set f | f in free && LowFrame(f);
      Establish(kcontext);
      BootPages(mem, boot, roles);
    }

    // ---------- paging_create_context ----------

    /** One word of that memcpy. */
    method CopyEntry(context: bv32, i: nat, ghost m: Memory, ghost p: bv32, ghost f: bv20)
      requires Valid() && Opened(p, f) && context == p << 12 && !Used(roles, f) && 768 <= i < 1024
      requires mem == CopiedTo(m, FrameOf(current), f, i)
      modifies `mem
      ensures Valid() && SameWindow(old(mem), mem, boot)
      ensures mem == CopiedTo(m, FrameOf(current), f, i + 1)
    {
      assert Context(mem, boot, FrameOf(current), roles);
      var w := ReadEntry(SlotAt(i));
      CopiedNext(m, FrameOf(current), f, i);
      PutFresh(context, SlotAt(i), w, p, f);
    }

    /** The memcpy of paging_create_context: directory entries 768 to 1021 of the context in use. */
    method CopyKernel(context: bv32, ghost p: bv32, ghost f: bv20)
      requires Valid() && Opened(p, f) && context == p << 12 && !Used(roles, f)
      modifies `mem
      ensures Valid() && SameWindow(old(mem), mem, boot)
      ensures mem == CopiedTo(old(mem), FrameOf(current), f, 1022)
    {
      CopiedNone(mem, FrameOf(current), f);
      for i := 768 to 1022
        invariant Valid() && SameWindow(old(mem), mem, boot)
        invariant mem == CopiedTo(old(mem), FrameOf(current), f, i)
      {
        CopyEntry(context, i, old(mem), p, f);
      }
    }

    method PutTwo(context: bv32, a: bv32, z: bv32, ghost p: bv32, ghost f: bv20)
      requires Valid() && Opened(p, f) && context == p << 12 && !Used(roles, f)
      modifies `mem
      ensures Valid() && SameWindow(old(mem), mem, boot)
      ensures mem == old(mem)[Cell(f, 1022) := a][Cell(f, 1023) := z]
    {
      PutFresh(context, 1022, a, p, f);
      PutFresh(context, 1023, z, p, f);
    }

    /** The three pointers of a new context to itself. */
    method PutPointers(context: bv32, table: bv32, d: bv32, e: bv32,
                   ghost p: bv32, ghost f: bv20, ghost q: bv32, ghost t: bv20)
      requires Valid() && Opened(p, f) && context == p << 12 && !Used(roles, f)
      requires Opened(q, t) && table == q << 12 && !Used(roles, t)
      modifies `mem
      ensures Valid() && SameWindow(old(mem), mem, boot)
      ensures mem == SelfMap(old(mem), f, t, d, e)
    {
      PutFresh(table, 1023, d, q, t);
      PutTwo(context, e, d, p, f);
    }

    method ClearBoth(context: bv32, table: bv32, ghost p: bv32, ghost f: bv20, ghost q: bv32, ghost t: bv20)
      requires Valid() && f != t
      requires Opened(p, f) && context == p << 12 && !Used(roles, f)
      requires Opened(q, t) && table == q << 12 && !Used(roles, t)
      modifies `mem
      ensures Valid() && SameWindow(old(mem), mem, boot)
      ensures mem == ZeroedTo(ZeroedTo(old(mem), t, 1024), f, 768)
    {
      Clear(table, 1024, q, t);
      Clear(context, 768, p, f);
    }

    method ClearAndCopy(context: bv32, table: bv32, ghost p: bv32, ghost f: bv20, ghost q: bv32, ghost t: bv20,
                        ghost b: bv20)
      requires Valid() && f != t && b == FrameOf(current)
      requires Opened(p, f) && context == p << 12 && !Used(roles, f)
      requires Opened(q, t) && table == q << 12 && !Used(roles, t)
      modifies `mem
      ensures Valid() && SameWindow(old(mem), mem, boot)
      ensures mem == CopiedTo(ZeroedTo(ZeroedTo(old(mem), t, 1024), f, 768), b, f, 1022)
    {
      ClearBoth(context, table, p, f, q, t);
      CopyKernel(context, p, f);
    }

    /** The writes of paging_create_context to its two frames, which are open at window pages `p` and `q`. */
    method FillContext(context: bv32, table: bv32, d: bv32, e: bv32,
                       ghost p: bv32, ghost f: bv20, ghost q: bv32, ghost t: bv20, ghost b: bv20)
      requires Valid() && f != t && b == FrameOf(current) && b != f && b != t
      requires Opened(p, f) && context == p << 12 && !Used(roles, f)
      requires Opened(q, t) && table == q << 12 && !Used(roles, t)
      modifies `mem
      ensures Valid() && SameWindow(old(mem), mem, boot)
      ensures mem == NewContext(old(mem), b, f, t, d, e)
    {
      ClearAndCopy(context, table, p, f, q, t, b);
      NewContextInSteps(old(mem), mem, b, f, t, d, e);
      PutPointers(context, table, d, e, p, f, q, t);
    }

    /** Window page `p` is closed again; setting and clearing its entry leaves nothing behind. */
    method CloseCreated(virt: bv32, ghost m: Memory, ghost p: bv32, ghost w: Cell, ghost a: bv32,
                        ghost b: bv20, ghost f: bv20, ghost t: bv20, ghost d: bv32, ghost e: bv32)
      requires Valid() && InWindow(p) && virt == p << 12 && w == WindowCell(mem, boot, p)
      requires mem == NewContext(m[w := a], b, f, t, d, e)
      requires m[w] == 0 && w.frame != f && w.frame != t && w.frame != b
      modifies `mem
      ensures Valid() && free == old(free)
      ensures mem == NewContext(m, b, f, t, d, e)
    {
      RestoredContext(m, w, a, b, f, t, d, e);
      Close(virt, p, w);
    }

    /** paging_create_context with both frames, of which the directory is open at window page `p`. */
    method CreateWith(context: bv32, ptable: bv32, d: bv32, e: bv32, ghost p: bv32, ghost f: bv20, ghost t: bv20)
      returns (ok: bool)
      requires Valid() && Opened(p, f) && context == p << 12 && !Used(roles, f)
      requires f != t && !Used(roles, t) && ptable == Address(t)
      modifies `mem
      ensures Valid()
      ensures ok <==> !old(WindowFull())
      ensures ok ==> mem == NewContext(old(mem), FrameOf(current), f, t, d, e)
    {
      assert Context(mem, boot, FrameOf(current), roles);
      var table, q, w, a := Open(ptable, t);
      if table == None { return false; }
      FillContext(context, table.value, d, e, p, f, q, t, FrameOf(current));
      CloseCreated(table.value, old(mem), q, w, a, FrameOf(current), f, t, d, e);
      return true;
    }

    /** paging_create_context from its second memory_alloc on, with the directory open at window page `p`. */
    method CreateOpened(context: bv32, d: bv32, ghost p: bv32, ghost f: bv20)
      returns (ok: bool, ghost t: bv20, ghost e: bv32)
      requires Valid() && Opened(p, f) && context == p << 12 && !Used(roles, f) && f !in free
      modifies `mem, `free
      ensures Valid()
      ensures ok <==> !old(WindowFull()) && old(free) != {}
      ensures ok ==> t in old(free) && free == old(free) - {t} && e == Pointer(Address(t))
      ensures ok ==> mem == NewContext(old(mem), FrameOf(current), f, t, d, e)
    {
      var ptable;
      ptable, t := MemoryAlloc();
      e := 0;
      if ptable == None { return false, t, e; }
      var entry := Pointer(ptable.value);
      e := entry;
      ok := CreateWith(context, ptable.value, d, entry, p, f, t);
    }

    /** The same; the window's entry for page `p` stays where it is. */
    method CreateInPlace(context: bv32, d: bv32, ghost p: bv32, ghost f: bv20)
      returns (ok: bool, ghost t: bv20, ghost e: bv32)
      requires Valid() && Opened(p, f) && context == p << 12 && !Used(roles, f) && f !in free
      requires boot != f && boot !in free
      modifies `mem, `free
      ensures Valid()
      ensures ok <==> !old(WindowFull()) && old(free) != {}
      ensures ok ==> t in old(free) && free == old(free) - {t} && e == Pointer(Address(t))
      ensures ok ==> WindowCell(mem, boot, p) == WindowCell(old(mem), boot, p)
      ensures ok ==> mem == NewContext(old(mem), FrameOf(current), f, t, d, e)
    {
      ok, t, e := CreateOpened(context, d, p, f);
      if ok { NewContextWindow(old(mem), boot, FrameOf(current), f, t, d, e, p); }
    }

    /** The same after word `w` of memory `m` was set to `a`, which opened the directory at window page `p`. */
    method CreateAndClose(context: bv32, d: bv32, ghost m: Memory, ghost p: bv32, ghost w: Cell, ghost a: bv32,
                          ghost f: bv20)
      returns (ok: bool, ghost t: bv20, ghost e: bv32)
      requires Valid() && Opened(p, f) && context == p << 12 && !Used(roles, f) && f !in free
      requires w == WindowCell(mem, boot, p) && mem == m[w := a] && m[w] == 0
      requires Used(roles, w.frame) && w.frame != FrameOf(current) && boot != f && boot !in free
      modifies `mem, `free
      ensures Valid()
      ensures ok <==> !old(WindowFull()) && old(free) != {}
      ensures ok ==> t in old(free) && free == old(free) - {t} && e == Pointer(Address(t))
      ensures ok ==> mem == NewContext(m, FrameOf(current), f, t, d, e)
    {
      ok, t, e := CreateInPlace(context, d, p, f);
      if ok { CloseCreated(context, m, p, w, a, FrameOf(current), f, t, d, e); }
    }

    /** paging_create_context up to the memory it leaves. */
    method MakeContext(pcontext: bv32, d: bv32, ghost f: bv20) returns (ok: bool, ghost t: bv20, ghost e: bv32)
      requires Valid() && pcontext == Address(f) && !Used(roles, f) && f !in free
      modifies `mem, `free
      ensures Valid()
      ensures ok <==> Room(old(mem), boot) && old(free) != {}
      ensures ok ==> t in old(free) && free == old(free) - {t} && e == Pointer(Address(t))
      ensures ok ==> mem == NewContext(old(mem), FrameOf(current), f, t, d, e)
    {
      assert Context(mem, boot, FrameOf(current), roles) && Context(mem, boot, boot, roles);
      t, e := 0, 0;
      var context, p, w, a := Open(pcontext, f);
      if context == None { return false, t, e; }
      ok, t, e := CreateAndClose(context.value, d, old(mem), p, w, a, f);
    }

    /** The frames of a new context, which is in memory, get their roles. */
    ghost method Admit(m: Memory, fs: set<bv20>, f: bv20, t: bv20)
      requires Structure(m, boot, contexts, roles)
      requires current == Address(FrameOf(current)) && FrameOf(current) in contexts && selected == current
      requires forall g: bv20 :: g in fs ==> !Used(roles, g)
      requires f in fs && t in fs - {f} && free == fs - {f} - {t}
      requires mem == NewContext(m, FrameOf(current), f, t, Pointer(Address(f)), Pointer(Address(t)))
      modifies `contexts, `roles
      ensures Valid()
      ensures Created(m, mem, fs, free, old(contexts), contexts, old(roles), roles, FrameOf(current), f, t)
    {
      assert free == fs - {f, t};
      assert Context(m, boot, FrameOf(current), roles);
      NewContextFresh(m, FrameOf(current), f, t);
      Adopt(m, mem, boot, contexts, roles, FrameOf(current), f, t);
      contexts := contexts + {f};
      roles := roles[Frame(f) := Directory][Frame(t) := SelfTable(f)];
    }

    /** paging_create_context with the directory's frame `f` taken from the free frames `fs`. */
    method CreateIn(pcontext: bv32, ghost fs: set<bv20>, ghost f: bv20) returns (ok: bool, ghost t: bv20)
      requires Valid() && pcontext == Address(f) && f in fs && free == fs - {f}
      requires forall g: bv20 :: g in fs ==> !Used(roles, g)
      modifies `mem, `free, `contexts, `roles
      ensures Valid()
      ensures ok <==> Room(old(mem), boot) && old(free) != {}
      ensures ok ==>
        Created(old(mem), mem, fs, free, old(contexts), contexts, old(roles), roles, FrameOf(current), f, t)
    {
      var d := Pointer(pcontext);
      ghost var e;
      ok, t, e := MakeContext(pcontext, d, f);
      if ok { Admit(old(mem), fs, f, t); }
    }

    /** paging_create_context up to what the new context means. */
    method NewDirectory() returns (pcontext: Option<bv32>, ghost f: bv20, ghost t: bv20)
      requires Valid()
      modifies `mem, `free, `contexts, `roles
      ensures Valid()
      ensures pcontext.Some? <==> Room(old(mem), boot) && Two(old(free))
      ensures pcontext.Some? ==>
        && pcontext.value == Address(f)
        && Created(old(mem), mem, old(free), free, old(contexts), contexts, old(roles), roles, FrameOf(current), f, t)
    {
      t := 0;
      pcontext, f := MemoryAlloc();
      if pcontext == None { return; }
      OneLeft(old(free), f);
      var ok;
      ok, t := CreateIn(pcontext.value, old(free), f);
      if !ok { return None, f, t; }
    }

    /** paging_create_context; None stands for a panic. */
    method CreateContext() returns (pcontext: Option<bv32>, ghost f: bv20, ghost t: bv20)
      requires Valid()
      modifies `mem, `free, `contexts, `roles
      ensures Valid()
      ensures pcontext.Some? <==> Room(old(mem), boot) && Two(old(free))
      ensures pcontext.Some? ==>
        && pcontext.value == Address(f)
        && Created(old(mem), mem, old(free), free, old(contexts), contexts, old(roles), roles, FrameOf(current), f, t)
      ensures pcontext.Some? ==>
        && f !in old(contexts) && contexts == old(contexts) + {f}
        && (forall v: bv32 :: DirIndex(v) < 1022 ==>
              Page(mem, f, v) == if DirIndex(v) < 768 then None else Page(old(mem), FrameOf(current), v))
        && (forall c: bv20, v: bv32 :: c in old(contexts) && DirIndex(v) < 1022 ==>
              Page(mem, c, v) == Page(old(mem), c, v))
      ensures pcontext.Some? ==>
        && Word(mem, f, 1022) == Address(t) | 3 && Word(mem, f, 1023) == Address(f) | 3
        && Word(mem, t, 1023) == Address(f) | 3 && forall i: bv10 :: i < 1023 ==> Word(mem, t, i) == 0
    {
      assert Context(mem, boot, FrameOf(current), roles);
      pcontext, f, t := NewDirectory();
      if pcontext.Some? {
        CreateMeans(old(mem), mem, boot, old(contexts), contexts, old(free), free, old(roles), roles,
                    FrameOf(current), f, t);
        CreatedPointers(old(mem), mem, old(free), free, old(contexts), contexts, old(roles), roles,
                        FrameOf(current), f, t);
      }
    }

    // ---------- the calls of the rest of the kernel ----------

    /** page_dir[virt >> 22]. */
    method ReadDirectory(virt: bv32) returns (d: bv32)
      requires Valid()
      ensures d == Word(mem, FrameOf(current), DirIndex(virt))
    {
      d := ReadEntry(DirIndex(virt));
    }

    /** paging_map with the context it works on. */
    method MapIn(context: bv32, virt: bv32, phys: bv32, access: bv32) returns (ok: bool, ghost f: bv20)
      requires Valid() && UserPage(virt) && Flags(access)
      requires context == Address(FrameOf(context)) && FrameOf(context) in contexts
      requires TableOrNone(mem, FrameOf(context), virt)
      modifies `mem, `free, `roles
      ensures Valid()
      ensures ok <==> || (context == selected && Present(Word(old(mem), FrameOf(context), DirIndex(virt))))
                      || Roomy(old(mem), boot, old(free), FrameOf(context), virt)
      ensures ok ==>
        Mapped(old(mem), mem, old(free), free, old(roles), roles, FrameOf(context), virt, phys, access, f)
    {
      if context == selected {
        var d := ReadDirectory(virt);
        if d != 0 {
          assert Context(mem, boot, FrameOf(current), roles);
          assert UserEntry(mem, boot, FrameOf(current), roles, DirIndex(virt));
          MapFast(virt, phys, access);
          return true, 0;
        }
      }
      ok, f := MapSlow(context, virt, phys, access);
    }

    /** paging_map for a user page, in the current context if `context` is 0; false stands for a panic. */
    method Map(context: bv32, virt: bv32, phys: bv32, access: bv32) returns (ok: bool, ghost f: bv20)
      requires Valid() && virt < 0xc0000000 && access < 0x1000 && access & 0x80 == 0
      requires var c := if context == 0 then selected else context;
               c == Address(FrameOf(c)) && FrameOf(c) in contexts && TableOrNone(mem, FrameOf(c), virt)
      modifies `mem, `free, `roles
      ensures Valid()
      ensures var c := if context == 0 then old(selected) else context;
              ok <==> || (c == old(selected) && Present(Word(old(mem), FrameOf(c), DirIndex(virt))))
                      || Roomy(old(mem), boot, old(free), FrameOf(c), virt)
      ensures var c := if context == 0 then old(selected) else context;
              ok ==> Mapped(old(mem), mem, old(free), free, old(roles), roles, FrameOf(c), virt, phys, access, f)
      ensures var c := if context == 0 then old(selected) else context;
              ok ==>
                && Page(mem, FrameOf(c), virt) == Some(FrameOf(phys))
                && forall b: bv20, v: bv32 ::
                     b in contexts && DirIndex(v) < 1022 && (b != FrameOf(c) || v >> 12 != virt >> 12) ==>
                       Page(mem, b, v) == Page(old(mem), b, v)
      ensures var c := if context == 0 then old(selected) else context;
              var was, d := Word(old(mem), FrameOf(c), DirIndex(virt)), Word(mem, FrameOf(c), DirIndex(virt));
              ok ==>
                && Word(mem, FrameOf(d), TableIndex(virt)) == phys | access | 3
                && if Present(was) then d == was else d & 0xfff == access | 3
    {
      UserAddress(virt);
      var c := context;
      if c == 0 { c := selected; }
      ok, f := MapIn(c, virt, phys, access);
      if ok {
        MapMeans(old(mem), mem, boot, contexts, old(free), free, old(roles), roles, FrameOf(c), virt, phys, access, f);
        MappedEntries(old(mem), mem, boot, contexts, old(free), free, old(roles), roles, FrameOf(c), virt, phys, access,
                      f);
      }
    }

    method GetphysSubscript(virt: bv32) returns (p: bv32)
      ensures p == virt >> 12 && p < 0x100000
    {
      Bits.GetphysSubscript(virt);
      var pdidx := virt >> 22;
      p := (virt >> 12) & (0x3ff + 0x400 * pdidx);
    }

    /** page_tables[p] for the page of `virt`, with the subscript of paging_getphys. */
    method ReadTable(virt: bv32) returns (t: bv32)
      requires Valid() && Present(Word(mem, FrameOf(current), DirIndex(virt)))
      ensures t == Word(mem, FrameOf(Word(mem, FrameOf(current), DirIndex(virt))), TableIndex(virt))
    {
      var subscript := GetphysSubscript(virt);
      assert Context(mem, boot, FrameOf(current), roles);
      TableCell(mem, FrameOf(current), virt, subscript);
      t := Load(TableAddress(subscript));
    }

    /** The end of paging_getphys: the byte in the frame that the table entry `t` names. */
    method ByteOf(t: bv32, virt: bv32) returns (phys: bv32)
      ensures if Present(t) then FrameOf(phys) == FrameOf(t) && phys & 0xfff == virt & 0xfff else phys == 0
    {
      if t & 1 != 1 { return 0; }
      ByteInFrame(t, virt);
      phys := (t & 0xfffff000) + (virt & 0xfff);
    }

    /**
     * paging_getphys: the byte that the two entries give, with 0 for an unmapped address.  It is where the walk of
     * the current context ends unless a 4 MB page is in the way.
     */
    method GetPhys(virt: bv32) returns (phys: bv32)
      requires Valid()
      ensures var d := Word(mem, FrameOf(current), DirIndex(virt));
              var t := Word(mem, FrameOf(d), TableIndex(virt));
              if Present(d) && Present(t) then FrameOf(phys) == FrameOf(t) && phys & 0xfff == virt & 0xfff
              else phys == 0
      ensures TableOrNone(mem, FrameOf(current), virt) ==>
              match Page(mem, FrameOf(current), virt)
              case Some(f) => FrameOf(phys) == f && phys & 0xfff == virt & 0xfff
              case None => phys == 0
    {
      if TableOrNone(mem, FrameOf(current), virt) { TableTranslates(mem, FrameOf(current), virt); }
      var d := ReadDirectory(virt);
      if d & 1 != 1 { return 0; }
      var t := ReadTable(virt);
      TwoLevelOf(mem, FrameOf(current), virt, d, t);
      phys := ByteOf(t, virt);
    }
  }
}
