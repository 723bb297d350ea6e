/** Where slab pages come from: kheap_slab_create takes a frame and maps it at the first free page of the window. */
module Slabs {
  import opened Wrappers
  import opened Bits
  import opened Mmu
  import opened Contexts
  import opened Edits
  import opened Effects
  import opened Paging
  import Heap

  /** The address of window page `p` as a number. */
  function PageAddress(p: bv32): nat
    requires InWindow(p)
  {
    0xd0000000 + 4096 * (256 * Value(High(p)) + Value(Low(p)))
  }

  lemma AddressOfPage(p: bv32)
    requires InWindow(p)
    ensures (p << 12) as int == PageAddress(p)
  {
  }

  lemma SameByte(a: bv8, b: bv8)
    requires Value(a) == Value(b)
    ensures a == b
  {
  }

  lemma SameAddress(p: bv32, q: bv32)
    requires InWindow(p) && InWindow(q) && PageAddress(p) == PageAddress(q)
    ensures p == q
  {
    SameByte(High(p), High(q));
    SameByte(Low(p), Low(q));
    SamePage(p, q);
  }

  lemma {:induction false} Multiple(k: nat)
    ensures Heap.IsPage(4096 * k)
  {
    if k > 0 { Multiple(k - 1); }
  }

  lemma AddressIsPage(p: bv32)
    requires InWindow(p)
    ensures PageAddress(p) > 0 && Heap.IsPage(PageAddress(p))
  {
    Multiple(0xd0000 + 256 * Value(High(p)) + Value(Low(p)));
  }

  lemma FramePart(f: bv20)
    ensures Address(f) & 0xfff == 0
  {
  }

  // ---------- pages mapped one after the other ----------

  ghost predicate MapsAt(m: Memory, m': Memory, k: bv20, p: bv32) {
    FreePage(m, k, p) && exists e: bv32 :: Present(e) && m' == m[WindowCell(m, k, p) := e]
  }

  /** The mappings of paging_map_kernel: at each moment a free window page gets an entry that is present. */
  ghost predicate Mappings(ms: seq<Memory>, ps: seq<bv32>, k: bv20, cs: set<bv20>, roles: Roles) {
    && |ms| == |ps| + 1
    && (forall i :: 0 <= i < |ms| ==> Structure(ms[i], k, cs, roles))
    && forall i {:trigger ps[i]} :: 0 <= i < |ps| ==> MapsAt(ms[i], ms[i + 1], k, ps[i])
  }

  lemma MapKeepsMapped(m: Memory, m': Memory, k: bv20, cs: set<bv20>, roles: Roles, p: bv32, q: bv32)
    requires Structure(m, k, cs, roles) && MapsAt(m, m', k, p) && InWindow(q)
    ensures Present(WindowEntry(m', k, q)) <==> Present(WindowEntry(m, k, q)) || q == p
  {
    var e :| Present(e) && m' == m[WindowCell(m, k, p) := e];
    WindowWrite(m, k, cs, roles, p, e);
  }

  lemma {:induction false} StaysMapped(ms: seq<Memory>, ps: seq<bv32>, k: bv20, cs: set<bv20>, roles: Roles,
                                       i: nat, j: nat)
    requires Mappings(ms, ps, k, cs, roles) && i < j < |ms|
    ensures InWindow(ps[i]) && Present(WindowEntry(ms[j], k, ps[i]))
  {
    assert MapsAt(ms[j - 1], ms[j], k, ps[j - 1]) && MapsAt(ms[i], ms[i + 1], k, ps[i]);
    if i < j - 1 { StaysMapped(ms, ps, k, cs, roles, i, j - 1); }
    MapKeepsMapped(ms[j - 1], ms[j], k, cs, roles, ps[j - 1], ps[i]);
  }

  /** Mappings without an unmapping between them give different pages. */
  lemma DistinctPages(ms: seq<Memory>, ps: seq<bv32>, k: bv20, cs: set<bv20>, roles: Roles, i: nat, j: nat)
    requires Mappings(ms, ps, k, cs, roles) && i < j < |ps|
    ensures InWindow(ps[i]) && InWindow(ps[j]) && PageAddress(ps[i]) != PageAddress(ps[j])
  {
    StaysMapped(ms, ps, k, cs, roles, i, j);
    assert MapsAt(ms[j], ms[j + 1], k, ps[j]);
    if PageAddress(ps[i]) == PageAddress(ps[j]) { SameAddress(ps[i], ps[j]); }
  }

  // ---------- the heap on the window ----------

  /** Window page `p` at address `a` is mapped to a frame that has no role and is not free either. */
  ghost predicate BackedAt(m: Memory, k: bv20, roles: Roles, fs: set<bv20>, a: nat, p: bv32) {
    && InWindow(p) && PageAddress(p) == a && Present(WindowEntry(m, k, p))
    && !Used(roles, FrameOf(WindowEntry(m, k, p))) && FrameOf(WindowEntry(m, k, p)) !in fs
  }

  ghost predicate MappedPage(m: Memory, k: bv20, roles: Roles, fs: set<bv20>, a: nat) {
    exists p: bv32 :: BackedAt(m, k, roles, fs, a, p)
  }

  /** Every slab is such a page. */
  ghost predicate Backed(m: Memory, k: bv20, roles: Roles, fs: set<bv20>, pages: Heap.Pages) {
    forall a: nat :: a in pages ==> MappedPage(m, k, roles, fs, a)
  }

  /** A free window page is no slab yet. */
  lemma FreeIsNew(m: Memory, k: bv20, roles: Roles, fs: set<bv20>, s: Heap.Store, p: bv32)
    requires Backed(m, k, roles, fs, s.pages) && FreePage(m, k, p)
    ensures Heap.NewPage(s, PageAddress(p))
  {
    AddressIsPage(p);
    if PageAddress(p) in s.pages {
      var q :| BackedAt(m, k, roles, fs, PageAddress(p), q);
      SameAddress(p, q);
    }
  }

  /** No frame without a role that is not free gets a role or becomes free. */
  ghost predicate SparesKept(roles: Roles, roles': Roles, fs: set<bv20>, fs': set<bv20>) {
    forall f: bv20 {:trigger Used(roles', f)} {:trigger f in fs'} ::
      !Used(roles, f) && f !in fs ==> !Used(roles', f) && f !in fs'
  }

  /** The entries of the slabs stay as they are. */
  lemma BackedKept(m: Memory, m': Memory, k: bv20, roles: Roles, roles': Roles, fs: set<bv20>, fs': set<bv20>,
                   pages: Heap.Pages)
    requires Backed(m, k, roles, fs, pages) && SparesKept(roles, roles', fs, fs')
    requires forall q: bv32 :: InWindow(q) && PageAddress(q) in pages && Present(WindowEntry(m, k, q)) ==>
               WindowEntry(m', k, q) == WindowEntry(m, k, q)
    ensures Backed(m', k, roles', fs', pages)
  {
    forall a: nat | a in pages ensures MappedPage(m', k, roles', fs', a) {
      assert MappedPage(m, k, roles, fs, a);
      var q :| BackedAt(m, k, roles, fs, a, q);
      assert BackedAt(m', k, roles', fs', a, q);
    }
  }

  /** paging_map writes no entry of the window. */
  lemma MapWindow(m: Memory, m': Memory, k: bv20, cs: set<bv20>, fs: set<bv20>, fs': set<bv20>, rs: Roles, rs': Roles,
                  c: bv20, virt: bv32, phys: bv32, access: bv32, f: bv20, p: bv32)
    requires Structure(m, k, cs, rs) && c in cs && UserPage(virt) && TableOrNone(m, c, virt) && InWindow(p)
    requires forall g: bv20 :: g in fs ==> !Used(rs, g)
    requires Mapped(m, m', fs, fs', rs, rs', c, virt, phys, access, f)
    ensures WindowEntry(m', k, p) == WindowEntry(m, k, p)
  {
    MappedWindow(m, m', k, cs, fs, fs', rs, rs', c, virt, phys, access, f, p);
    TableOwner(m, k, cs, rs, c, virt);
    WindowShared(m, k, cs, rs, k, p);
    if !Present(Word(m, c, DirIndex(virt))) {
      NewTableWord(m, c, virt, f, Address(f) | access | 3, phys | access | 3, WindowCell(m, k, p));
    }
  }

  lemma MapBacked(m: Memory, m': Memory, k: bv20, cs: set<bv20>, fs: set<bv20>, fs': set<bv20>, rs: Roles, rs': Roles,
                  c: bv20, virt: bv32, phys: bv32, access: bv32, f: bv20, pages: Heap.Pages)
    requires Structure(m, k, cs, rs) && c in cs && UserPage(virt) && TableOrNone(m, c, virt)
    requires forall g: bv20 :: g in fs ==> !Used(rs, g)
    requires Mapped(m, m', fs, fs', rs, rs', c, virt, phys, access, f) && Backed(m, k, rs, fs, pages)
    ensures Backed(m', k, rs', fs', pages)
  {
    forall q: bv32 | InWindow(q) ensures WindowEntry(m', k, q) == WindowEntry(m, k, q) {
      MapWindow(m, m', k, cs, fs, fs', rs, rs', c, virt, phys, access, f, q);
    }
    BackedKept(m, m', k, rs, rs', fs, fs', pages);
  }

  /** paging_create_context writes none either. */
  lemma CreateWindow(m: Memory, k: bv20, cs: set<bv20>, rs: Roles, b: bv20, f: bv20, t: bv20, d: bv32, e: bv32, p: bv32)
    requires Structure(m, k, cs, rs) && InWindow(p) && !Used(rs, f) && !Used(rs, t)
    ensures WindowEntry(NewContext(m, b, f, t, d, e), k, p) == WindowEntry(m, k, p)
  {
    assert Context(m, k, k, rs);
    NewContextWindow(m, k, b, f, t, d, e, p);
    WindowShared(m, k, cs, rs, k, p);
  }

  class KernelHeap {
    const paging: Paging.Kernel
    const heap: Heap.Kheap

    /** Every slab is a mapped window page. */
    ghost predicate SlabsBacked()
      reads this, paging, heap
    {
      Backed(paging.mem, paging.boot, paging.roles, paging.free, heap.pages)
    }

    ghost predicate Valid()
      reads this, paging, heap, heap.bucket
    {
      paging.Valid() && heap.Valid() && SlabsBacked()
    }

    constructor (paging: Paging.Kernel, heap: Heap.Kheap)
      requires paging.Valid() && heap.Valid() && heap.pages == map[]
      ensures this.paging == paging && this.heap == heap && Valid()
    {
      this.paging := paging;
      this.heap := heap;
    }

    method Number(virt: bv32, ghost p: bv32) returns (page: Option<nat>)
      requires InWindow(p) && virt == (p << 12) + 0
      ensures page == Some(PageAddress(p))
    {
      AddressOfPage(p);
      page := Some(virt as int);
    }

    /** paging_map_kernel of a whole frame. */
    method MapFrame(phys: bv32, ghost f: bv20) returns (page: Option<nat>, ghost p: bv32, ghost e: bv32)
      requires paging.Valid() && phys == Address(f)
      modifies paging`mem
      ensures paging.Valid() && (page == None <==> old(paging.WindowFull()))
      ensures page.Some? ==>
        && MapsAt(old(paging.mem), paging.mem, paging.boot, p) && page.value == PageAddress(p)
        && Present(e) && FrameOf(e) == f && WindowEntry(paging.mem, paging.boot, p) == e
        && forall q: bv32 :: InWindow(q) && q != p ==>
             WindowEntry(paging.mem, paging.boot, q) == WindowEntry(old(paging.mem), paging.boot, q)
    {
      FramePart(f);
      AddressFrame(f);
      KernelEntryOf(phys);
      e := phys | 0x103;
      var virt;
      virt, p := paging.MapKernel(phys);
      if virt == None { return None, p, e; }
      WindowWrite(old(paging.mem), paging.boot, paging.contexts, paging.roles, p, e);
      page := Number(virt.value, p);
    }

    /** The page of kheap_slab_create: a frame at the first free window page; None stands for a panic. */
    method SlabPage() returns (page: Option<nat>)
      requires Valid()
      modifies paging`mem, paging`free
      ensures Valid() || page == None
      ensures page == None <==> old(paging.free) == {} || old(paging.WindowFull())
      ensures page.Some? ==>
        && Heap.NewPage(heap.State(), page.value)
        && MappedPage(paging.mem, paging.boot, paging.roles, paging.free, page.value)
    {
      ghost var m, fs := paging.mem, paging.free;
      var phys, f := paging.MemoryAlloc();
      if phys == None { return None; }
      ghost var p, e;
      page, p, e := MapFrame(phys.value, f);
      if page.Some? {
        FreeIsNew(m, paging.boot, paging.roles, fs, heap.State(), p);
        BackedKept(m, paging.mem, paging.boot, paging.roles, paging.roles, fs, paging.free, heap.pages);
        assert BackedAt(paging.mem, paging.boot, paging.roles, paging.free, page.value, p);
      }
    }

    /** kmalloc with the page for a new slab, if one is needed; None stands for a panic. */
    method Kmalloc(size: nat) returns (block: Option<nat>)
      requires Valid() && size <= Heap.PAGE
      modifies paging`mem, paging`free, heap, heap.bucket
      ensures Heap.Find(size) < |old(heap.lists)|
      ensures block == None <==>
        old(heap.lists)[Heap.Find(size)] == [] && (old(paging.free) == {} || old(paging.WindowFull()))
      ensures block.Some? ==>
        && Valid()
        && exists page: nat :: Heap.Servable(old(heap.State()), size, page)
             && block.value == Heap.Given(old(heap.State()), size, page)
             && heap.State() == Heap.Allocated(old(heap.State()), size, page)
    {
      Heap.Fits(size);
      var page := Some(0);
      if heap.bucket[Heap.Find(size)] == 0 {
        page := SlabPage();
        if page == None { return None; }
      }
      Heap.AllocKeeps(heap.State(), size, page.value);
      var b := heap.Kmalloc(size, page.value);
      block := Some(b);
    }

    /** paging_map takes no slab away. */
    method Map(context: bv32, virt: bv32, phys: bv32, access: bv32) returns (ok: bool, ghost f: bv20)
      requires Valid() && virt < 0xc0000000 && access < 0x1000 && access & 0x80 == 0
      requires var c := if context == 0 then paging.selected else context;
               && c == Address(FrameOf(c)) && FrameOf(c) in paging.contexts
               && TableOrNone(paging.mem, FrameOf(c), virt)
      modifies paging`mem, paging`free, paging`roles
      ensures ok ==> Valid()
      ensures var c := if context == 0 then old(paging.selected) else context;
              ok ==> Mapped(old(paging.mem), paging.mem, old(paging.free), paging.free, old(paging.roles),
                            paging.roles, FrameOf(c), virt, phys, access, f)
      ensures var c := if context == 0 then old(paging.selected) else context;
              ok ==>
                && Page(paging.mem, FrameOf(c), virt) == Some(FrameOf(phys))
                && forall b: bv20, v: bv32 ::
                     b in paging.contexts && DirIndex(v) < 1022 && (b != FrameOf(c) || v >> 12 != virt >> 12) ==>
                       Page(paging.mem, b, v) == Page(old(paging.mem), b, v)
    {
      ghost var m, fs, rs := paging.mem, paging.free, paging.roles;
      ghost var c := FrameOf(if context == 0 then paging.selected else context);
      UserAddress(virt);
      ok, f := paging.Map(context, virt, phys, access);
      if ok {
        MapBacked(m, paging.mem, paging.boot, paging.contexts, fs, paging.free, rs, paging.roles,
                  c, virt, phys, access, f, heap.pages);
      }
    }

    /** Nor does paging_create_context. */
    method CreateContext() returns (pcontext: Option<bv32>, ghost f: bv20, ghost t: bv20)
      requires Valid()
      modifies paging`mem, paging`free, paging`contexts, paging`roles
      ensures pcontext.Some? ==> Valid()
      ensures pcontext.Some? ==>
        Created(old(paging.mem), paging.mem, old(paging.free), paging.free, old(paging.contexts), paging.contexts,
                old(paging.roles), paging.roles, FrameOf(paging.current), f, t)
    {
      ghost var m, fs, rs, cs := paging.mem, paging.free, paging.roles, paging.contexts;
      pcontext, f, t := paging.CreateContext();
      if pcontext.Some? {
        forall q: bv32 | InWindow(q) ensures WindowEntry(paging.mem, paging.boot, q) == WindowEntry(m, paging.boot, q) {
          CreateWindow(m, paging.boot, cs, rs, FrameOf(paging.current), f, t,
                       Pointer(Address(f)), Pointer(Address(t)), q);
        }
        BackedKept(m, paging.mem, paging.boot, rs, paging.roles, fs, paging.free, heap.pages);
      }
    }

    /** Nor does paging_unmap_kernel of any other page of the window. */
    method Unmap(virt: bv32, ghost p: bv32)
      requires Valid() && p == virt >> 12 && InWindow(p) && PageAddress(p) !in heap.pages
      modifies paging`mem
      ensures Valid()
      ensures paging.mem == old(paging.mem)[WindowCell(old(paging.mem), paging.boot, p) := 0]
    {
      ghost var m := paging.mem;
      WindowShared(m, paging.boot, paging.contexts, paging.roles, FrameOf(paging.current), p);
      paging.UnmapKernel(virt, p);
      WindowWrite(m, paging.boot, paging.contexts, paging.roles, p, 0);
      BackedKept(m, paging.mem, paging.boot, paging.roles, paging.roles, paging.free, paging.free, heap.pages);
    }

    /** A store to word `i` of the slab at window page `p` touches no page table, and takes no slab away. */
    method WriteSlab(v: bv32, i: bv10, w: bv32, ghost p: bv32)
      requires Valid() && v == p << 12
      requires InWindow(p) && BackedAt(paging.mem, paging.boot, paging.roles, paging.free, PageAddress(p), p)
      modifies paging`mem
      ensures Valid()
      ensures UsedKept(old(paging.mem), paging.mem, paging.roles)
      ensures paging.mem ==
        old(paging.mem)[Cell(FrameOf(WindowEntry(old(paging.mem), paging.boot, p)), i) := w]
    {
      ghost var m := paging.mem;
      paging.PutFresh(v, i, w, p, FrameOf(WindowEntry(m, paging.boot, p)));
      BackedKept(m, paging.mem, paging.boot, paging.roles, paging.roles, paging.free, paging.free, heap.pages);
    }
  }
}
