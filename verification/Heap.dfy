/**
 * kernel/kheap.c: buckets of power-of-two blocks, cut from slab pages, whose free lists
 * are threaded through the free blocks themselves.  Sizes up to 4096.
 */
module Heap {
  import opened Sequences

  /** Words of memory by address, a multiple of 4; those that are not listed are zero. */
  type Words = map<nat, nat>

  function Read(m: Words, a: nat): nat { if a in m then m[a] else 0 }

  const PAGE: nat := 4096
  const BUCKET_COUNT: nat := 16

  /** The size of the blocks of bucket `b`. */
  function Size(b: nat): nat {
    if b == 0 then 4 else 2 * Size(b - 1)
  }

  /** The first bucket from `b` on whose blocks hold `size` bytes. */
  function FindFrom(size: nat, b: nat): nat
    requires b <= BUCKET_COUNT
    decreases BUCKET_COUNT - b
  {
    if b == BUCKET_COUNT || size <= Size(b) then b else FindFrom(size, b + 1)
  }

  function Find(size: nat): nat { FindFrom(size, 0) }

  lemma Sizes()
    ensures Size(0) == 4 && Size(1) == 8 && Size(2) == 16 && Size(3) == 32 && Size(4) == 64 && Size(5) == 128
    ensures Size(6) == 256 && Size(7) == 512 && Size(8) == 1024 && Size(9) == 2048 && Size(10) == 4096
  {
  }

  lemma {:induction false} Grow(b: nat)
    ensures Size(b) >= 4
    ensures b > 10 ==> Size(b) > PAGE
    decreases b
  {
    Sizes();
    if b > 0 { Grow(b - 1); }
  }

  lemma {:induction false} FirstFit(size: nat, b: nat)
    requires b <= BUCKET_COUNT
    ensures var f := FindFrom(size, b);
            b <= f <= BUCKET_COUNT && (f < BUCKET_COUNT ==> size <= Size(f)) && (f > b ==> Size(f - 1) < size)
    decreases BUCKET_COUNT - b
  {
    if !(b == BUCKET_COUNT || size <= Size(b)) { FirstFit(size, b + 1); }
  }

  /** A request up to a page gets a block that holds it, and that is less than twice as large. */
  lemma Fits(size: nat)
    requires size <= PAGE
    ensures Find(size) <= 10 && size <= Size(Find(size)) <= PAGE
    ensures size > 4 ==> Size(Find(size)) < 2 * size
  {
    var f := Find(size);
    FirstFit(size, 0);
    Sizes();
    if f > 10 { Grow(f - 1); }
    Grow(f);
  }

  /** A slab is one page: it holds a block of the bucket that kmalloc picks exactly for requests up to a page. */
  lemma PageHolds(size: nat)
    ensures Size(Find(size)) <= PAGE <==> size <= PAGE
  {
    Sizes();
    if size <= PAGE {
      Fits(size);
    } else {
      FirstFit(size, 0);
      Grow(Find(size));
    }
  }

  lemma {:induction false} SizeOrder(a: nat, b: nat)
    ensures a < b ==> Size(a) < Size(b)
    decreases b
  {
    if a < b {
      Grow(b - 1);
      if a < b - 1 { SizeOrder(a, b - 1); }
    }
  }

  /** The size of a bucket finds the bucket. */
  lemma FindSize(b: nat)
    requires b <= 10
    ensures Find(Size(b)) == b
  {
    var f := Find(Size(b));
    FirstFit(Size(b), 0);
    if f > b { SizeOrder(b, f - 1); }
    SizeOrder(f, b);
  }

  /**
   * The guards `bucket > BUCKET_COUNT` of kmalloc and kfree never hold: a size without a bucket gives
   * BUCKET_COUNT itself, one past the last head, and these are exactly the sizes above the largest bucket.
   */
  lemma NoBucket(size: nat)
    ensures Find(size) <= BUCKET_COUNT
    ensures Find(size) == BUCKET_COUNT == 16 <==> size > 131072
  {
    Sizes();
    assert Size(15) == 32 * Size(10) == 131072;
    FirstFit(size, 0);
    if Find(size) < BUCKET_COUNT - 1 { SizeOrder(Find(size), BUCKET_COUNT - 1); }
  }

  // ---------- alignment ----------

  /** `x` is a multiple of the block size of bucket `b`. */
  predicate Aligned(x: nat, b: nat) {
    if b == 0 then x % 4 == 0 else x % 2 == 0 && Aligned(x / 2, b - 1)
  }

  /** The greatest such multiple up to `x`. */
  function Floor(x: nat, b: nat): nat {
    if b == 0 then x - x % 4 else 2 * Floor(x / 2, b - 1)
  }

  lemma {:induction false} AlignedIsMultiple(x: nat, b: nat) returns (k: nat)
    requires Aligned(x, b)
    ensures x == k * Size(b)
  {
    if b == 0 {
      k := x / 4;
    } else {
      k := AlignedIsMultiple(x / 2, b - 1);
      assert x == 2 * (k * Size(b - 1)) == k * (2 * Size(b - 1));
    }
  }

  lemma {:induction false} Multiples(x: nat, y: nat, b: nat)
    requires x < y && Aligned(x, b) && Aligned(y, b)
    ensures x + Size(b) <= y
  {
    if b > 0 { Multiples(x / 2, y / 2, b - 1); }
  }

  lemma {:induction false} NextAligned(x: nat, b: nat)
    requires Aligned(x, b)
    ensures Aligned(x + Size(b), b)
  {
    if b > 0 {
      NextAligned(x / 2, b - 1);
      assert (x + Size(b)) / 2 == x / 2 + Size(b - 1);
    }
  }

  lemma FloorOfFour(x: nat)
    ensures (x - x % 4) % 4 == 0 && x - x % 4 <= x < x - x % 4 + 4
  {
  }

  lemma FloorDoubled(x: nat, h: nat, s: nat)
    requires h <= x / 2 < h + s
    ensures 2 * h <= x < 2 * h + 2 * s && (2 * h) % 2 == 0 && (2 * h) / 2 == h
  {
  }

  lemma {:induction false} FloorAligned(x: nat, b: nat)
    ensures Aligned(Floor(x, b), b) && Floor(x, b) <= x < Floor(x, b) + Size(b)
  {
    if b == 0 {
      FloorOfFour(x);
    } else {
      FloorAligned(x / 2, b - 1);
      FloorDoubled(x, Floor(x / 2, b - 1), Size(b - 1));
    }
  }

  lemma {:induction false} Quarter(n: nat) returns (q: nat)
    ensures Size(n) == 4 * q
  {
    if n == 0 {
      q := 1;
    } else {
      q := Quarter(n - 1);
      q := 2 * q;
    }
  }

  lemma FourDivides(k: nat, n: nat)
    ensures (k * Size(n)) % 4 == 0
  {
    var q := Quarter(n);
    assert k * Size(n) == 4 * (k * q);
  }

  lemma Doubled(x: nat, h: nat)
    requires x == 2 * h
    ensures x % 2 == 0 && x / 2 == h
  {
  }

  lemma TwiceAsMany(k: nat, s: nat)
    ensures k * (2 * s) == 2 * (k * s)
  {
  }

  /** Multiples of a page are multiples of every block size up to a page. */
  lemma {:induction false} PageAligned(k: nat, n: nat, b: nat)
    requires b <= n
    ensures Aligned(k * Size(n), b)
    decreases b
  {
    if b == 0 {
      FourDivides(k, n);
    } else {
      TwiceAsMany(k, Size(n - 1));
      Doubled(k * Size(n), k * Size(n - 1));
      PageAligned(k, n - 1, b - 1);
    }
  }

  lemma {:induction false} SumAligned(x: nat, y: nat, b: nat)
    requires Aligned(x, b) && Aligned(y, b)
    ensures Aligned(x + y, b)
  {
    if b > 0 {
      SumAligned(x / 2, y / 2, b - 1);
      assert (x + y) / 2 == x / 2 + y / 2;
    }
  }

  // ---------- blocks ----------

  /** The slab pages with their buckets. */
  type Pages = map<nat, nat>

  /** The blocks in use with their buckets. */
  type Live = map<nat, nat>

  /** The place of address `a` in its page. */
  function InPage(a: nat): (x: nat)
    ensures x < PAGE && x <= a
  {
    if a < PAGE then a else InPage(a - PAGE)
  }

  function PageOf(a: nat): nat { a - InPage(a) }

  predicate IsPage(p: nat) { InPage(p) == 0 }

  lemma {:induction false} InPageIsModulo(a: nat)
    ensures InPage(a) == a % PAGE
  {
    if a >= PAGE {
      InPageIsModulo(a - PAGE);
      assert a % PAGE == (a - PAGE) % PAGE;
    }
  }

  lemma {:induction false} PageStart(a: nat)
    ensures IsPage(PageOf(a))
  {
    if a >= PAGE { PageStart(a - PAGE); }
  }

  lemma {:induction false} PlaceInPage(p: nat, x: nat)
    requires IsPage(p) && x < PAGE
    ensures InPage(p + x) == x && PageOf(p + x) == p
  {
    if p >= PAGE { PlaceInPage(p - PAGE, x); }
  }

  lemma {:induction false} PagesDisjoint(p: nat, q: nat)
    requires IsPage(p) && IsPage(q) && p < q
    ensures p + PAGE <= q
  {
    if p >= PAGE { PagesDisjoint(p - PAGE, q - PAGE); }
  }

  lemma {:induction false} WholePageAligned(p: nat, b: nat)
    requires IsPage(p) && b <= 10
    ensures Aligned(p, b)
  {
    Sizes();
    if p >= PAGE {
      WholePageAligned(p - PAGE, b);
      PageAligned(1, 10, b);
      SumAligned(p - PAGE, PAGE, b);
    } else {
      PageAligned(0, 10, b);
    }
  }

  /** Address `a` begins a block of bucket `b`. */
  predicate Block(pages: Pages, a: nat, b: nat) {
    b <= 10 && PageOf(a) in pages && pages[PageOf(a)] == b && Aligned(InPage(a), b)
  }

  /** A block ends within its page. */
  lemma BlockWithin(pages: Pages, a: nat, b: nat)
    requires Block(pages, a, b)
    ensures InPage(a) + Size(b) <= PAGE && Size(b) >= 4
  {
    Sizes();
    PageAligned(1, 10, b);
    Multiples(InPage(a), PAGE, b);
    Grow(b);
  }

  /** Different blocks have no byte in common. */
  lemma BlocksDisjoint(pages: Pages, a: nat, b: nat, c: nat, d: nat)
    requires Block(pages, a, b) && Block(pages, c, d) && a != c
    ensures a + Size(b) <= c || c + Size(d) <= a
  {
    BlockWithin(pages, a, b);
    BlockWithin(pages, c, d);
    PageStart(a);
    PageStart(c);
    var p, q, x, y := PageOf(a), PageOf(c), InPage(a), InPage(c);
    if p == q {
      if x < y { Multiples(x, y, b); } else { Multiples(y, x, b); }
    } else if p < q {
      PagesDisjoint(p, q);
    } else {
      PagesDisjoint(q, p);
    }
  }

  /** Blocks are aligned to their size. */
  lemma BlockAligned(pages: Pages, a: nat, b: nat)
    requires Block(pages, a, b)
    ensures Aligned(a, b)
  {
    PageStart(a);
    WholePageAligned(PageOf(a), b);
    SumAligned(PageOf(a), InPage(a), b);
  }

  lemma EvenHalves(x: nat)
    requires x % 2 == 0 && (x / 2) % 4 == 0
    ensures x % 4 == 0
  {
  }

  lemma {:induction false} AlignedWord(x: nat, b: nat)
    requires Aligned(x, b)
    ensures x % 4 == 0
  {
    if b > 0 {
      AlignedWord(x / 2, b - 1);
      EvenHalves(x);
    }
  }

  /** Blocks consist of whole words, so the links in their first words are words too. */
  lemma BlockOfWords(pages: Pages, a: nat, b: nat)
    requires Block(pages, a, b)
    ensures a % 4 == 0 && Size(b) % 4 == 0
  {
    BlockAligned(pages, a, b);
    AlignedWord(a, b);
    FourDivides(1, b);
  }

  /** The block that holds byte `w` of a slab page. */
  lemma BlockAround(pages: Pages, w: nat) returns (a: nat)
    requires PageOf(w) in pages && pages[PageOf(w)] <= 10
    ensures var b := pages[PageOf(w)]; Block(pages, a, b) && a <= w < a + Size(b)
  {
    var b := pages[PageOf(w)];
    FloorAligned(InPage(w), b);
    PageStart(w);
    PlaceInPage(PageOf(w), Floor(InPage(w), b));
    a := PageOf(w) + Floor(InPage(w), b);
  }

  /** Every byte of a slab page is in exactly one block. */
  lemma PageTiled(pages: Pages, w: nat) returns (a: nat)
    requires PageOf(w) in pages && pages[PageOf(w)] <= 10
    ensures var b := pages[PageOf(w)]; Block(pages, a, b) && a <= w < a + Size(b)
    ensures forall c: nat, d: nat :: Block(pages, c, d) && c <= w < c + Size(d) ==> c == a && d == pages[PageOf(w)]
  {
    a := BlockAround(pages, w);
    forall c: nat, d: nat | Block(pages, c, d) && c <= w < c + Size(d) ensures c == a && d == pages[PageOf(w)] {
      if c != a { BlocksDisjoint(pages, a, pages[PageOf(w)], c, d); }
    }
  }

  // ---------- free lists ----------

  /** The blocks of `l` are linked through their first words, from `head` on. */
  predicate Chain(m: Words, head: nat, l: seq<nat>) {
    && head == (if |l| > 0 then l[0] else 0)
    && (forall i :: 0 <= i < |l| ==> l[i] > 0)
    && (forall i {:trigger Read(m, l[i])} :: 0 <= i < |l| ==> Read(m, l[i]) == if i + 1 < |l| then l[i + 1] else 0)
  }

  lemma ChainKept(m: Words, head: nat, l: seq<nat>, a: nat, w: nat)
    requires Chain(m, head, l) && a !in l
    ensures Chain(m[a := w], head, l)
  {
    forall i | 0 <= i < |l| ensures Read(m[a := w], l[i]) == Read(m, l[i]) { assert l[i] in l; }
  }

  lemma ChainPush(m: Words, head: nat, l: seq<nat>, a: nat)
    requires Chain(m, head, l) && a !in l && a > 0
    ensures Chain(m[a := head], a, [a] + l)
  {
    ChainKept(m, head, l, a, head);
  }

  lemma ChainPop(m: Words, head: nat, l: seq<nat>)
    requires Chain(m, head, l) && |l| > 0
    ensures head == l[0] && Chain(m, Read(m, head), l[1..])
  {
    assert Read(m, l[0]) == if 1 < |l| then l[1] else 0;
    forall i | 0 <= i < |l| - 1 ensures Read(m, l[1..][i]) == if i + 1 < |l| - 1 then l[1..][i + 1] else 0 {
      assert Read(m, l[i + 1]) == if i + 2 < |l| then l[i + 2] else 0;
    }
  }

  /** Each block of a slab page is in use or in its bucket's free list, and not both; nothing else is. */
  ghost predicate Tiled(pages: Pages, lists: seq<seq<nat>>, live: Live)
    requires |lists| == BUCKET_COUNT
  {
    && (forall a: nat :: a in live ==> Block(pages, a, live[a]) && a !in lists[live[a]])
    && (forall a: nat, b: nat :: b < BUCKET_COUNT && a in lists[b] ==> Block(pages, a, b))
    && (forall a: nat, b: nat :: Block(pages, a, b) ==> a in live || a in lists[b])
  }

  /** A block in use is in no free list. */
  lemma LiveNotFree(pages: Pages, lists: seq<seq<nat>>, live: Live, a: nat, b: nat)
    requires |lists| == BUCKET_COUNT && Tiled(pages, lists, live) && a in live && b < BUCKET_COUNT
    ensures a !in lists[b]
  {
    assert Block(pages, a, live[a]);
    assert a in lists[b] ==> Block(pages, a, b);
  }

  /** Nor is any other address inside a block in use. */
  lemma InsideNotFree(pages: Pages, lists: seq<seq<nat>>, live: Live, a: nat, w: nat, b: nat)
    requires |lists| == BUCKET_COUNT && Tiled(pages, lists, live) && b < BUCKET_COUNT
    requires a in live && a <= w < a + Size(live[a])
    ensures w !in lists[b]
  {
    if w in lists[b] {
      BlockWithin(pages, w, b);
      if w == a { LiveNotFree(pages, lists, live, a, b); } else { BlocksDisjoint(pages, a, live[a], w, b); }
    }
  }

  /** A block goes from use to the front of its free list. */
  lemma TiledFree(pages: Pages, lists: seq<seq<nat>>, live: Live, a: nat)
    requires |lists| == BUCKET_COUNT && Tiled(pages, lists, live) && a in live
    ensures Tiled(pages, lists[live[a] := [a] + lists[live[a]]], live - {a})
  {
  }

  /** A block goes from the front of its free list to use. */
  lemma TiledTake(pages: Pages, lists: seq<seq<nat>>, live: Live, b: nat)
    requires |lists| == BUCKET_COUNT && Tiled(pages, lists, live) && b < BUCKET_COUNT
    requires |lists[b]| > 0 && Distinct(lists[b])
    ensures lists[b][0] !in live && Tiled(pages, lists[b := lists[b][1..]], live[lists[b][0] := b])
  {
    var a := lists[b][0];
    assert a in lists[b];
    assert Block(pages, a, b);
    if a in live { LiveNotFree(pages, lists, live, a, b); }
    var lists', live' := lists[b := lists[b][1..]], live[a := b];
    forall c: nat, d: nat | Block(pages, c, d) ensures c in live' || c in lists'[d] {
      if c != a && d == b && c in lists[b] {
        var i :| 0 <= i < |lists[b]| && lists[b][i] == c;
        assert lists'[b][i - 1] == c;
      }
    }
  }

  /** A block of bucket `b` can begin at `a`, in the slab at `page`. */
  predicate OnGrid(page: nat, b: nat, a: nat) { page <= a && Aligned(a - page, b) }

  /** The blocks of slab `page` from offset `x` on. */
  ghost function BlocksFrom(page: nat, x: nat, b: nat): Live {
    map a: nat | page + x <= a < page + PAGE && OnGrid(page, b, a) :: b
  }

  /** The blocks of a new slab are all its blocks. */
  lemma SlabBlocks(pages: Pages, page: nat, b: nat, a: nat)
    requires IsPage(page) && b <= 10 && page in pages && pages[page] == b
    ensures a in BlocksFrom(page, 0, b) <==> Block(pages, a, b) && PageOf(a) == page
  {
    if page <= a < page + PAGE { PlaceInPage(page, a - page); }
  }

  /** A new slab page, all of whose blocks count as in use. */
  lemma TiledSlab(pages: Pages, lists: seq<seq<nat>>, live: Live, page: nat, b: nat)
    requires |lists| == BUCKET_COUNT && Tiled(pages, lists, live) && b <= 10
    requires IsPage(page) && page !in pages
    ensures Tiled(pages[page := b], lists, live + BlocksFrom(page, 0, b))
    ensures forall a :: a in live ==> a !in BlocksFrom(page, 0, b)
  {
    var pages', blocks := pages[page := b], BlocksFrom(page, 0, b);
    forall a: nat ensures a in blocks <==> Block(pages', a, b) && PageOf(a) == page { SlabBlocks(pages', page, b, a); }
    forall a: nat, d: nat ensures PageOf(a) != page ==> (Block(pages', a, d) <==> Block(pages, a, d)) {}
    forall a: nat, d: nat ensures Block(pages, a, d) ==> PageOf(a) != page {}
    assert forall a: nat :: a in live ==> Block(pages, a, live[a]);
    assert forall a: nat :: a in blocks ==> blocks[a] == b;
  }

  lemma BlocksAfter(page: nat, b: nat, x: nat, a: nat, x': nat, c: nat)
    requires Aligned(x, b) && a == page + x && x' == x + Size(b) && c in BlocksFrom(page, x, b) && c != a
    ensures c in BlocksFrom(page, x', b)
  {
    Multiples(x, c - page, b);
  }

  /** The first of the blocks from offset `x` on, at `a`, and the others. */
  lemma FirstBlock(page: nat, b: nat, x: nat, a: nat, x': nat)
    requires Aligned(x, b) && b <= 10 && x < PAGE && a == page + x && x' == x + Size(b)
    ensures x' <= PAGE && Aligned(x', b) && a in BlocksFrom(page, x, b)
    ensures BlocksFrom(page, x, b) - {a} == BlocksFrom(page, x', b)
  {
    Sizes();
    PageAligned(1, 10, b);
    Multiples(x, PAGE, b);
    NextAligned(x, b);
    Grow(b);
    forall c: nat | c in BlocksFrom(page, x, b) && c != a ensures c in BlocksFrom(page, x', b) {
      BlocksAfter(page, b, x, a, x', c);
    }
  }

  // ---------- the whole heap ----------

  /** The memory and the heads of the free lists, and beside them what they stand for. */
  datatype Store = Store(mem: Words, heads: seq<nat>, lists: seq<seq<nat>>, pages: Pages, live: Live)

  predicate Shaped(s: Store) { |s.heads| == |s.lists| == BUCKET_COUNT }

  ghost predicate Chained(s: Store) {
    && Shaped(s)
    && forall b :: 0 <= b < BUCKET_COUNT ==> Chain(s.mem, s.heads[b], s.lists[b]) && Distinct(s.lists[b])
  }

  ghost predicate Slabs(pages: Pages) {
    forall p :: p in pages ==> p > 0 && IsPage(p) && pages[p] <= 10
  }

  /** The heap is in order: every block of every slab is either in use or once in its free list. */
  ghost predicate Wellformed(s: Store) {
    Chained(s) && Slabs(s.pages) && Tiled(s.pages, s.lists, s.live)
  }

  /** Block `a` is put before the free list of bucket `b`. */
  function Freed(s: Store, a: nat, b: nat): (s': Store)
    requires Shaped(s) && b < BUCKET_COUNT
    ensures Shaped(s')
  {
    Store(s.mem[a := s.heads[b]], s.heads[b := a], s.lists[b := [a] + s.lists[b]], s.pages, s.live - {a})
  }

  /** The first block of the free list of bucket `b` is taken. */
  function Taken(s: Store, b: nat): Store
    requires Shaped(s) && b < BUCKET_COUNT && |s.lists[b]| > 0
  {
    s.(heads := s.heads[b := Read(s.mem, s.heads[b])], lists := s.lists[b := s.lists[b][1..]],
       live := s.live[s.heads[b] := b])
  }

  /** A new slab page, with no block in a free list yet. */
  ghost function Marked(s: Store, page: nat, b: nat): Store {
    s.(pages := s.pages[page := b], live := s.live + BlocksFrom(page, 0, b))
  }

  /** The blocks of a slab page from offset `x` on are freed one after the other. */
  function Cut(s: Store, page: nat, b: nat, x: nat): (s': Store)
    requires Shaped(s) && b < BUCKET_COUNT
    ensures Shaped(s')
    decreases PAGE - x
  {
    if x >= PAGE then s else
      Grow(b);
      Cut(Freed(s, page + x, b), page, b, x + Size(b))
  }

  /** The address of a page that is no slab yet. */
  predicate NewPage(s: Store, page: nat) {
    page > 0 && IsPage(page) && page !in s.pages
  }

  /** A request can be met: from a free list, or from `page` if that is a new one. */
  predicate Servable(s: Store, size: nat, page: nat) {
    size <= PAGE && Shaped(s) && (NewPage(s, page) || (Find(size) < BUCKET_COUNT && |s.lists[Find(size)]| > 0))
  }

  lemma MarkKeeps(s: Store, page: nat, b: nat)
    requires Wellformed(s) && b <= 10 && NewPage(s, page)
    ensures Wellformed(Marked(s, page, b))
    ensures forall a :: a in s.live ==> a !in BlocksFrom(page, 0, b)
  {
    TiledSlab(s.pages, s.lists, s.live, page, b);
  }

  /** A block of a slab is freed, the others from offset `x` on still count as in use beside `rest`. */
  ghost predicate Cutting(s: Store, page: nat, b: nat, x: nat, rest: Live) {
    && Wellformed(s) && b <= 10 && Aligned(x, b) && x <= PAGE
    && s.live == rest + BlocksFrom(page, x, b)
    && forall a :: a in rest ==> a !in BlocksFrom(page, x, b)
  }

  lemma BlockPositive(pages: Pages, a: nat, b: nat)
    requires Slabs(pages) && Block(pages, a, b)
    ensures a > 0
  {
  }

  lemma FreeChained(s: Store, a: nat, b: nat)
    requires Chained(s) && b < BUCKET_COUNT && a > 0
    requires forall c: nat :: c < BUCKET_COUNT ==> a !in s.lists[c]
    ensures Chained(Freed(s, a, b))
  {
    var s' := Freed(s, a, b);
    forall c: nat | c < BUCKET_COUNT
      ensures Chain(s'.mem, s'.heads[c], s'.lists[c]) && Distinct(s'.lists[c])
    {
      if c == b {
        ChainPush(s.mem, s.heads[b], s.lists[b], a);
      } else {
        ChainKept(s.mem, s.heads[c], s.lists[c], a, s.heads[b]);
      }
    }
  }

  /** Freeing a block in use, to its own bucket. */
  lemma FreeKeeps(s: Store, a: nat)
    requires Wellformed(s) && a in s.live && s.live[a] < BUCKET_COUNT
    ensures Wellformed(Freed(s, a, s.live[a]))
  {
    forall c: nat | c < BUCKET_COUNT ensures a !in s.lists[c] { LiveNotFree(s.pages, s.lists, s.live, a, c); }
    BlockPositive(s.pages, a, s.live[a]);
    FreeChained(s, a, s.live[a]);
    TiledFree(s.pages, s.lists, s.live, a);
  }

  lemma FreeIn(s: Store, a: nat, b: nat)
    requires Wellformed(s) && a in s.live && s.live[a] == b <= 10
    ensures Wellformed(Freed(s, a, b))
  {
    FreeKeeps(s, a);
  }

  lemma OneLess(rest: Live, blocks: Live, a: nat)
    requires a !in rest
    ensures (rest + blocks) - {a} == rest + (blocks - {a})
  {
  }

  lemma LiveCut(page: nat, b: nat, x: nat, rest: Live, a: nat, x': nat)
    requires b <= 10 && Aligned(x, b) && x < PAGE && a == page + x && x' == x + Size(b)
    requires forall c :: c in rest ==> c !in BlocksFrom(page, x, b)
    ensures a in BlocksFrom(page, x, b) && BlocksFrom(page, x, b)[a] == b && x' <= PAGE && Aligned(x', b)
    ensures (rest + BlocksFrom(page, x, b)) - {a} == rest + BlocksFrom(page, x', b)
    ensures forall c :: c in rest ==> c !in BlocksFrom(page, x', b)
  {
    FirstBlock(page, b, x, a, x');
    OneLess(rest, BlocksFrom(page, x, b), a);
    forall c | c in rest ensures c !in BlocksFrom(page, x', b) { assert c !in BlocksFrom(page, x, b) - {a}; }
  }

  lemma CutOne(s: Store, page: nat, b: nat, x: nat, rest: Live, a: nat, x': nat)
    requires Cutting(s, page, b, x, rest) && x < PAGE && a == page + x && x' == x + Size(b)
    ensures Cutting(Freed(s, a, b), page, b, x', rest)
  {
    LiveCut(page, b, x, rest, a, x');
    FreeIn(s, a, b);
  }

  lemma CutNext(s: Store, page: nat, b: nat, x: nat, a: nat, x': nat)
    requires Shaped(s) && b < BUCKET_COUNT && x < PAGE && a == page + x && x' == x + Size(b)
    ensures Cut(s, page, b, x) == Cut(Freed(s, a, b), page, b, x')
  {
  }

  /** Memory differs only inside `page`. */
  ghost predicate KeptOutside(m: Words, m': Words, page: nat) {
    forall a: nat :: !(page <= a < page + PAGE) ==> Read(m', a) == Read(m, a)
  }

  /** Cutting the rest of a slab. */
  lemma {:induction false} CutRest(s: Store, page: nat, b: nat, x: nat, rest: Live)
    requires Cutting(s, page, b, x, rest)
    ensures var s' := Cut(s, page, b, x);
            Wellformed(s') && s'.live == rest && s'.pages == s.pages && KeptOutside(s.mem, s'.mem, page)
    decreases PAGE - x
  {
    if x < PAGE {
      Grow(b);
      var a, x' := page + x, x + Size(b);
      CutOne(s, page, b, x, rest, a, x');
      CutRest(Freed(s, a, b), page, b, x', rest);
      CutNext(s, page, b, x, a, x');
    } else {
      assert BlocksFrom(page, x, b) == map[];
    }
  }

  /** A new slab: its blocks are free, and nothing else changes. */
  lemma CutKeeps(s: Store, page: nat, b: nat)
    requires Wellformed(s) && b <= 10 && NewPage(s, page)
    ensures var s' := Cut(Marked(s, page, b), page, b, 0);
            && Wellformed(s') && s'.live == s.live && s'.pages == s.pages[page := b] && |s'.lists[b]| > 0
            && KeptOutside(s.mem, s'.mem, page)
  {
    MarkKeeps(s, page, b);
    PageAligned(0, b, b);
    CutRest(Marked(s, page, b), page, b, 0, s.live);
    var s' := Cut(Marked(s, page, b), page, b, 0);
    assert Block(s'.pages, page, b);
    assert page !in s.live;
    assert page in s'.lists[b];
  }

  /** The heap with a block for `size` bytes in its free list, cut from the new slab `page` if there was none. */
  ghost function Ready(s: Store, size: nat, page: nat): (s': Store)
    requires Wellformed(s) && Servable(s, size, page)
    ensures Wellformed(s') && Find(size) <= 10 && |s'.lists[Find(size)]| > 0
  {
    Fits(size);
    var b := Find(size);
    if |s.lists[b]| > 0 then s else
      CutKeeps(s, page, b);
      Cut(Marked(s, page, b), page, b, 0)
  }

  /** A request of `size` bytes is met. */
  ghost function Allocated(s: Store, size: nat, page: nat): Store
    requires Wellformed(s) && Servable(s, size, page)
  {
    Taken(Ready(s, size, page), Find(size))
  }

  /** The block that meets it. */
  ghost function Given(s: Store, size: nat, page: nat): nat
    requires Wellformed(s) && Servable(s, size, page)
  {
    Ready(s, size, page).heads[Find(size)]
  }

  lemma TakeKeeps(s: Store, b: nat)
    requires Wellformed(s) && b < BUCKET_COUNT && |s.lists[b]| > 0
    ensures s.heads[b] == s.lists[b][0] && s.heads[b] !in s.live && Block(s.pages, s.heads[b], b)
    ensures Wellformed(Taken(s, b))
  {
    TiledTake(s.pages, s.lists, s.live, b);
    ChainPop(s.mem, s.heads[b], s.lists[b]);
    assert s.lists[b][0] in s.lists[b];
  }

  /** The word at `w` lies in the block at `a`. */
  predicate WordOf(s: Store, a: nat, w: nat)
    requires a in s.live
  {
    w % 4 == 0 && a <= w && w + 4 <= a + Size(s.live[a])
  }

  /** Programs may write what they like inside the blocks that they hold. */
  lemma UseKeeps(s: Store, a: nat, w: nat, v: nat)
    requires Wellformed(s) && a in s.live && WordOf(s, a, w)
    ensures Wellformed(s.(mem := s.mem[w := v]))
  {
    forall b: nat | b < BUCKET_COUNT ensures Chain(s.mem[w := v], s.heads[b], s.lists[b]) {
      InsideNotFree(s.pages, s.lists, s.live, a, w, b);
      ChainKept(s.mem, s.heads[b], s.lists[b], w, v);
    }
  }

  /** The words of the block at `a`, which is in use, are the same. */
  ghost predicate BlockKept(s: Store, s': Store, a: nat)
    requires a in s.live
  {
    forall w: nat :: WordOf(s, a, w) ==> Read(s'.mem, w) == Read(s.mem, w)
  }

  /** A block in use has no byte in a new page. */
  lemma OtherPage(s: Store, page: nat, c: nat)
    requires Wellformed(s) && NewPage(s, page) && c in s.live
    ensures c + Size(s.live[c]) <= page || page + PAGE <= c
  {
    BlockWithin(s.pages, c, s.live[c]);
    PageStart(c);
    if PageOf(c) < page { PagesDisjoint(PageOf(c), page); } else { PagesDisjoint(page, PageOf(c)); }
  }

  /** Making a block ready leaves all blocks in use as they are. */
  lemma ReadyKeeps(s: Store, size: nat, page: nat)
    requires Wellformed(s) && Servable(s, size, page)
    ensures var s' := Ready(s, size, page);
            && s'.live == s.live && (forall c :: c in s.live ==> BlockKept(s, s', c))
            && s'.pages == if |s.lists[Find(size)]| > 0 then s.pages else s.pages[page := Find(size)]
  {
    Fits(size);
    var b := Find(size);
    if |s.lists[b]| == 0 {
      CutKeeps(s, page, b);
      forall c | c in s.live ensures BlockKept(s, Ready(s, size, page), c) { OtherPage(s, page, c); }
    }
  }

  /** kmalloc hands out a block that holds the request, that nobody else has, and disturbs no other block. */
  lemma AllocKeeps(s: Store, size: nat, page: nat)
    requires Wellformed(s) && Servable(s, size, page)
    ensures var s', a, b := Allocated(s, size, page), Given(s, size, page), Find(size);
            && Wellformed(s') && s'.live == s.live[a := b] && a !in s.live && a > 0
            && size <= Size(b) && (size > 4 ==> Size(b) < 2 * size) && Aligned(a, b)
            && (forall c :: c in s.live ==> a + Size(b) <= c || c + Size(s.live[c]) <= a)
            && (forall c :: c in s.live ==> BlockKept(s, s', c))
            && s'.pages == if |s.lists[b]| > 0 then s.pages else s.pages[page := b]
  {
    Fits(size);
    ReadyKeeps(s, size, page);
    var r, b := Ready(s, size, page), Find(size);
    var a := r.heads[b];
    TakeKeeps(r, b);
    BlockAligned(r.pages, a, b);
    BlockPositive(r.pages, a, b);
    forall c | c in s.live ensures a + Size(b) <= c || c + Size(s.live[c]) <= a {
      BlocksDisjoint(r.pages, a, b, c, s.live[c]);
    }
    forall c | c in s.live ensures BlockKept(s, Taken(r, b), c) { assert BlockKept(s, r, c); }
  }

  /** A free block that is there is taken as it is: the last one freed comes first. */
  lemma AllocTakesHead(s: Store, size: nat, page: nat)
    requires Wellformed(s) && Servable(s, size, page) && Find(size) < |s.lists| && s.lists[Find(size)] != []
    ensures Given(s, size, page) == s.lists[Find(size)][0]
    ensures var s' := Allocated(s, size, page); s'.lists[Find(size)] == s.lists[Find(size)][1..] && s'.mem == s.mem
  {
    TakeKeeps(s, Find(size));
  }

  lemma TakenThenFreed(r: Store, b: nat, a: nat)
    requires Shaped(r) && b < BUCKET_COUNT && |r.lists[b]| > 0 && a == r.heads[b] == r.lists[b][0] && a !in r.live
    ensures var f := Freed(Taken(r, b), a, b);
            && f.heads == r.heads && f.lists == r.lists && f.pages == r.pages && f.live == r.live
            && forall w: nat :: Read(f.mem, w) == Read(r.mem, w)
  {
    assert r.lists[b] == [a] + r.lists[b][1..];
  }

  lemma FreedThenTaken(s: Store, a: nat, b: nat)
    requires Shaped(s) && b < BUCKET_COUNT && a in s.live && s.live[a] == b
    ensures var f := Freed(s, a, b);
            && f.lists[b] != [] && f.heads[b] == a && a !in f.live
            && Taken(f, b) == s.(mem := s.mem[a := s.heads[b]])
  {
    var t := Taken(Freed(s, a, b), b);
    assert t.heads == s.heads && t.lists == s.lists && t.live == s.live;
  }

  /** kfree and then kmalloc in the same bucket: the same block, and only its first word has changed. */
  lemma FreeThenAlloc(s: Store, a: nat, size: nat, page: nat)
    requires Wellformed(s) && a in s.live && s.live[a] == Find(size) && size <= PAGE
    ensures Find(size) < BUCKET_COUNT
    ensures var f := Freed(s, a, Find(size));
            && a !in f.live && Wellformed(f) && Servable(f, size, page) && Given(f, size, page) == a
            && Allocated(f, size, page) == s.(mem := s.mem[a := s.heads[Find(size)]])
  {
    Fits(size);
    var b := Find(size);
    FreeKeeps(s, a);
    FreedThenTaken(s, a, b);
  }

  /** kmalloc and then kfree of the block: the heap is as it was after the slab was cut, if one was. */
  lemma AllocThenFree(s: Store, size: nat, page: nat)
    requires Wellformed(s) && Servable(s, size, page)
    ensures Find(size) < BUCKET_COUNT
    ensures var r, f := Ready(s, size, page), Freed(Allocated(s, size, page), Given(s, size, page), Find(size));
            && f.heads == r.heads && f.lists == r.lists && f.pages == r.pages && f.live == s.live
            && forall w: nat :: Read(f.mem, w) == Read(r.mem, w)
  {
    Fits(size);
    ReadyKeeps(s, size, page);
    var r, b := Ready(s, size, page), Find(size);
    TakeKeeps(r, b);
    TakenThenFreed(r, b, r.heads[b]);
  }

  /** What kmalloc gives: a block that nobody has, apart from all others; the last one freed if there is one. */
  lemma AllocGives(s: Store, size: nat, page: nat)
    requires Wellformed(s) && Servable(s, size, page)
    ensures Find(size) <= 10 && Wellformed(Allocated(s, size, page))
    ensures var s', a := Allocated(s, size, page), Given(s, size, page);
            && a !in s.live && s'.live == s.live[a := Find(size)] && a > 0
            && (forall c :: c in s.live ==> a + size <= c || c + Size(s.live[c]) <= a)
            && (s.lists[Find(size)] != [] ==> a == s.lists[Find(size)][0])
  {
    Fits(size);
    AllocKeeps(s, size, page);
    if s.lists[Find(size)] != [] { AllocTakesHead(s, size, page); }
  }

  // ---------- runs ----------

  datatype Op =
    | Malloc(size: nat, page: nat)
    | Free(addr: nat, bytes: nat)
    | Write(block: nat, word: nat, value: nat)

  /** What a program that keeps to the rules may do next. */
  ghost predicate Enabled(s: Store, op: Op) {
    match op
    case Malloc(size, page) => Servable(s, size, page)
    case Free(a, size) => a in s.live && s.live[a] == Find(size)
    case Write(a, w, v) => a in s.live && WordOf(s, a, w)
  }

  lemma LiveBucket(s: Store, a: nat)
    requires Wellformed(s) && a in s.live
    ensures s.live[a] <= 10
  {
    assert Block(s.pages, a, s.live[a]);
  }

  ghost function Apply(s: Store, op: Op): Store
    requires Wellformed(s) && Enabled(s, op)
  {
    match op
    case Malloc(size, page) => Allocated(s, size, page)
    case Free(a, size) => LiveBucket(s, a); Freed(s, a, Find(size))
    case Write(a, w, v) => s.(mem := s.mem[w := v])
  }

  lemma ApplyKeeps(s: Store, op: Op)
    requires Wellformed(s) && Enabled(s, op)
    ensures Wellformed(Apply(s, op))
  {
    match op
    case Malloc(size, page) => AllocKeeps(s, size, page);
    case Free(a, size) => LiveBucket(s, a); FreeKeeps(s, a);
    case Write(a, w, v) => UseKeeps(s, a, w, v);
  }

  ghost predicate Next(s: Store, op: Op, s': Store) {
    Wellformed(s) ==> Enabled(s, op) && s' == Apply(s, op)
  }

  /** `ss` are the states of a run of the heap with operations `ops`. */
  ghost predicate Run(ss: seq<Store>, ops: seq<Op>) {
    && |ss| == |ops| + 1 && Wellformed(ss[0])
    && forall i {:trigger ops[i]} :: 0 <= i < |ops| ==> Next(ss[i], ops[i], ss[i + 1])
  }

  lemma {:induction false} RunWellformed(ss: seq<Store>, ops: seq<Op>, i: nat)
    requires Run(ss, ops) && i < |ss|
    ensures Wellformed(ss[i])
  {
    if i > 0 {
      RunWellformed(ss, ops, i - 1);
      assert Next(ss[i - 1], ops[i - 1], ss[i]);
      ApplyKeeps(ss[i - 1], ops[i - 1]);
    }
  }

  /** The heap is in order all the time: each block of each slab is in use or in its free list, and not both. */
  lemma RunKeeps(ss: seq<Store>, ops: seq<Op>, i: nat)
    requires Run(ss, ops) && i < |ss|
    ensures Wellformed(ss[i])
    ensures forall p :: p in ss[i].pages ==> p > 0 && IsPage(p) && ss[i].pages[p] <= 10
    ensures forall a :: a in ss[i].live ==> Block(ss[i].pages, a, ss[i].live[a])
    ensures forall a: nat, b: nat :: b < |ss[i].lists| && Block(ss[i].pages, a, b) ==>
              (a in ss[i].live || a in ss[i].lists[b]) && !(a in ss[i].live && a in ss[i].lists[b])
  {
    RunWellformed(ss, ops, i);
    forall a: nat, b: nat | b < |ss[i].lists| && Block(ss[i].pages, a, b) && a in ss[i].live
      ensures a !in ss[i].lists[b]
    {
      LiveNotFree(ss[i].pages, ss[i].lists, ss[i].live, a, b);
    }
  }

  /** The block that a kmalloc gives is in use from then on, one that is freed is not, and a write is read back. */
  lemma ApplyMeans(s: Store, op: Op)
    requires Wellformed(s) && Enabled(s, op)
    ensures var s' := Apply(s, op);
            match op
            case Malloc(size, page) =>
              var a := Given(s, size, page);
              a !in s.live && s'.live == s.live[a := Find(size)] && size <= Size(Find(size))
            case Free(a, _) => a in s.live && s'.live == s.live - {a}
            case Write(a, w, v) =>
              s'.live == s.live && Read(s'.mem, w) == v && forall x: nat :: x != w ==> Read(s'.mem, x) == Read(s.mem, x)
  {
    match op
    case Malloc(size, page) => AllocKeeps(s, size, page);
    case Free(a, size) => LiveBucket(s, a);
    case Write(a, w, v) =>
  }

  /** What an operation leaves alone: the words of a block in use that it neither frees nor writes. */
  lemma ApplyElsewhere(s: Store, op: Op, c: nat, w: nat)
    requires Wellformed(s) && Enabled(s, op) && c in s.live && WordOf(s, c, w)
    requires !(op.Free? && op.addr == c) && !(op.Write? && op.word == w)
    ensures var s' := Apply(s, op); c in s'.live && s'.live[c] == s.live[c] && Read(s'.mem, w) == Read(s.mem, w)
  {
    match op
    case Malloc(size, page) =>
      AllocKeeps(s, size, page);
      assert BlockKept(s, Apply(s, op), c);
    case Free(a, size) =>
      LiveBucket(s, a);
      BlocksDisjoint(s.pages, a, s.live[a], c, s.live[c]);
      BlockWithin(s.pages, a, s.live[a]);
    case Write(a, x, v) =>
  }

  /** A word stays as its owner wrote it until the owner writes it again or frees the block. */
  lemma {:induction false} WordsStay(ss: seq<Store>, ops: seq<Op>, i: nat, j: nat, c: nat, w: nat)
    requires Run(ss, ops) && i <= j < |ss|
    requires c in ss[i].live && w % 4 == 0 && c <= w && w + 4 <= c + Size(ss[i].live[c])
    requires forall k :: i <= k < j ==> !(ops[k].Free? && ops[k].addr == c) && !(ops[k].Write? && ops[k].word == w)
    ensures c in ss[j].live && ss[j].live[c] == ss[i].live[c] && Read(ss[j].mem, w) == Read(ss[i].mem, w)
  {
    if i < j {
      WordsStay(ss, ops, i, j - 1, c, w);
      RunWellformed(ss, ops, j - 1);
      assert Next(ss[j - 1], ops[j - 1], ss[j]);
      ApplyElsewhere(ss[j - 1], ops[j - 1], c, w);
    }
  }

  /** A block is in use until it is freed. */
  lemma {:induction false} BlockStays(ss: seq<Store>, ops: seq<Op>, i: nat, j: nat, c: nat)
    requires Run(ss, ops) && i <= j < |ss| && c in ss[i].live
    requires forall k :: i <= k < j ==> !(ops[k].Free? && ops[k].addr == c)
    ensures c in ss[j].live && ss[j].live[c] == ss[i].live[c]
  {
    if i < j {
      BlockStays(ss, ops, i, j - 1, c);
      RunWellformed(ss, ops, j - 1);
      assert Next(ss[j - 1], ops[j - 1], ss[j]);
      ApplyMeans(ss[j - 1], ops[j - 1]);
    }
  }

  /** What was written is read back until the word is written again or the block freed. */
  lemma WrittenStays(ss: seq<Store>, ops: seq<Op>, i: nat, j: nat, c: nat, w: nat, v: nat)
    requires Run(ss, ops) && i < j < |ss| && ops[i] == Write(c, w, v)
    requires forall k :: i < k < j ==> !(ops[k].Free? && ops[k].addr == c) && !(ops[k].Write? && ops[k].word == w)
    ensures Read(ss[j].mem, w) == v
  {
    RunWellformed(ss, ops, i);
    assert Next(ss[i], ops[i], ss[i + 1]);
    ApplyMeans(ss[i], ops[i]);
    WordsStay(ss, ops, i + 1, j, c, w);
  }

  /** A block that comes into use has no byte in common with one that is in use. */
  lemma NewBeside(s: Store, op: Op, s': Store, a: nat, c: nat)
    requires Wellformed(s) && Enabled(s, op) && s' == Apply(s, op)
    requires a in s.live && c in s'.live && c !in s.live
    ensures a + Size(s.live[a]) <= c || c + Size(s'.live[c]) <= a
  {
    ApplyMeans(s, op);
    if op.Malloc? { AllocKeeps(s, op.size, op.page); }
  }

  /** Two blocks that come into use in a run have no byte in common unless the first is freed in between. */
  lemma GivenApart(ss: seq<Store>, ops: seq<Op>, i: nat, j: nat, a: nat, c: nat)
    requires Run(ss, ops) && i < j < |ops|
    requires a in ss[i + 1].live && a !in ss[i].live && c in ss[j + 1].live && c !in ss[j].live
    ensures || (exists k :: i < k < j && ops[k].Free? && ops[k].addr == a)
            || a + Size(ss[i + 1].live[a]) <= c || c + Size(ss[j + 1].live[c]) <= a
  {
    if forall k :: i < k < j ==> !(ops[k].Free? && ops[k].addr == a) {
      BlockStays(ss, ops, i + 1, j, a);
      RunWellformed(ss, ops, j);
      assert Next(ss[j], ops[j], ss[j + 1]);
      NewBeside(ss[j], ops[j], ss[j + 1], a, c);
    }
  }

  lemma RunNext(ss: seq<Store>, ops: seq<Op>, op: Op)
    requires Run(ss, ops) && Wellformed(ss[|ops|]) && Enabled(ss[|ops|], op)
    ensures Run(ss + [Apply(ss[|ops|], op)], ops + [op])
  {
    var ss', ops' := ss + [Apply(ss[|ops|], op)], ops + [op];
    forall i | 0 <= i < |ops'| ensures Next(ss'[i], ops'[i], ss'[i + 1]) {
      if i < |ops| { assert Next(ss[i], ops[i], ss[i + 1]); }
    }
  }

  // ---------- the code ----------

  lemma HeadOrNone(s: Store, b: nat)
    requires Chained(s) && b < BUCKET_COUNT
    ensures s.heads[b] == 0 <==> |s.lists[b]| == 0
  {
    assert Chain(s.mem, s.heads[b], s.lists[b]);
  }

  class Kheap {
    const bucket: array<nat>       // the heads of the free lists, 0 for none
    var mem: Words
    ghost var lists: seq<seq<nat>> // the free blocks by bucket
    ghost var pages: Pages
    ghost var live: Live

    ghost function State(): Store
      reads this, bucket
    {
      Store(mem, bucket[..], lists, pages, live)
    }

    ghost predicate Valid()
      reads this, bucket
    {
      Wellformed(State())
    }

    constructor (m: Words)
      ensures fresh(bucket)
      ensures Valid() && State() == Store(m, seq(BUCKET_COUNT, _ => 0), seq(BUCKET_COUNT, _ => []), map[], map[])
    {
      bucket := new nat[BUCKET_COUNT](_ => 0);
      mem := m;
      lists := seq(BUCKET_COUNT, _ => []);
      pages := map[];
      live := map[];
    }

    /** kheap_bucket_find. */
    method BucketFind(size: nat) returns (found: nat)
      ensures found == Find(size) && found <= BUCKET_COUNT
    {
      FirstFit(size, 0);
      found := BUCKET_COUNT;
      for i := 0 to BUCKET_COUNT
        invariant found == BUCKET_COUNT && Find(size) == FindFrom(size, i)
      {
        if size <= Size(i) {
          found := i;
          break;
        }
      }
    }

    /** kfree. */
    method Kfree(addr: nat, size: nat)
      requires Shaped(State()) && Find(size) < BUCKET_COUNT
      modifies this, bucket
      ensures State() == Freed(old(State()), addr, Find(size))
      ensures old(Valid()) && addr in old(live) && old(live)[addr] == Find(size) ==> Valid()
      ensures live == old(live) - {addr} && lists[Find(size)] == [addr] + old(lists)[Find(size)]
      ensures Read(mem, addr) == old(bucket[Find(size)])
      ensures forall w: nat :: w != addr ==> Read(mem, w) == Read(old(mem), w)
    {
      if Valid() && addr in live && live[addr] == Find(size) { FreeKeeps(State(), addr); }
      var b := BucketFind(size);
      if b > BUCKET_COUNT { return; }
      mem := mem[addr := bucket[b]];
      bucket[b] := addr;
      lists := lists[b := [addr] + lists[b]];
      live := live - {addr};
    }

    /** The body of that loop, for the block at offset `x`. */
    method FreeNext(b: nat, ghost page: nat, addr: nat, ghost x: nat) returns (ghost x': nat)
      requires Shaped(State()) && b <= 10 && x < PAGE && addr == page + x
      modifies this, bucket
      ensures x' == x + Size(b) && Shaped(State()) && Cut(State(), page, b, x') == Cut(old(State()), page, b, x)
    {
      x' := x + Size(b);
      FindSize(b);
      CutNext(State(), page, b, x, addr, x');
      Kfree(addr, Size(b));
    }

    /** The distance of blocks in words, 1 << bucket. */
    method Step(b: nat) returns (step: nat)
      requires b <= 10
      ensures 4 * step == Size(b) && step > 0
    {
      FourDivides(1, b);
      Grow(b);
      step := Size(b) / 4;
    }

    /** kheap_slab_create; `page` is what memory_alloc and paging_map_kernel give. */
    method SlabCreate(b: nat, page: nat)
      requires Shaped(State()) && b <= 10
      modifies this, bucket
      ensures State() == Cut(Marked(old(State()), page, b), page, b, 0)
    {
      pages := pages[page := b];
      live := live + BlocksFrom(page, 0, b);
      ghost var cut, x := Cut(State(), page, b, 0), 0;
      var step := Step(b);
      var i: nat := 0;
      while i < 1024
        invariant Shaped(State()) && x == 4 * i && Cut(State(), page, b, x) == cut
        decreases 1024 - i
      {
        x := FreeNext(b, page, page + 4 * i, x);
        i := i + step;
      }
    }

    method Take(b: nat) returns (block: nat)
      requires Shaped(State()) && b < BUCKET_COUNT && |lists[b]| > 0
      modifies this, bucket
      ensures block == old(bucket[b]) && State() == Taken(old(State()), b)
    {
      block := bucket[b];
      bucket[b] := Read(mem, block);
      lists := lists[b := lists[b][1..]];
      live := live[block := b];
    }

    /** kmalloc; `page` is the page for a new slab, if one is needed. */
    method Kmalloc(size: nat, page: nat) returns (block: nat)
      requires Valid() && Servable(State(), size, page)
      modifies this, bucket
      ensures Valid()
      ensures block == Given(old(State()), size, page) && State() == Allocated(old(State()), size, page)
      ensures block !in old(live) && live == old(live)[block := Find(size)] && block > 0
      ensures forall c :: c in old(live) ==> block + size <= c || c + Size(old(live)[c]) <= block
      ensures old(lists)[Find(size)] != [] ==> block == old(lists)[Find(size)][0]
    {
      AllocGives(State(), size, page);
      var b := BucketFind(size);
      HeadOrNone(State(), b);
      if bucket[b] == 0 {
        SlabCreate(b, page);
      }
      block := Take(b);
    }
  }

  /** A program that uses the heap: what it has done is a run. */
  class Program {
    const heap: Kheap
    ghost var states: seq<Store>
    ghost var ops: seq<Op>

    ghost predicate Valid()
      reads this, heap, heap.bucket
    {
      heap.Valid() && Run(states, ops) && states[|ops|] == heap.State()
    }

    constructor (m: Words)
      ensures Valid() && fresh(heap) && fresh(heap.bucket) && heap.live == map[] && ops == []
    {
      heap := new Kheap(m);
      new;
      states := [heap.State()];
      ops := [];
    }

    ghost method Record(op: Op)
      requires Run(states, ops) && Wellformed(states[|ops|]) && Enabled(states[|ops|], op)
      requires heap.State() == Apply(states[|ops|], op)
      modifies `states, `ops
      ensures Valid() && ops == old(ops) + [op]
    {
      ApplyKeeps(states[|ops|], op);
      RunNext(states, ops, op);
      states, ops := states + [heap.State()], ops + [op];
    }

    method Malloc(size: nat, page: nat) returns (block: nat)
      requires Valid() && size <= 4096
      requires heap.lists[Find(size)] == [] ==> page > 0 && IsPage(page) && page !in heap.pages
      modifies this, heap, heap.bucket
      ensures Valid() && ops == old(ops) + [Op.Malloc(size, page)]
      ensures block !in old(heap.live) && heap.live == old(heap.live)[block := Find(size)]
    {
      Fits(size);
      block := heap.Kmalloc(size, page);
      Record(Op.Malloc(size, page));
    }

    method Free(addr: nat, size: nat)
      requires Valid() && addr in heap.live && heap.live[addr] == Find(size)
      modifies this, heap, heap.bucket
      ensures Valid() && ops == old(ops) + [Op.Free(addr, size)] && heap.live == old(heap.live) - {addr}
    {
      LiveBucket(heap.State(), addr);
      heap.Kfree(addr, size);
      Record(Op.Free(addr, size));
    }

    /** A store to a word of a block that is in use. */
    method Write(block: nat, word: nat, value: nat)
      requires Valid() && block in heap.live
      requires word % 4 == 0 && block <= word && word + 4 <= block + Size(heap.live[block])
      modifies this, heap
      ensures Valid() && ops == old(ops) + [Op.Write(block, word, value)]
      ensures heap.mem == old(heap.mem)[word := value] && heap.live == old(heap.live)
    {
      heap.mem := heap.mem[word := value];
      Record(Op.Write(block, word, value));
    }
  }
}
