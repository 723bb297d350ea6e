/**
 * The shape that kernel/arch/i386/paging.c gives to paging contexts: every directory
 * maps itself, the kernel tables are shared, and no frame is used twice.
 */
module Contexts {
  import opened Wrappers
  import opened Mmu
  import opened Bits

  /** What a frame is used for, if it is part of the paging structures. */
  datatype Role =
    | Directory
    | KernelTable(index: bv10)           // shared, directory entries 768..1021
    | SelfTable(dir: bv20)               // directory entry 1022
    | UserTable(dir: bv20, index: bv10)  // directory entries below 768

  datatype Frame = Frame(number: bv20)

  type Roles = map<Frame, Role>

  /** The frame is part of the paging structures. */
  ghost predicate Used(roles: Roles, f: bv20) { Frame(f) in roles }

  ghost predicate Plays(roles: Roles, f: bv20, r: Role) {
    Frame(f) in roles && roles[Frame(f)] == r
  }

  predicate Plain(e: bv32) { Present(e) && !Big(e) }

  /** An entry for user space: nothing, a table of its own, or, in the boot directory `k`, a 4 MB page. */
  ghost predicate UserEntry(m: Memory, k: bv20, c: bv20, roles: Roles, i: bv10) {
    var e := Word(m, c, i);
    || e == 0
    || (Plain(e) && Plays(roles, FrameOf(e), UserTable(c, i)))
    || (c == k && Present(e) && Big(e))
  }

  /** An entry for kernel space: the table that the kernel context `k` has there. */
  ghost predicate KernelEntry(m: Memory, k: bv20, c: bv20, roles: Roles, i: bv10) {
    var e := Word(m, c, i);
    Plain(e) && e == Word(m, k, i) && Plays(roles, FrameOf(e), KernelTable(i))
  }

  ghost predicate Context(m: Memory, k: bv20, c: bv20, roles: Roles) {
    && Plays(roles, c, Directory)
    && SelfMapped(m, c)
    && Plays(roles, FrameOf(Word(m, c, 1022)), SelfTable(c))
    && (forall i: bv10 :: i < 768 ==> UserEntry(m, k, c, roles, i))
    && (forall i: bv10 :: 768 <= i < 1022 ==> KernelEntry(m, k, c, roles, i))
  }

  // ---------- the window for temporary kernel mappings ----------

  /** The table entry of window page `p`, in the shared kernel tables. */
  function WindowCell(m: Memory, k: bv20, p: bv32): Cell
    requires InWindow(p)
  {
    PteCell(m, k, p)
  }

  function WindowEntry(m: Memory, k: bv20, p: bv32): bv32
    requires InWindow(p)
  {
    m[WindowCell(m, k, p)]
  }

  /** Window entries that are not in use are zero. */
  ghost predicate CleanWindow(m: Memory, k: bv20) {
    forall p: bv32 :: InWindow(p) ==> Present(WindowEntry(m, k, p)) || WindowEntry(m, k, p) == 0
  }

  /** The contexts `cs` with kernel context `k`. */
  ghost predicate Structure(m: Memory, k: bv20, cs: set<bv20>, roles: Roles) {
    && k in cs
    && (forall c: bv20 :: c in cs ==> Context(m, k, c, roles))
    && CleanWindow(m, k)
  }

  // ---------- walks through the structure ----------

  lemma WindowIndex(p: bv32)
    requires InWindow(p)
    ensures 768 <= (p >> 10) as bv10 < 1022
  {
  }

  /** All contexts have the same window. */
  lemma WindowShared(m: Memory, k: bv20, cs: set<bv20>, roles: Roles, c: bv20, p: bv32)
    requires Structure(m, k, cs, roles) && c in cs && InWindow(p)
    ensures PteCell(m, c, p) == WindowCell(m, k, p)
    ensures Plays(roles, WindowCell(m, k, p).frame, KernelTable((p >> 10) as bv10))
    ensures Walk(m, c, TableAddress(p)) == Some(WindowCell(m, k, p))
  {
    WindowIndex(p);
    assert Context(m, k, c, roles) && Context(m, k, k, roles);
    assert KernelEntry(m, k, c, roles, (p >> 10) as bv10);
    TableWindow(m, c, p);
  }

  lemma PageSplit(p: bv32, q: bv32)
    requires p < 0x100000 && q < 0x100000
    requires (p >> 10) as bv10 == (q >> 10) as bv10 && (p & 0x3ff) as bv10 == (q & 0x3ff) as bv10
    ensures p == q
  {
  }

  /** Different window pages have different entries. */
  lemma WindowInjective(m: Memory, k: bv20, cs: set<bv20>, roles: Roles, p: bv32, q: bv32)
    requires Structure(m, k, cs, roles) && InWindow(p) && InWindow(q) && p != q
    ensures WindowCell(m, k, p) != WindowCell(m, k, q)
  {
    WindowShared(m, k, cs, roles, k, p);
    WindowShared(m, k, cs, roles, k, q);
    if (p >> 10) as bv10 == (q >> 10) as bv10 && (p & 0x3ff) as bv10 == (q & 0x3ff) as bv10 {
      PageSplit(p, q);
    }
  }

  lemma ShiftedPage(p: bv32)
    requires p < 0x100000
    ensures (p << 12) & 0xfff == 0 && (p << 12) >> 12 == p
    ensures DirIndex(p << 12) == (p >> 10) as bv10 && TableIndex(p << 12) == (p & 0x3ff) as bv10
  {
  }

  /** Word `i` of a page that is mapped in the window. */
  lemma WindowAccess(m: Memory, k: bv20, cs: set<bv20>, roles: Roles, c: bv20, p: bv32, i: bv10)
    requires Structure(m, k, cs, roles) && c in cs && InWindow(p) && Present(WindowEntry(m, k, p))
    ensures Walk(m, c, WordAddress(p << 12, i)) == Some(Cell(FrameOf(WindowEntry(m, k, p)), i))
  {
    WindowShared(m, k, cs, roles, c, p);
    WindowIndex(p);
    assert Context(m, k, c, roles) && KernelEntry(m, k, c, roles, (p >> 10) as bv10);
    ShiftedPage(p);
    WordOfPage(p << 12, i);
  }

  // ---------- writes that keep the structure ----------

  /** A memory that differs only in frames without a role, in user tables, and in clean window entries. */
  ghost predicate SameShape(m: Memory, m': Memory, roles: Roles) {
    forall x: Cell {:trigger m'[x]} ::
      Used(roles, x.frame) && (roles[Frame(x.frame)].Directory? || roles[Frame(x.frame)].SelfTable?) ==> m'[x] == m[x]
  }

  lemma ShapeKept(m: Memory, m': Memory, k: bv20, cs: set<bv20>, roles: Roles)
    requires Structure(m, k, cs, roles) && SameShape(m, m', roles) && CleanWindow(m', k)
    ensures Structure(m', k, cs, roles)
  {
    assert Context(m, k, k, roles);
    forall c: bv20 | c in cs ensures Context(m', k, c, roles) {
      assert Context(m, k, c, roles);
      forall i: bv10 | i < 768 ensures UserEntry(m', k, c, roles, i) { assert UserEntry(m, k, c, roles, i); }
      forall i: bv10 | 768 <= i < 1022 ensures KernelEntry(m', k, c, roles, i) {
        assert KernelEntry(m, k, c, roles, i);
      }
    }
  }

  /** The window cells stay where they are as long as the directories do. */
  lemma WindowKept(m: Memory, m': Memory, k: bv20, cs: set<bv20>, roles: Roles, p: bv32)
    requires Structure(m, k, cs, roles) && SameShape(m, m', roles) && InWindow(p)
    ensures WindowCell(m', k, p) == WindowCell(m, k, p)
  {
    assert Context(m, k, k, roles);
  }

  /** Writing a window entry. */
  lemma WindowWrite(m: Memory, k: bv20, cs: set<bv20>, roles: Roles, p: bv32, w: bv32)
    requires Structure(m, k, cs, roles) && InWindow(p) && (Present(w) || w == 0)
    ensures var m' := m[WindowCell(m, k, p) := w];
            && SameShape(m, m', roles) && Structure(m', k, cs, roles)
            && (forall q: bv32 :: InWindow(q) ==>
                  WindowCell(m', k, q) == WindowCell(m, k, q)
                  && WindowEntry(m', k, q) == if q == p then w else WindowEntry(m, k, q))
  {
    var m' := m[WindowCell(m, k, p) := w];
    WindowShared(m, k, cs, roles, k, p);
    forall q: bv32 | InWindow(q)
      ensures WindowCell(m', k, q) == WindowCell(m, k, q)
      ensures WindowEntry(m', k, q) == if q == p then w else WindowEntry(m, k, q)
    {
      WindowKept(m, m', k, cs, roles, q);
      if q != p { WindowInjective(m, k, cs, roles, p, q); }
    }
    ShapeKept(m, m', k, cs, roles);
  }

  /** Writing a word outside the directories, self tables and kernel tables. */
  lemma OtherWrite(m: Memory, k: bv20, cs: set<bv20>, roles: Roles, x: Cell, w: bv32)
    requires Structure(m, k, cs, roles) && (!Used(roles, x.frame) || roles[Frame(x.frame)].UserTable?)
    ensures var m' := m[x := w];
            && SameShape(m, m', roles) && Structure(m', k, cs, roles)
            && (forall q: bv32 :: InWindow(q) ==>
                  WindowCell(m', k, q) == WindowCell(m, k, q) && WindowEntry(m', k, q) == WindowEntry(m, k, q))
  {
    var m' := m[x := w];
    forall q: bv32 | InWindow(q)
      ensures WindowCell(m', k, q) == WindowCell(m, k, q) && WindowEntry(m', k, q) == WindowEntry(m, k, q)
    {
      WindowKept(m, m', k, cs, roles, q);
      WindowShared(m, k, cs, roles, k, q);
    }
    ShapeKept(m, m', k, cs, roles);
  }

  /** Roles may be added. */
  ghost predicate Extends(roles: Roles, roles': Roles) {
    forall f: bv20, r: Role :: Plays(roles, f, r) ==> Plays(roles', f, r)
  }

  lemma UserEntryKept(m: Memory, m': Memory, k: bv20, c: bv20, roles: Roles, roles': Roles, i: bv10)
    requires UserEntry(m, k, c, roles, i) && Word(m', c, i) == Word(m, c, i) && Extends(roles, roles')
    ensures UserEntry(m', k, c, roles', i)
  {
  }

  lemma KernelEntryKept(m: Memory, m': Memory, k: bv20, c: bv20, roles: Roles, roles': Roles, i: bv10)
    requires KernelEntry(m, k, c, roles, i) && Extends(roles, roles')
    requires Word(m', c, i) == Word(m, c, i) && Word(m', k, i) == Word(m, k, i)
    ensures KernelEntry(m', k, c, roles', i)
  {
  }

  /** Context `b` after a write to the user half of directory `c`. */
  lemma InstallInContext(m: Memory, k: bv20, roles: Roles, roles': Roles, c: bv20, i: bv10, d: bv32, b: bv20)
    requires Context(m, k, b, roles) && i < 768 && Plays(roles, c, Directory)
    requires Extends(roles, roles') && UserEntry(m[Cell(c, i) := d], k, c, roles', i)
    ensures Context(m[Cell(c, i) := d], k, b, roles')
  {
    var m' := m[Cell(c, i) := d];
    assert Plays(roles', b, Directory) && Plays(roles', FrameOf(Word(m, b, 1022)), SelfTable(b));
    assert FrameOf(Word(m, b, 1022)) != c;
    forall j: bv10 | j < 768 ensures UserEntry(m', k, b, roles', j) {
      if !(b == c && j == i) { UserEntryKept(m, m', k, b, roles, roles', j); }
    }
    forall j: bv10 | 768 <= j < 1022 ensures KernelEntry(m', k, b, roles', j) {
      KernelEntryKept(m, m', k, b, roles, roles', j);
    }
  }

  lemma InstallWindow(m: Memory, k: bv20, cs: set<bv20>, roles: Roles, c: bv20, i: bv10, d: bv32, q: bv32)
    requires Structure(m, k, cs, roles) && c in cs && i < 768 && InWindow(q)
    ensures var m' := m[Cell(c, i) := d];
            WindowCell(m', k, q) == WindowCell(m, k, q) && WindowEntry(m', k, q) == WindowEntry(m, k, q)
  {
    assert Context(m, k, c, roles);
    WindowIndex(q);
    WindowShared(m, k, cs, roles, k, q);
  }

  lemma InstallTable(m: Memory, k: bv20, cs: set<bv20>, roles: Roles, c: bv20, i: bv10, f: bv20, d: bv32)
    requires Structure(m, k, cs, roles) && c in cs && i < 768 && !Used(roles, f) && Plain(d) && FrameOf(d) == f
    ensures var m', roles' := m[Cell(c, i) := d], roles[Frame(f) := UserTable(c, i)];
            && Structure(m', k, cs, roles')
            && (forall q: bv32 :: InWindow(q) ==>
                  WindowCell(m', k, q) == WindowCell(m, k, q) && WindowEntry(m', k, q) == WindowEntry(m, k, q))
  {
    var m', roles' := m[Cell(c, i) := d], roles[Frame(f) := UserTable(c, i)];
    assert Context(m, k, c, roles);
    assert Extends(roles, roles');
    forall q: bv32 | InWindow(q)
      ensures WindowCell(m', k, q) == WindowCell(m, k, q) && WindowEntry(m', k, q) == WindowEntry(m, k, q)
    {
      InstallWindow(m, k, cs, roles, c, i, d, q);
    }
    forall b: bv20 | b in cs ensures Context(m', k, b, roles') {
      assert Context(m, k, b, roles);
      InstallInContext(m, k, roles, roles', c, i, d, b);
    }
  }

  // ---------- a new context ----------

  /** The words of the paging structures are the same. */
  ghost predicate UsedKept(m: Memory, m': Memory, roles: Roles) {
    forall x: Cell {:trigger m'[x]} :: Used(roles, x.frame) ==> m'[x] == m[x]
  }

  lemma ContextKept(m: Memory, m': Memory, k: bv20, c: bv20, roles: Roles, roles': Roles)
    requires Context(m, k, c, roles) && Plays(roles, k, Directory)
    requires UsedKept(m, m', roles) && Extends(roles, roles')
    ensures Context(m', k, c, roles')
  {
    assert Plays(roles', c, Directory) && Plays(roles', FrameOf(Word(m, c, 1022)), SelfTable(c));
    forall i: bv10 | i < 768 ensures UserEntry(m', k, c, roles', i) {
      UserEntryKept(m, m', k, c, roles, roles', i);
    }
    forall i: bv10 | 768 <= i < 1022 ensures KernelEntry(m', k, c, roles', i) {
      KernelEntryKept(m, m', k, c, roles, roles', i);
    }
  }

  lemma WindowUntouched(m: Memory, m': Memory, k: bv20, cs: set<bv20>, roles: Roles, q: bv32)
    requires Structure(m, k, cs, roles) && UsedKept(m, m', roles) && InWindow(q)
    ensures WindowCell(m', k, q) == WindowCell(m, k, q) && WindowEntry(m', k, q) == WindowEntry(m, k, q)
  {
    assert Context(m, k, k, roles);
    WindowShared(m, k, cs, roles, k, q);
  }

  /** Directory `f` and self table `t` have the shape of a new context, copied from context `b`. */
  ghost predicate Fresh(m: Memory, b: bv20, f: bv20, t: bv20) {
    && (forall i: bv10 :: i < 768 ==> Word(m, f, i) == 0)
    && (forall i: bv10 :: 768 <= i < 1022 ==> Word(m, f, i) == Word(m, b, i))
    && Word(m, f, 1022) == Pointer(Address(t))
    && Word(m, f, 1023) == Pointer(Address(f))
    && (forall i: bv10 :: i < 1023 ==> Word(m, t, i) == 0)
    && Word(m, t, 1023) == Pointer(Address(f))
  }

  lemma FreshContext(m: Memory, k: bv20, roles: Roles, b: bv20, f: bv20, t: bv20)
    requires Context(m, k, b, roles) && Fresh(m, b, f, t)
    requires Plays(roles, f, Directory) && Plays(roles, t, SelfTable(f))
    ensures Context(m, k, f, roles)
  {
    SelfEntry(t);
    forall i: bv10 | 768 <= i < 1022 ensures KernelEntry(m, k, f, roles, i) {
      assert KernelEntry(m, k, b, roles, i);
    }
  }

  /** The set of contexts grows by the new directory `f`. */
  lemma Adopt(m: Memory, m': Memory, k: bv20, cs: set<bv20>, roles: Roles, b: bv20, f: bv20, t: bv20)
    requires Structure(m, k, cs, roles) && b in cs && UsedKept(m, m', roles) && Fresh(m', b, f, t)
    requires !Used(roles, f) && !Used(roles, t) && f != t
    ensures Structure(m', k, cs + {f}, roles[Frame(f) := Directory][Frame(t) := SelfTable(f)])
  {
    var roles' := roles[Frame(f) := Directory][Frame(t) := SelfTable(f)];
    assert Context(m, k, k, roles) && Context(m, k, b, roles);
    assert Extends(roles, roles');
    forall c: bv20 | c in cs ensures Context(m', k, c, roles') {
      ContextKept(m, m', k, c, roles, roles');
    }
    FreshContext(m', k, roles', b, f, t);
    forall q: bv32 | InWindow(q) ensures Present(WindowEntry(m', k, q)) || WindowEntry(m', k, q) == 0 {
      WindowUntouched(m, m', k, cs, roles, q);
    }
  }
}
