/** The directory that the boot code leaves, and what paging_init makes of it. */
module Boot {
  import opened Wrappers
  import opened Bits
  import opened Mmu
  import opened Contexts
  import opened Edits

  /** The frames below 0xc0000000, which the boot directory maps to themselves. */
  predicate LowFrame(f: bv20) { f >> 18 != 3 }

  /** The boot code's entry `i` below 768: 4 MB, mapped to the same addresses. */
  function LowEntry(i: bv10): bv32 { ((i as bv32) << 22) | 0x83 }

  ghost predicate LowHalf(m: Memory, k: bv20) {
    forall i: bv10 :: i < 768 ==> Word(m, k, i) == LowEntry(i)
  }

  lemma LowIndex(f: bv20)
    requires LowFrame(f)
    ensures DirIndex(Address(f)) < 768 && Address(f) & 0xfff == 0
  {
  }

  lemma LowBase(v: bv32)
    ensures LowEntry(DirIndex(v)) & 0xffc00000 == v & 0xffc00000
    ensures Present(LowEntry(DirIndex(v))) && Big(LowEntry(DirIndex(v)))
  {
  }

  lemma Halved(v: bv32)
    ensures (v & 0xffc00000) | (v & 0x003fffff) == v
  {
  }

  lemma SamePageNumber(v: bv32, i: bv10)
    requires v & 0xfff == 0
    ensures FrameOf(WordAddress(v, i)) == FrameOf(v)
  {
  }

  /** A 4 MB page maps what its base and the low bits of the address say. */
  lemma BigPage(m: Memory, k: bv20, v: bv32, d: bv32)
    requires d == Word(m, k, DirIndex(v)) && Present(d) && Big(d) && d & 0xffc00000 == v & 0xffc00000
    ensures Page(m, k, v) == Some(FrameOf(v))
  {
    Halved(v);
  }

  /** Through the boot directory, word `i` of a low frame is at its physical address. */
  lemma LowWalk(m: Memory, k: bv20, f: bv20, i: bv10)
    requires LowHalf(m, k) && LowFrame(f)
    ensures Walk(m, k, WordAddress(Address(f), i)) == Some(Cell(f, i))
  {
    LowIndex(f);
    AddressFrame(f);
    var v := WordAddress(Address(f), i);
    WordOfPage(Address(f), i);
    SamePageNumber(Address(f), i);
    LowBase(v);
    BigPage(m, k, v, LowEntry(DirIndex(v)));
  }

  // ---------- the tables that paging_init makes ----------

  /** Page `t` of the first 4 MB, mapped global. */
  function FirstEntry(t: bv10): bv32 { ((t as bv32) << 12) | 0x103 }

  /** Word `t` of the table that paging_init makes for directory entry `s`. */
  function Initial(k: bv20, s: bv10, t: bv10): bv32 {
    if s == 768 then FirstEntry(t)
    else if s == 1022 && t == 1023 then Pointer(Address(k))
    else 0
  }

  function RoleOf(k: bv20, s: bv10): Role {
    if s == 1022 then SelfTable(k) else KernelTable(s)
  }

  /** Directory entry `s` has its table. */
  ghost predicate Made(m: Memory, k: bv20, roles: Roles, s: bv10) {
    var e := Word(m, k, s);
    && Plain(e) && Plays(roles, FrameOf(e), RoleOf(k, s))
    && forall t: bv10 :: Word(m, FrameOf(e), t) == Initial(k, s, t)
  }

  /** The first `n` tables are made, and the rest of the boot directory is as it was. */
  ghost predicate Booting(m: Memory, k: bv20, roles: Roles, n: nat) {
    && LowHalf(m, k) && Plays(roles, k, Directory)
    && forall s: bv10 :: 768 <= Number(s) < 768 + n ==> Made(m, k, roles, s)
  }

  /** The table for entry `s` is put into frame `f`. */
  ghost function WithTable(m: Memory, k: bv20, s: bv10, f: bv20): Memory {
    imap x: Cell ::
      if x.frame == f then Initial(k, s, x.slot)
      else if x == Cell(k, s) then Pointer(Address(f))
      else m[x]
  }

  /** The first `n` words of frame `f` map the first 4 MB. */
  ghost function FilledTo(m: Memory, f: bv20, n: nat): Memory {
    imap x: Cell :: if x.frame == f && Number(x.slot) < n then FirstEntry(x.slot) else m[x]
  }

  lemma FilledNext(m: Memory, f: bv20, n: nat)
    requires n < 1024
    ensures FilledTo(m, f, n)[Cell(f, SlotAt(n)) := FirstEntry(SlotAt(n))] == FilledTo(m, f, n + 1)
  {
    var a, b := FilledTo(m, f, n)[Cell(f, SlotAt(n)) := FirstEntry(SlotAt(n))], FilledTo(m, f, n + 1);
    forall x: Cell ensures a[x] == b[x] {
      NextSlot(x.slot, n);
    }
  }

  /** The writes of one round of the loop in paging_init, in order. */
  ghost function Round(m: Memory, k: bv20, i: nat, f: bv20): Memory
    requires i < 255
  {
    var z := ZeroedTo(m[Cell(k, SlotAt(768 + i)) := Pointer(Address(f))], f, 1024);
    if i == 0 then FilledTo(z, f, 1024)
    else if i == 254 then z[Cell(f, 1023) := Pointer(Address(k))]
    else z
  }

  lemma SlotIs(s: bv10, n: nat)
    requires n < 1024 && s as int == n
    ensures SlotAt(n) == s
  {
    NumberIs(s);
    SlotOfNumber(s);
  }

  lemma RoundSlots(i: nat)
    requires i < 255
    ensures SlotAt(768 + i) == 768 <==> i == 0
    ensures SlotAt(768 + i) == 1022 <==> i == 254
  {
    SlotIs(768, 768);
    SlotIs(1022, 1022);
    NumberOfSlot(768 + i);
    NumberOfSlot(768);
    NumberOfSlot(1022);
  }

  lemma TableZeroed(m: Memory, k: bv20, s: bv10, f: bv20, x: Cell)
    ensures ZeroedTo(m[Cell(k, s) := Pointer(Address(f))], f, 1024)[x] ==
            if x.frame == f then 0 else if x == Cell(k, s) then Pointer(Address(f)) else m[x]
  {
    SlotOfNumber(x.slot);
  }

  lemma TableFilled(m: Memory, f: bv20, x: Cell)
    ensures FilledTo(m, f, 1024)[x] == if x.frame == f then FirstEntry(x.slot) else m[x]
  {
    SlotOfNumber(x.slot);
  }

  lemma TableMade(m: Memory, k: bv20, s: bv10, f: bv20, z: Memory, x: Cell)
    requires z == ZeroedTo(m[Cell(k, s) := Pointer(Address(f))], f, 1024) && f != k
    ensures (if s == 768 then FilledTo(z, f, 1024)
             else if s == 1022 then z[Cell(f, 1023) := Pointer(Address(k))]
             else z)[x]
         == WithTable(m, k, s, f)[x]
  {
    TableZeroed(m, k, s, f, x);
    TableFilled(z, f, x);
    if x.frame == f {
      assert WithTable(m, k, s, f)[x] == Initial(k, s, x.slot);
    } else {
      assert WithTable(m, k, s, f)[x] == z[x];
    }
  }

  lemma RoundMakesTable(m: Memory, k: bv20, i: nat, f: bv20)
    requires i < 255 && f != k
    ensures Round(m, k, i, f) == WithTable(m, k, SlotAt(768 + i), f)
  {
    var s, r := SlotAt(768 + i), Round(m, k, i, f);
    var z, w := ZeroedTo(m[Cell(k, s) := Pointer(Address(f))], f, 1024), WithTable(m, k, s, f);
    RoundSlots(i);
    forall x: Cell ensures r[x] == w[x] {
      TableMade(m, k, s, f, z, x);
    }
    SameMemory(r, w);
  }

  lemma MadeNow(m: Memory, k: bv20, roles: Roles, s: bv10, f: bv20)
    requires f != k && Plays(roles, f, RoleOf(k, s))
    ensures Made(WithTable(m, k, s, f), k, roles, s)
  {
    SelfEntry(f);
  }

  lemma MadeKept(m: Memory, k: bv20, roles: Roles, roles': Roles, s: bv10, f: bv20, r: bv10)
    requires Made(m, k, roles, r) && r != s && f != k && !Used(roles, f) && Plays(roles, k, Directory)
    requires Extends(roles, roles')
    ensures Made(WithTable(m, k, s, f), k, roles', r)
  {
    var m' := WithTable(m, k, s, f);
    var e := Word(m, k, r);
    assert Word(m', k, r) == e;
    assert FrameOf(e) != f && FrameOf(e) != k;
    forall t: bv10 ensures Word(m', FrameOf(e), t) == Initial(k, r, t) {
      assert Word(m, FrameOf(e), t) == Initial(k, r, t);
    }
  }

  lemma NotLow(i: bv10, n: nat)
    requires i < 768 && 768 <= n < 1024
    ensures i != SlotAt(n)
  {
    Halves(i);
    NumberOfSlot(n);
  }

  /** One round of the loop in paging_init. */
  lemma BootingNext(m: Memory, k: bv20, roles: Roles, n: nat, f: bv20)
    requires Booting(m, k, roles, n) && n < 255 && !Used(roles, f)
    ensures Booting(WithTable(m, k, SlotAt(768 + n), f), k, roles[Frame(f) := RoleOf(k, SlotAt(768 + n))], n + 1)
  {
    var s := SlotAt(768 + n);
    var m', roles' := WithTable(m, k, s, f), roles[Frame(f) := RoleOf(k, s)];
    forall i: bv10 | i < 768 ensures Word(m', k, i) == LowEntry(i) { NotLow(i, 768 + n); }
    forall r: bv10 | 768 <= Number(r) < 768 + (n + 1) ensures Made(m', k, roles', r) {
      NextSlot(r, 768 + n);
      if r == s { MadeNow(m, k, roles', s, f); } else { MadeKept(m, k, roles, roles', s, f, r); }
    }
  }

  // ---------- the result ----------

  lemma BigEntry(i: bv10)
    ensures Present(LowEntry(i)) && Big(LowEntry(i))
  {
  }

  lemma NotLast(s: bv10)
    requires Number(s) < 1023
    ensures s != 1023
  {
    LastSlot(s);
  }

  /** Writing entry 1023 touches none of the tables. */
  lemma MadeStill(m: Memory, k: bv20, roles: Roles, w: bv32, s: bv10)
    requires Made(m, k, roles, s) && s != 1023 && Plays(roles, k, Directory)
    ensures Made(m[Cell(k, 1023) := w], k, roles, s)
  {
    var m' := m[Cell(k, 1023) := w];
    var e := Word(m, k, s);
    assert FrameOf(e) != k;
    forall t: bv10 ensures Word(m', FrameOf(e), t) == Initial(k, s, t) {
      assert Word(m, FrameOf(e), t) == Initial(k, s, t);
    }
  }

  lemma WindowTable(p: bv32)
    requires InWindow(p)
    ensures (p >> 10) as bv10 != 768 && (p >> 10) as bv10 != 1022
  {
  }

  lemma BootedSelf(m: Memory, k: bv20, roles: Roles)
    requires Word(m, k, 1023) == Pointer(Address(k))
    requires forall s: bv10 :: 768 <= Number(s) < 1023 ==> Made(m, k, roles, s)
    ensures SelfMapped(m, k) && Plays(roles, FrameOf(Word(m, k, 1022)), SelfTable(k))
  {
    NumberIs(1022);
    assert Made(m, k, roles, 1022);
    assert Word(m, FrameOf(Word(m, k, 1022)), 1023) == Initial(k, 1022, 1023);
  }

  lemma BootedWindow(m: Memory, k: bv20, roles: Roles, p: bv32)
    requires InWindow(p)
    requires forall s: bv10 :: 768 <= Number(s) < 1023 ==> Made(m, k, roles, s)
    ensures WindowEntry(m, k, p) == 0
  {
    WindowIndex(p);
    Halves((p >> 10) as bv10);
    WindowTable(p);
    var s := (p >> 10) as bv10;
    assert Made(m, k, roles, s);
    assert Word(m, FrameOf(Word(m, k, s)), (p & 0x3ff) as bv10) == Initial(k, s, (p & 0x3ff) as bv10);
  }

  /** With all tables made and entry 1023 set, the boot directory is a kernel context. */
  lemma Booted(m: Memory, k: bv20, roles: Roles)
    requires Booting(m, k, roles, 255)
    ensures Structure(m[Cell(k, 1023) := Pointer(Address(k))], k, {k}, roles)
    ensures LowHalf(m[Cell(k, 1023) := Pointer(Address(k))], k)
    ensures forall s: bv10 :: 768 <= Number(s) < 1023 ==> Made(m[Cell(k, 1023) := Pointer(Address(k))], k, roles, s)
  {
    var m' := m[Cell(k, 1023) := Pointer(Address(k))];
    forall s: bv10 | 768 <= Number(s) < 1023 ensures Made(m', k, roles, s) {
      NotLast(s);
      MadeStill(m, k, roles, Pointer(Address(k)), s);
    }
    BootedSelf(m', k, roles);
    forall i: bv10 | i < 768 ensures UserEntry(m', k, k, roles, i) {
      assert Word(m, k, i) == LowEntry(i);
      BigEntry(i);
    }
    forall i: bv10 | 768 <= i < 1022 ensures KernelEntry(m', k, k, roles, i) {
      Halves(i);
    }
    forall p: bv32 | InWindow(p) ensures Present(WindowEntry(m', k, p)) || WindowEntry(m', k, p) == 0 {
      BootedWindow(m', k, roles, p);
    }
  }

  /** Only frames with a role have changed. */
  ghost predicate OnlyUsed(m: Memory, m': Memory, roles: Roles) {
    forall x: Cell :: !Used(roles, x.frame) ==> m'[x] == m[x]
  }

  // ---------- the frames that are left ----------

  /** The frames that have got a role are those that are no longer free. */
  ghost predicate Grown(roles: Roles, roles': Roles, fs: set<bv20>, fs': set<bv20>) {
    && Extends(roles, roles') && fs' <= fs
    && forall f: bv20 :: Used(roles', f) <==> Used(roles, f) || (f in fs && f !in fs')
  }

  ghost function LowFrames(fs: set<bv20>): set<bv20> {
    set f | f in fs && LowFrame(f)
  }

  lemma OneLess(fs: set<bv20>, f: bv20)
    ensures |LowFrames(fs - {f})| >= |LowFrames(fs)| - 1
  {
    assert LowFrames(fs - {f}) == LowFrames(fs) - {f};
  }

  lemma SomeLow(fs: set<bv20>)
    requires |LowFrames(fs)| > 0
    ensures exists f: bv20 :: f in fs && LowFrame(f)
  {
    assert LowFrames(fs) != {};
    var f :| f in LowFrames(fs);
  }
}
