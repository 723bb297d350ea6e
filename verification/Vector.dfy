/**
 * The growable slot table of kernel/vector.c.  A table stands for a map from all
 * naturals to pointers that is null by default; `At` is that map.
 */
module Vector {
  import opened Wrappers

  // ---------- slot tables as values ----------

  /** The pointer in slot `i`; slots that do not exist yet are null. */
  function At<T>(s: seq<Option<T>>, i: nat): Option<T> {
    if i < |s| then s[i] else None
  }

  function NonNull<T>(s: seq<Option<T>>): nat {
    if s == [] then 0 else NonNull(s[1..]) + if s[0].Some? then 1 else 0
  }

  function Nulls<T>(n: nat): (s: seq<Option<T>>)
    ensures |s| == n && forall i :: 0 <= i < n ==> s[i] == None
  {
    seq(n, _ => None)
  }

  /** The least null slot; the first new one when the table is full. */
  function FirstNull<T>(s: seq<Option<T>>): (i: nat)
    ensures i <= |s| && At(s, i) == None
    ensures forall j :: 0 <= j < i ==> s[j].Some?
  {
    if s == [] || s[0].None? then 0 else FirstNull(s[1..]) + 1
  }

  /** vector_resize: twice as many slots, or four when there were none. */
  function Grown<T>(s: seq<Option<T>>): seq<Option<T>> {
    s + Nulls(if s == [] then 4 else |s|)
  }

  function Added<T>(s: seq<Option<T>>, v: Option<T>): seq<Option<T>> {
    var i := FirstNull(s);
    if i < |s| then s[i := v] else Grown(s)[i := v]
  }

  /** Adding changes the map in its least null place and nowhere else, whether or not the table grew. */
  lemma AddedIsUpdate<T>(s: seq<Option<T>>, v: Option<T>, j: nat)
    ensures At(Added(s, v), j) == if j == FirstNull(s) then v else At(s, j)
  {
  }

  lemma {:induction false} NonNullUpdate<T>(s: seq<Option<T>>, i: nat, v: Option<T>)
    requires i < |s|
    ensures NonNull(s[i := v]) - (if v.Some? then 1 else 0) == NonNull(s) - (if s[i].Some? then 1 else 0)
  {
    if i > 0 {
      assert s[i := v][1..] == s[1..][i - 1 := v];
      NonNullUpdate(s[1..], i - 1, v);
    }
  }

  lemma {:induction false} NonNullConcat<T>(s: seq<Option<T>>, t: seq<Option<T>>)
    ensures NonNull(s + t) == NonNull(s) + NonNull(t)
  {
    if s == [] {
      assert s + t == t;
    } else {
      assert (s + t)[1..] == s[1..] + t;
      NonNullConcat(s[1..], t);
    }
  }

  lemma {:induction false} NonNullNulls<T>(s: seq<Option<T>>)
    requires forall i :: 0 <= i < |s| ==> s[i] == None
    ensures NonNull(s) == 0
  {
    if s != [] { NonNullNulls(s[1..]); }
  }

  /** What vector_add does to the number of non-null slots. */
  lemma NonNullAdded<T>(s: seq<Option<T>>, v: Option<T>)
    ensures NonNull(Added(s, v)) == NonNull(s) + if v.Some? then 1 else 0
  {
    var i := FirstNull(s);
    if i < |s| {
      NonNullUpdate(s, i, v);
    } else {
      var more := Nulls<T>(if s == [] then 4 else |s|);
      NonNullConcat(s, more);
      NonNullNulls(more);
      NonNullUpdate(Grown(s), i, v);
    }
  }

  // ---------- the table itself ----------

  /** After growing there is a null slot, and it is where the new entry belongs. */
  lemma GrownHasRoom<T>(s: seq<Option<T>>, v: Option<T>)
    requires FirstNull(s) == |s|
    ensures FirstNull(Grown(s)) == |s| < |Grown(s)|
    ensures Added(Grown(s), v) == Added(s, v)
  {
    assert forall j :: 0 <= j < |s| ==> Grown(s)[j] == s[j];
    assert Grown(s)[|s|].None?;
  }

  class Table<T> {
    var count: int
    var bounds: int
    var content: array<Option<T>>

    ghost predicate Valid()
      reads this
    {
      bounds == content.Length && (bounds == 0 ==> count == 0)
    }

    function Slots(): seq<Option<T>>
      requires Valid()
      reads this, content
    {
      content[..]
    }

    /** How far `count` is from the number of non-null slots. */
    function Drift(): int
      requires Valid()
      reads this, content
    {
      count - NonNull(Slots())
    }

    constructor (size: nat)
      ensures Valid() && fresh(content)
      ensures Slots() == Nulls(size)
      ensures Drift() == 0
    {
      bounds := size;
      count := 0;
      content := new Option<T>[size](_ => None);
      new;
      NonNullNulls(content[..]);
      assert content[..] == Nulls(size);
    }

    /** vector_resize: the entries move to a larger array without changing their slots. */
    method Resize()
      requires Valid()
      modifies this
      ensures Valid() && fresh(content)
      ensures Slots() == Grown(old(Slots()))
      ensures count == old(count)
    {
      if bounds > 0 {
        var tmp := new Option<T>[bounds * 2](_ => None);
        for i := 0 to bounds
          invariant tmp[..] == content[..i] + Nulls(bounds * 2 - i)
          modifies tmp
        {
          tmp[i] := content[i];
        }
        bounds := bounds * 2;
        content := tmp;
      } else {
        content := new Option<T>[4](_ => None);
        bounds := 4;
        count := 0;
        assert content[..] == Nulls(4);
      }
    }

    /**
     * vector_add.  It looks for the first null slot and grows the table when there is
     * none; the measure says that it grows at most once.
     */
    method Add(value: Option<T>) returns (index: nat)
      requires Valid()
      modifies this, content
      ensures Valid()
      ensures content == old(content) || fresh(content)
      ensures index == FirstNull(old(Slots()))
      ensures Slots() == Added(old(Slots()), value)
      ensures Drift() == old(Drift()) + if value.None? then 1 else 0
      decreases if FirstNull(Slots()) < |Slots()| then 0 else 1
    {
      NonNullAdded(Slots(), value);
      for i := 0 to bounds
        invariant forall j :: 0 <= j < i ==> content[j].Some?
      {
        if content[i].None? {
          assert FirstNull(Slots()) == i;
          content[i] := value;
          count := count + 1;
          return i;
        }
      }
      ghost var s := Slots();
      Resize();
      GrownHasRoom(s, value);
      NonNullConcat(s, Nulls(if s == [] then 4 else |s|));
      NonNullNulls<T>(Nulls(if s == [] then 4 else |s|));
      index := Add(value);
    }

    /** vector_set.  An index beyond the table is ignored; the slot just past it is not an array element. */
    method Set(index: nat, value: Option<T>)
      requires Valid() && index != bounds
      modifies this, content
      ensures Valid() && content == old(content)
      ensures Slots() == if index < old(bounds) then old(Slots())[index := value] else old(Slots())
      ensures Drift() == old(Drift())
    {
      if index > bounds { return; }
      NonNullUpdate(Slots(), index, value);
      if content[index].Some? && value.None? {
        count := count - 1;
      } else if content[index].None? && value.Some? {
        count := count + 1;
      }
      content[index] := value;
    }

    /** vector_get, the lookup in the map. */
    method Get(index: nat) returns (value: Option<T>)
      requires Valid() && index != bounds
      ensures value == At(Slots(), index)
    {
      if index > bounds { return None; }
      value := content[index];
    }

    /** vector_clear. */
    method Clear()
      requires Valid()
      modifies this, content
      ensures Valid() && content == old(content)
      ensures Slots() == Nulls(old(bounds))
      ensures Drift() == 0
    {
      if bounds <= 0 { return; }
      for i := 0 to bounds
        invariant content[..] == Nulls(i) + old(content[i..])
        invariant content == old(content) && bounds == old(bounds)
      {
        content[i] := None;
      }
      count := 0;
      NonNullNulls(content[..]);
    }

    /** vector_free: an empty table, ready for vector_init. */
    method Free()
      requires Valid()
      modifies this
      ensures content == old(content) || fresh(content)
      ensures Valid() && Slots() == [] && Drift() == 0
    {
      if bounds <= 0 { return; }
      bounds := 0;
      count := 0;
      content := new Option<T>[0];
    }
  }
}
