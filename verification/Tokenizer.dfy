/** strchr and strtok_r of kernel/string.c, on bytes in memory. */
module Tokenizer {
  import opened Wrappers

  /** The bytes of a string come before its first NUL. */
  function Contents(s: Bytes): Bytes {
    if s == [] || s[0] == 0 then [] else [s[0]] + Contents(s[1..])
  }

  lemma {:induction false} ContentsPrefix(s: Bytes, n: nat)
    requires n < |s| && s[n] == 0 && forall k :: 0 <= k < n ==> s[k] != 0
    ensures Contents(s) == s[..n]
  {
    if n > 0 {
      ContentsPrefix(s[1..], n - 1);
      assert s[..n] == [s[0]] + s[1..][..n - 1];
    }
  }

  lemma {:induction false} InContents(s: Bytes, i: nat)
    requires i < |s| && forall k :: 0 <= k <= i ==> s[k] != 0
    ensures s[i] in Contents(s)
  {
    if i > 0 { InContents(s[1..], i - 1); }
  }

  /** strchr: the first place of `c`, where the end of the string is a place of NUL. */
  method Strchr(s: Bytes, c: bv8) returns (place: Option<nat>)
    requires 0 in s
    ensures place == None <==> c != 0 && c !in Contents(s)
    ensures place.Some? ==> place.value < |s| && s[place.value] == c
                            && forall k :: 0 <= k < place.value ==> s[k] != c && s[k] != 0
  {
    var i := 0;
    ghost var end :| 0 <= end < |s| && s[end] == 0;
    while true
      invariant i <= end && forall k :: 0 <= k < i ==> s[k] != c && s[k] != 0
      decreases end - i
    {
      if s[i] == c {
        if c != 0 { InContents(s, i); }
        return Some(i);
      } else if s[i] == 0 {
        ContentsPrefix(s, i);
        return None;
      } else {
        i := i + 1;
      }
    }
  }

  // ---------- one call ----------

  /** The first place from `p` on that holds no byte of `d`; the end of the string is one. */
  function SkipFrom(m: Bytes, p: nat, d: Bytes): nat
    decreases |m| - p
  {
    if p < |m| && m[p] != 0 && m[p] in d then SkipFrom(m, p + 1, d) else p
  }

  /** The first place from `p` on that holds a byte of `d`, or the end of the string. */
  function StopFrom(m: Bytes, p: nat, d: Bytes): nat
    decreases |m| - p
  {
    if p < |m| && m[p] != 0 && m[p] !in d then StopFrom(m, p + 1, d) else p
  }

  /** Memory, the token's place, and where the next call begins. */
  datatype Outcome = Outcome(m: Bytes, token: Option<nat>, save: nat)

  /** A call of strtok_r that begins at `p`, with the bytes `d` as delimiters. */
  function Call(m: Bytes, p: nat, d: Bytes): Outcome {
    var s := SkipFrom(m, p, d);
    if s >= |m| || m[s] == 0 then Outcome(m, None, s) else
      var e := StopFrom(m, s, d);
      if e < |m| && m[e] != 0 then Outcome(m[e := 0], Some(s), e + 1) else Outcome(m, Some(s), e)
  }

  /** A string begins at `p` and ends at `z`. */
  predicate StringAt(m: Bytes, p: nat, z: nat) {
    p <= z < |m| && m[z] == 0 && forall k :: p <= k < z ==> m[k] != 0
  }

  lemma {:induction false} SkipBounds(m: Bytes, p: nat, z: nat, d: Bytes)
    requires StringAt(m, p, z)
    ensures var s := SkipFrom(m, p, d);
            p <= s <= z && (forall k :: p <= k < s ==> m[k] in d) && (s < z ==> m[s] !in d)
    decreases z - p
  {
    if p < z && m[p] in d { SkipBounds(m, p + 1, z, d); }
  }

  lemma {:induction false} StopBounds(m: Bytes, p: nat, z: nat, d: Bytes)
    requires StringAt(m, p, z)
    ensures var e := StopFrom(m, p, d);
            p <= e <= z && (forall k :: p <= k < e ==> m[k] !in d) && (e < z ==> m[e] in d)
    decreases z - p
  {
    if p < z && m[p] !in d { StopBounds(m, p + 1, z, d); }
  }

  /** The first loop of strtok_r. */
  method SkipDelimiters(a: array<bv8>, str: nat, delimiters: Bytes, ghost z: nat) returns (p: nat)
    requires 0 in delimiters && StringAt(a[..], str, z)
    ensures str <= p == SkipFrom(a[..], str, Contents(delimiters)) <= z
  {
    ghost var d := Contents(delimiters);
    p := str;
    SkipBounds(a[..], p, z, d);
    while true
      invariant str <= p <= SkipFrom(a[..], str, d) == SkipFrom(a[..], p, d) <= z
      decreases z - p
    {
      var at := Strchr(delimiters, a[p]);
      if at == None || a[p] == 0 { return; }
      p := p + 1;
    }
  }

  /** The second loop of strtok_r. */
  method FindDelimiter(a: array<bv8>, str: nat, delimiters: Bytes, ghost z: nat) returns (p: nat)
    requires 0 in delimiters && StringAt(a[..], str, z)
    ensures str <= p == StopFrom(a[..], str, Contents(delimiters)) <= z
  {
    ghost var d := Contents(delimiters);
    p := str;
    StopBounds(a[..], p, z, d);
    while true
      invariant str <= p <= StopFrom(a[..], str, d) == StopFrom(a[..], p, d) <= z
      decreases z - p
    {
      var at := Strchr(delimiters, a[p]);
      if at.Some? { return; }
      p := p + 1;
    }
  }

  /** strtok_r on the string at `str`, or at `save` if it is null. */
  method StrtokR(a: array<bv8>, str: Option<nat>, delimiters: Bytes, save: nat, ghost z: nat)
    returns (out: Option<nat>, save': nat)
    requires 0 in delimiters && z < a.Length && a[z] == 0
    requires var p := if str.Some? then str.value else save; p <= z && forall k :: p <= k < z ==> a[k] != 0
    modifies a
    ensures var p := if str.Some? then str.value else save;
            Outcome(a[..], out, save') == Call(old(a[..]), p, Contents(delimiters))
  {
    var p := if str.Some? then str.value else save;
    p := SkipDelimiters(a, p, delimiters, z);
    if a[p] == 0 { return None, p; }
    var token := p;
    p := FindDelimiter(a, p, delimiters, z);
    if a[p] != 0 {
      a[p] := 0;
      return Some(token), p + 1;
    } else {
      return Some(token), p;
    }
  }

  // ---------- repeated calls ----------

  datatype Token = Token(start: nat, end: nat)

  /** The tokens that repeated calls find, and the memory and save pointer that they leave. */
  datatype Tokens = Tokens(found: seq<Token>, m: Bytes, save: nat)

  lemma CallBounds(m: Bytes, p: nat, z: nat, d: Bytes)
    requires StringAt(m, p, z)
    ensures var c := Call(m, p, d);
            c.token.Some? ==> p < c.save <= z && StringAt(c.m, c.save, z)
  {
    SkipBounds(m, p, z, d);
    var s := SkipFrom(m, p, d);
    if m[s] != 0 { StopBounds(m, s, z, d); }
  }

  /** Calls from `p` on, until one returns null. */
  function AllCalls(m: Bytes, p: nat, z: nat, d: Bytes): Tokens
    requires StringAt(m, p, z)
    decreases z - p
  {
    CallBounds(m, p, z, d);
    var c := Call(m, p, d);
    if c.token == None then Tokens([], c.m, c.save) else
      var rest := AllCalls(c.m, c.save, z, d);
      rest.(found := [Token(c.token.value, StopFrom(m, c.token.value, d))] + rest.found)
  }

  /** A maximal run of bytes that are no delimiters, in the string from `p` to `z`. */
  predicate IsToken(m: Bytes, p: nat, z: nat, d: Bytes, t: Token)
    requires z <= |m|
  {
    && p <= t.start < t.end <= z
    && (forall k :: t.start <= k < t.end ==> m[k] !in d)
    && (t.start == p || m[t.start - 1] in d)
    && (t.end == z || m[t.end] in d)
  }

  /** Memory with a NUL behind every token that does not end the string. */
  predicate Cut(m: Bytes, m': Bytes, z: nat, found: seq<Token>) {
    && |m'| == |m|
    && forall k :: 0 <= k < |m| ==> m'[k] == if k < z && (exists t :: t in found && t.end == k) then 0 else m[k]
  }

  /** Nothing but delimiters: no token. */
  lemma NoToken(m: Bytes, p: nat, z: nat, d: Bytes, t: Token)
    requires p <= z <= |m| && forall k :: p <= k < z ==> m[k] in d
    ensures !IsToken(m, p, z, d, t)
  {
    assert p <= t.start < z ==> m[t.start] in d;
  }

  /** The first token, which ends the string, and no other. */
  lemma OnlyToken(m: Bytes, p: nat, z: nat, d: Bytes, s: nat, t: Token)
    requires p <= s < z <= |m|
    requires (forall k :: p <= k < s ==> m[k] in d) && (forall k :: s <= k < z ==> m[k] !in d)
    ensures IsToken(m, p, z, d, t) <==> t == Token(s, z)
  {
    assert p <= t.start < s ==> m[t.start] in d;
    assert s < t.start < z ==> m[t.start - 1] !in d;
    assert s <= t.end < z ==> m[t.end] !in d;
  }

  /** The first token, from `s` to `e`, and those behind it. */
  lemma FirstToken(m: Bytes, p: nat, z: nat, d: Bytes, s: nat, e: nat, t: Token)
    requires p <= s < e < z <= |m| && m[e] in d
    requires (forall k :: p <= k < s ==> m[k] in d) && (forall k :: s <= k < e ==> m[k] !in d)
    ensures IsToken(m, p, z, d, t) <==> t == Token(s, e) || IsToken(m[e := 0], e + 1, z, d, t)
  {
    var m' := m[e := 0];
    assert p <= t.start < s ==> m[t.start] in d;
    assert s < t.start <= e ==> m[t.start - 1] !in d;
    assert s <= t.end < e ==> m[t.end] !in d;
    if IsToken(m, p, z, d, t) && t.start > e {
      assert forall k :: t.start <= k < t.end ==> m'[k] == m[k];
    }
    if IsToken(m', e + 1, z, d, t) {
      assert forall k :: t.start <= k < t.end ==> m'[k] == m[k];
    }
  }

  /** A token before the others. */
  lemma CutFirst(m: Bytes, m': Bytes, z: nat, e: nat, t: Token, rest: seq<Token>)
    requires z < |m| && e < z && t.end == e && Cut(m[e := 0], m', z, rest)
    ensures Cut(m, m', z, [t] + rest)
  {
    var found := [t] + rest;
    forall k | 0 <= k < |m|
      ensures m'[k] == if k < z && (exists u :: u in found && u.end == k) then 0 else m[k]
    {
      if k == e {
        assert t in found;
      } else {
        assert (exists u :: u in found && u.end == k) <==> (exists u :: u in rest && u.end == k) by {
          assert forall u :: u in found <==> u == t || u in rest;
        }
      }
    }
  }

  /** The tokens in order, and every token there is. */
  ghost predicate Finds(m: Bytes, p: nat, z: nat, d: Bytes, w: Tokens)
    requires z < |m|
  {
    && (forall t: Token :: t in w.found <==> IsToken(m, p, z, d, t))
    && (forall i, j :: 0 <= i < j < |w.found| ==> w.found[i].end < w.found[j].start)
  }

  lemma FindsFirst(m: Bytes, p: nat, z: nat, d: Bytes, s: nat, e: nat, rest: Tokens)
    requires p <= s < e < z < |m| && m[e] in d
    requires (forall k :: p <= k < s ==> m[k] in d) && (forall k :: s <= k < e ==> m[k] !in d)
    requires Finds(m[e := 0], e + 1, z, d, rest)
    ensures Finds(m, p, z, d, rest.(found := [Token(s, e)] + rest.found))
  {
    var found := [Token(s, e)] + rest.found;
    forall t: Token ensures t in found <==> IsToken(m, p, z, d, t) {
      FirstToken(m, p, z, d, s, e, t);
      assert t in found <==> t == Token(s, e) || t in rest.found;
    }
    forall i, j | 0 <= i < j < |found| ensures found[i].end < found[j].start {
      assert found[j] == rest.found[j - 1] && found[j] in rest.found;
      assert IsToken(m[e := 0], e + 1, z, d, found[j]);
      if i > 0 { assert found[i] == rest.found[i - 1]; }
    }
  }

  lemma FindsNone(m: Bytes, p: nat, z: nat, d: Bytes)
    requires StringAt(m, p, z) && forall k :: p <= k < z ==> m[k] in d
    ensures Finds(m, p, z, d, Tokens([], m, z)) && Cut(m, m, z, []) && Call(m, z, d) == Outcome(m, None, z)
  {
    forall t: Token ensures !IsToken(m, p, z, d, t) { NoToken(m, p, z, d, t); }
  }

  lemma FindsLast(m: Bytes, p: nat, z: nat, d: Bytes, s: nat)
    requires StringAt(m, p, z) && p <= s < z
    requires (forall k :: p <= k < s ==> m[k] in d) && (forall k :: s <= k < z ==> m[k] !in d)
    ensures Finds(m, p, z, d, Tokens([Token(s, z)], m, z)) && Cut(m, m, z, [Token(s, z)])
    ensures AllCalls(m, z, z, d) == Tokens([], m, z)
  {
    forall t: Token ensures IsToken(m, p, z, d, t) <==> t == Token(s, z) { OnlyToken(m, p, z, d, s, t); }
  }

  lemma CallsNext(m: Bytes, p: nat, z: nat, d: Bytes, s: nat, e: nat)
    requires StringAt(m, p, z) && s == SkipFrom(m, p, d) && e == StopFrom(m, s, d)
    ensures var c := Call(m, p, d);
            c.token.Some? ==>
              && c.token.value == s && StringAt(c.m, c.save, z)
              && var rest := AllCalls(c.m, c.save, z, d);
                 AllCalls(m, p, z, d) == Tokens([Token(s, e)] + rest.found, rest.m, rest.save)
  {
    CallBounds(m, p, z, d);
  }

  /**
   * One call, whatever the delimiters of the calls before were: it finds the first maximal run of bytes that are no
   * delimiters, ends it with a NUL and saves the place behind; without such a run it returns null.
   */
  lemma OneCall(m: Bytes, p: nat, z: nat, d: Bytes) returns (e: nat)
    requires p <= z < |m| && m[z] == 0 && forall k :: p <= k < z ==> m[k] != 0
    ensures var c := Call(m, p, d);
            if c.token == None then c == Outcome(m, None, z) && forall t: Token :: !IsToken(m, p, z, d, t)
            else
              && e <= z && IsToken(m, p, z, d, Token(c.token.value, e))
              && (forall t: Token :: IsToken(m, p, z, d, t) ==> t == Token(c.token.value, e) || t.start > e)
              && c.m == (if e < z then m[e := 0] else m) && c.save == (if e < z then e + 1 else z)
              && StringAt(c.m, c.save, z)
  {
    e := z;
    CallBounds(m, p, z, d);
    SkipBounds(m, p, z, d);
    var c, s := Call(m, p, d), SkipFrom(m, p, d);
    if c.token == None {
      FindsNone(m, p, z, d);
    } else {
      StopBounds(m, s, z, d);
      e := StopFrom(m, s, d);
      if e < z {
        forall t: Token ensures IsToken(m, p, z, d, t) <==> t == Token(s, e) || IsToken(m[e := 0], e + 1, z, d, t) {
          FirstToken(m, p, z, d, s, e, t);
        }
      } else {
        FindsLast(m, p, z, d, s);
      }
    }
  }

  /** The tokens from `p` on are the first one and those that the later calls find. */
  lemma FindsMore(m: Bytes, p: nat, z: nat, d: Bytes, s: nat, e: nat, c: Outcome, rest: Tokens)
    requires StringAt(m, p, z) && s == SkipFrom(m, p, d) && e == StopFrom(m, s, d)
    requires c == Call(m, p, d) && c.token.Some? && StringAt(c.m, c.save, z)
    requires Finds(c.m, c.save, z, d, rest) && Cut(c.m, rest.m, z, rest.found) && rest == AllCalls(c.m, c.save, z, d)
    ensures var w := Tokens([Token(s, e)] + rest.found, rest.m, rest.save);
            Finds(m, p, z, d, w) && Cut(m, w.m, z, w.found)
  {
    SkipBounds(m, p, z, d);
    StopBounds(m, s, z, d);
    if e < z {
      FindsFirst(m, p, z, d, s, e, rest);
      CutFirst(m, rest.m, z, e, Token(s, e), rest.found);
    } else {
      FindsLast(m, p, z, d, s);
    }
  }

  /**
   * Repeated calls of strtok_r find the maximal runs of bytes that are no delimiters, all of them and in order;
   * they write nothing but NULs behind tokens, and from then on they return null.
   */
  lemma {:induction false} FindsTokens(m: Bytes, p: nat, z: nat, d: Bytes)
    requires p <= z < |m| && m[z] == 0 && forall k :: p <= k < z ==> m[k] != 0
    ensures StringAt(m, p, z)
    ensures var w := AllCalls(m, p, z, d);
            && Finds(m, p, z, d, w) && Cut(m, w.m, z, w.found)
            && Call(w.m, w.save, d) == Outcome(w.m, None, w.save)
    decreases z - p
  {
    CallBounds(m, p, z, d);
    SkipBounds(m, p, z, d);
    var c, s := Call(m, p, d), SkipFrom(m, p, d);
    if c.token == None {
      FindsNone(m, p, z, d);
    } else {
      var e := StopFrom(m, s, d);
      CallsNext(m, p, z, d, s, e);
      FindsTokens(c.m, c.save, z, d);
      FindsMore(m, p, z, d, s, e, c, AllCalls(c.m, c.save, z, d));
    }
  }
}
