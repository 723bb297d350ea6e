/**
 * The copying of messages in kernel/ipc.c: read_message gathers the bytes of a message
 * into a kernel buffer, write_message scatters the buffer over the receiver's segments.
 */
module Messages {
  import opened Wrappers
  import Rendezvous

  /** A piece of memory, by address and length: an iovec, or the data of a linear message. */
  datatype Segment = Segment(base: nat, len: nat)

  /** msg_buffer, with the flags MSG_LIN and MSG_VEC. */
  datatype Message = Linear(data: Segment) | Vector(parts: seq<Segment>)

  /** A linear message is a message of one piece. */
  function Parts(msg: Message): seq<Segment> {
    match msg
    case Linear(data) => [data]
    case Vector(parts) => parts
  }

  const WORD: nat := 0x1_0000_0000

  /** The bytes that the segments have room for. */
  function Total(parts: seq<Segment>): nat {
    if parts == [] then 0 else parts[0].len + Total(parts[1..])
  }

  predicate Inside(s: Segment, size: nat) { s.base + s.len <= size }

  predicate AllInside(parts: seq<Segment>, size: nat) {
    forall i :: 0 <= i < |parts| ==> Inside(parts[i], size)
  }

  predicate Apart(s: Segment, t: Segment) {
    s.len == 0 || t.len == 0 || s.base + s.len <= t.base || t.base + t.len <= s.base
  }

  /** No two of the segments overlap. */
  predicate Separate(parts: seq<Segment>) {
    forall i, j :: 0 <= i < j < |parts| ==> Apart(parts[i], parts[j])
  }

  predicate AllApart(parts: seq<Segment>, t: Segment) {
    forall i :: 0 <= i < |parts| ==> Apart(parts[i], t)
  }

  function Piece(m: Bytes, s: Segment): Bytes
    requires Inside(s, |m|)
  {
    m[s.base..s.base + s.len]
  }

  /** The bytes in the segments, one after the other. */
  function Gathered(m: Bytes, parts: seq<Segment>): (data: Bytes)
    requires AllInside(parts, |m|)
    ensures |data| == Total(parts)
  {
    if parts == [] then [] else Piece(m, parts[0]) + Gathered(m, parts[1..])
  }

  /** Memory with `data` written at address `a`. */
  function Put(m: Bytes, a: nat, data: Bytes): (m': Bytes)
    requires a + |data| <= |m|
    ensures |m'| == |m|
  {
    m[..a] + data + m[a + |data|..]
  }

  function Min(a: nat, b: nat): nat { if a < b then a else b }

  /** Memory with `data` spread over the segments, as far as they reach. */
  function Scattered(m: Bytes, parts: seq<Segment>, data: Bytes): (m': Bytes)
    requires AllInside(parts, |m|)
    ensures |m'| == |m|
    decreases |parts|
  {
    if parts == [] || data == [] then m else
      var len := Min(parts[0].len, |data|);
      Scattered(Put(m, parts[0].base, data[..len]), parts[1..], data[len..])
  }

  // ---------- what scattering does ----------

  lemma PutPiece(m: Bytes, a: nat, data: Bytes, s: Segment)
    requires a + |data| <= |m| && Inside(s, |m|) && Apart(Segment(a, |data|), s)
    ensures Piece(Put(m, a, data), s) == Piece(m, s)
  {
    assert forall k :: s.base <= k < s.base + s.len ==> Put(m, a, data)[k] == m[k];
  }

  lemma {:induction false} PutGathered(m: Bytes, a: nat, data: Bytes, parts: seq<Segment>)
    requires a + |data| <= |m| && AllInside(parts, |m|)
    requires forall i :: 0 <= i < |parts| ==> Apart(Segment(a, |data|), parts[i])
    ensures Gathered(Put(m, a, data), parts) == Gathered(m, parts)
  {
    if parts != [] {
      PutPiece(m, a, data, parts[0]);
      PutGathered(m, a, data, parts[1..]);
    }
  }

  /** Memory outside the segments stays as it is. */
  lemma {:induction false} ScatteredElsewhere(m: Bytes, parts: seq<Segment>, data: Bytes, s: Segment)
    requires AllInside(parts, |m|) && Inside(s, |m|) && AllApart(parts, s)
    ensures Piece(Scattered(m, parts, data), s) == Piece(m, s)
    decreases |parts|
  {
    if !(parts == [] || data == []) {
      var len := Min(parts[0].len, |data|);
      PutPiece(m, parts[0].base, data[..len], s);
      ScatteredElsewhere(Put(m, parts[0].base, data[..len]), parts[1..], data[len..], s);
    }
  }

  /** What the segments hold afterwards: the data first, and behind it what they held before. */
  function Overlaid(before: Bytes, data: Bytes): Bytes {
    var k := Min(|before|, |data|);
    data[..k] + before[k..]
  }

  /** The receiver's segments hold what the message machine says it gets, and behind it what they held before. */
  lemma OverlaidBegins(before: Bytes, data: Bytes)
    ensures var got := Rendezvous.Truncate(data, |before|);
            && got <= data && |got| == (if |data| <= |before| then |data| else |before|)
            && Overlaid(before, data) == got + before[|got|..]
  {
    if |data| <= |before| { assert data[..|data|] == data; }
  }

  lemma PutHead(m: Bytes, s: Segment, data: Bytes)
    requires Inside(s, |m|)
    ensures var len := Min(s.len, |data|); Piece(Put(m, s.base, data[..len]), s) == Overlaid(Piece(m, s), data)
  {
  }

  lemma OverlaidSplit(x: Bytes, y: Bytes, data: Bytes)
    ensures var len := Min(|x|, |data|); Overlaid(x, data) + Overlaid(y, data[len..]) == Overlaid(x + y, data)
  {
  }

  lemma {:induction false} ScatteredBytes(m: Bytes, parts: seq<Segment>, data: Bytes)
    requires AllInside(parts, |m|) && Separate(parts)
    ensures Gathered(Scattered(m, parts, data), parts) == Overlaid(Gathered(m, parts), data)
    decreases |parts|
  {
    if parts == [] || data == [] {
    } else {
      var s, rest := parts[0], parts[1..];
      var len := Min(s.len, |data|);
      var m1 := Put(m, s.base, data[..len]);
      PutHead(m, s, data);
      forall i | 0 <= i < |rest| ensures Apart(Segment(s.base, len), rest[i]) { assert rest[i] == parts[i + 1]; }
      PutGathered(m, s.base, data[..len], rest);
      ScatteredBytes(m1, rest, data[len..]);
      ScatteredElsewhere(m1, rest, data[len..], s);
      OverlaidSplit(Piece(m, s), Gathered(m, rest), data);
    }
  }

  // ---------- the loops ----------

  lemma PutNone(m: Bytes, a: nat)
    requires a <= |m|
    ensures Put(m, a, []) == m
  {
  }

  lemma PutTwo(m: Bytes, a: nat, x: Bytes, y: Bytes)
    requires a + |x| + |y| <= |m|
    ensures Put(Put(m, a, x), a + |x|, y) == Put(m, a, x + y)
  {
  }

  lemma {:induction false} GatheredNext(m: Bytes, parts: seq<Segment>, i: nat)
    requires AllInside(parts, |m|) && i < |parts|
    ensures Gathered(m, parts[..i + 1]) == Gathered(m, parts[..i]) + Piece(m, parts[i])
  {
    if i == 0 {
      assert parts[..1][1..] == [] && parts[..1][0] == parts[0];
    } else {
      GatheredNext(m, parts[1..], i - 1);
      assert parts[..i + 1][1..] == parts[1..][..i] && parts[..i][1..] == parts[1..][..i - 1];
    }
  }

  lemma {:induction false} TotalPrefix(parts: seq<Segment>, i: nat)
    requires i <= |parts|
    ensures Total(parts[..i]) <= Total(parts)
  {
    if i > 0 {
      TotalPrefix(parts[1..], i - 1);
      assert parts[..i][1..] == parts[1..][..i - 1];
    }
  }

  lemma ReadBack(m: Bytes, a: nat, data: Bytes)
    requires a + |data| <= |m|
    ensures Put(m, a, data)[a..a + |data|] == data
  {
  }

  /** One byte is copied. */
  lemma PutByte(m: Bytes, dest: nat, src: nat, num: nat, i: nat, i': nat)
    requires dest + num <= |m| && src + num <= |m| && Apart(Segment(dest, num), Segment(src, num)) && i < num
    requires i' == i + 1
    ensures var before := Put(m, dest, Piece(m, Segment(src, i)));
            before[dest + i := before[src + i]] == Put(m, dest, Piece(m, Segment(src, i')))
  {
  }

  /** One segment is read. */
  lemma GatherNext(m: Bytes, buffer: nat, g: Bytes, s: Segment, next: nat)
    requires next == buffer + |g| && Inside(s, |m|) && Apart(Segment(buffer, |g|), s) && next + s.len <= |m|
    ensures var before := Put(m, buffer, g); Put(before, next, Piece(before, s)) == Put(m, buffer, g + Piece(m, s))
  {
    PutPiece(m, buffer, g, s);
    PutTwo(m, buffer, g, Piece(m, s));
  }

  lemma ApartWithin(a: nat, n: nat, b: nat, k: nat, s: Segment)
    requires Apart(s, Segment(a, n)) && a <= b && b + k <= a + n
    ensures Apart(Segment(b, k), s) && Apart(s, Segment(b, k))
  {
  }

  lemma PieceSplit(m: Bytes, next: nat, size: nat, len: nat, next': nat, size': nat)
    requires next + size <= |m| && len <= size && next' == next + len && size' == size - len
    ensures var data := Piece(m, Segment(next, size));
            Piece(m, Segment(next, len)) == data[..len] && Piece(m, Segment(next', size')) == data[len..]
  {
  }

  /** One segment is written. */
  lemma ScatterNext(m: Bytes, m': Bytes, rest: seq<Segment>, data: Bytes, len: nat)
    requires AllInside(rest, |m|) && rest != [] && data != [] && len == Min(rest[0].len, |data|)
    requires m' == Put(m, rest[0].base, data[..len])
    ensures Scattered(m', rest[1..], data[len..]) == Scattered(m, rest, data)
  {
  }

  lemma Balanced(held: map<nat, nat>, block: nat, size: nat)
    requires block !in held
    ensures held[block := size] - {block} == held && held[block := size] != held
  {
    assert block in held[block := size];
  }

  lemma EmptyAnswer(m: Bytes, from: seq<Segment>, to: seq<Segment>, block: nat)
    requires AllInside(from, |m|) && AllInside(to, |m|) && block + Total(from) <= |m|
    ensures Total(from) == 0 ==>
      var m1 := Put(m, block, Gathered(m, from)); Gathered(m1, to) == Overlaid(Gathered(m, to), Gathered(m, from))
  {
    if Total(from) == 0 {
      assert Gathered(m, from) == [];
      PutNone(m, block);
      var x := Gathered(m, to);
      assert Overlaid(x, []) == x;
    }
  }

  /** A segment's bytes are in the gathered bytes behind those of the segments before it. */
  lemma {:induction false} GatheredAt(m: Bytes, parts: seq<Segment>, i: nat)
    requires AllInside(parts, |m|) && i < |parts|
    ensures var at := Total(parts[..i]);
            at + parts[i].len <= Total(parts) && Gathered(m, parts)[at..at + parts[i].len] == Piece(m, parts[i])
  {
    if i > 0 {
      GatheredAt(m, parts[1..], i - 1);
      assert parts[..i][1..] == parts[1..][..i - 1];
      var at, g := Total(parts[1..][..i - 1]), Gathered(m, parts[1..]);
      assert (Piece(m, parts[0]) + g)[parts[0].len + at..parts[0].len + at + parts[i].len] == g[at..at + parts[i].len];
    }
  }

  lemma OnePiece(d: Segment)
    ensures [d][..0] == [] && Total([d][..0]) == 0 && Total([d]) == d.len
  {
    assert [d][1..] == [];
  }

  lemma PartByte(x: Bytes, at: nat, len: nat, piece: Bytes, k: nat)
    requires at + len <= |x| && x[at..at + len] == piece && k < len
    ensures piece[k] == x[at + k]
  {
  }

  lemma OverlaidAt(x: Bytes, data: Bytes, n: nat)
    requires n < |x|
    ensures Overlaid(x, data)[n] == if n < |data| then data[n] else x[n]
  {
  }

  lemma SliceAt(x: Bytes, at: nat, len: nat, k: nat)
    requires at + len <= |x| && k < len
    ensures x[at..at + len][k] == x[at + k]
  {
  }

  /** What a segment holds after a scattering, where the segments before it have room for `at` bytes. */
  lemma ScatteredAt(m: Bytes, m': Bytes, parts: seq<Segment>, data: Bytes, i: nat, at: nat, k: nat)
    requires |m'| == |m| && AllInside(parts, |m|) && i < |parts| && at == Total(parts[..i]) && k < parts[i].len
    requires Gathered(m', parts) == Overlaid(Gathered(m, parts), data)
    ensures Piece(m', parts[i])[k] == if at + k < |data| then data[at + k] else Piece(m, parts[i])[k]
  {
    GatheredAt(m, parts, i);
    GatheredAt(m', parts, i);
    PartByte(Gathered(m, parts), at, parts[i].len, Piece(m, parts[i]), k);
    PartByte(Gathered(m', parts), at, parts[i].len, Piece(m', parts[i]), k);
    OverlaidAt(Gathered(m, parts), data, at + k);
  }

  ghost predicate IsPart(m: Bytes, s: Segment, sent: Bytes, at: nat) {
    at + s.len <= |sent| && s.base + s.len <= |m| && sent[at..at + s.len] == m[s.base..s.base + s.len]
  }

  /** The bytes `sent` are those of the message, piece by piece. */
  ghost predicate IsContent(m: Bytes, msg: Message, sent: Bytes) {
    match msg
    case Linear(data) => data.base + data.len <= |m| && sent == m[data.base..data.base + data.len]
    case Vector(parts) =>
      && |sent| == Total(parts)
      && forall i: nat {:trigger parts[i]} :: i < |parts| ==> IsPart(m, parts[i], sent, Total(parts[..i]))
  }

  ghost predicate HoldsPart(m: Bytes, m': Bytes, s: Segment, got: Bytes, at: nat) {
    && s.base + s.len <= |m| == |m'|
    && forall k :: 0 <= k < s.len ==>
         Piece(m', s)[k] == if at + k < |got| then got[at + k] else Piece(m, s)[k]
  }

  /** The receiver's pieces hold the bytes of `got` one after the other, and what they held before behind its end. */
  ghost predicate HoldsContent(m: Bytes, m': Bytes, msg: Message, got: Bytes) {
    match msg
    case Linear(data) => HoldsPart(m, m', data, got, 0)
    case Vector(parts) =>
      forall i: nat {:trigger parts[i]} :: i < |parts| ==> HoldsPart(m, m', parts[i], got, Total(parts[..i]))
  }

  /** What the two say about a single byte. */
  lemma ContentByte(m: Bytes, msg: Message, sent: Bytes, i: nat, k: nat)
    requires IsContent(m, msg, sent)
    ensures msg.Linear? ==> |sent| == msg.data.len && (k < msg.data.len ==> sent[k] == m[msg.data.base + k])
    ensures msg.Vector? ==>
      && |sent| == Total(msg.parts)
      && (i < |msg.parts| && k < msg.parts[i].len ==>
            && Total(msg.parts[..i]) + k < |sent| && msg.parts[i].base + k < |m|
            && sent[Total(msg.parts[..i]) + k] == m[msg.parts[i].base + k])
  {
    if msg.Vector? && i < |msg.parts| && k < msg.parts[i].len {
      var s, at := msg.parts[i], Total(msg.parts[..i]);
      assert IsPart(m, s, sent, at);
      SliceAt(sent, at, s.len, k);
      SliceAt(m, s.base, s.len, k);
    }
  }

  lemma HeldByte(m: Bytes, m': Bytes, msg: Message, got: Bytes, i: nat, k: nat)
    requires HoldsContent(m, m', msg, got)
    ensures msg.Linear? && k < msg.data.len ==>
      && msg.data.base + k < |m| == |m'|
      && m'[msg.data.base + k] == if k < |got| then got[k] else m[msg.data.base + k]
    ensures msg.Vector? && i < |msg.parts| && k < msg.parts[i].len ==>
      && msg.parts[i].base + k < |m| == |m'|
      && var at := Total(msg.parts[..i]) + k;
         m'[msg.parts[i].base + k] == if at < |got| then got[at] else m[msg.parts[i].base + k]
  {
    if msg.Linear? && k < msg.data.len { assert Piece(m', msg.data)[k] == m'[msg.data.base + k]; }
    if msg.Vector? && i < |msg.parts| && k < msg.parts[i].len {
      assert HoldsPart(m, m', msg.parts[i], got, Total(msg.parts[..i]));
      assert Piece(m', msg.parts[i])[k] == m'[msg.parts[i].base + k];
    }
  }

  lemma OnePart(m: Bytes, s: Segment)
    requires Inside(s, |m|)
    ensures Gathered(m, [s]) == Piece(m, s) && Total([s]) == s.len
  {
    assert [s][1..] == [];
  }

  lemma GatheredContent(m: Bytes, msg: Message)
    requires AllInside(Parts(msg), |m|)
    ensures IsContent(m, msg, Gathered(m, Parts(msg)))
  {
    match msg
    case Linear(data) =>
      assert Parts(msg)[0] == data;
      OnePart(m, data);
    case Vector(parts) =>
      forall i: nat | i < |parts| ensures IsPart(m, parts[i], Gathered(m, parts), Total(parts[..i])) {
        GatheredAt(m, parts, i);
      }
  }

  lemma ScatteredPart(m: Bytes, m': Bytes, parts: seq<Segment>, data: Bytes, i: nat, s: Segment, at: nat)
    requires |m'| == |m| && AllInside(parts, |m|) && i < |parts| && parts[i] == s && at == Total(parts[..i])
    requires Gathered(m', parts) == Overlaid(Gathered(m, parts), data)
    ensures HoldsPart(m, m', s, data, at)
  {
    forall k: nat | k < s.len
      ensures Piece(m', s)[k] == if at + k < |data| then data[at + k] else Piece(m, s)[k]
    {
      ScatteredAt(m, m', parts, data, i, at, k);
    }
  }

  lemma ScatteredContent(m: Bytes, m': Bytes, msg: Message, data: Bytes)
    requires |m'| == |m| && AllInside(Parts(msg), |m|)
    requires Gathered(m', Parts(msg)) == Overlaid(Gathered(m, Parts(msg)), data)
    ensures HoldsContent(m, m', msg, data)
  {
    match msg
    case Linear(d) =>
      OnePiece(d);
      ScatteredPart(m, m', [d], data, 0, d, 0);
    case Vector(parts) =>
      forall i: nat | i < |parts| ensures HoldsPart(m, m', parts[i], data, Total(parts[..i])) {
        ScatteredPart(m, m', parts, data, i, parts[i], Total(parts[..i]));
      }
  }

  lemma WrittenContent(m: Bytes, m': Bytes, msg: Message, data: Bytes)
    requires AllInside(Parts(msg), |m|) && m' == Scattered(m, Parts(msg), data)
    ensures (msg.Vector? ==> Separate(msg.parts)) ==> HoldsContent(m, m', msg, data)
  {
    if msg.Vector? ==> Separate(msg.parts) {
      ScatteredBytes(m, Parts(msg), data);
      ScatteredContent(m, m', msg, data);
    }
  }

  /** The message lies in memory, fits a word in length, and does not overlap the kernel buffer for it. */
  predicate Sendable(msg: Message, size: nat, block: nat) {
    && AllInside(Parts(msg), size) && Total(Parts(msg)) < WORD && block + Total(Parts(msg)) <= size
    && AllApart(Parts(msg), Segment(block, Total(Parts(msg))))
  }

  predicate Receivable(msg: Message, size: nat, buffer: nat, bytes: nat) {
    AllInside(Parts(msg), size) && AllApart(Parts(msg), Segment(buffer, bytes))
  }

  /** Memory that overlaps neither the segments nor the buffer is the same. */
  ghost predicate SameOutside(m: Bytes, m': Bytes, parts: seq<Segment>, buffer: Segment) {
    |m| == |m'| && forall s: Segment {:trigger Inside(s, |m|)} ::
      Inside(s, |m|) && AllApart(parts, s) && Apart(s, buffer) ==> Piece(m', s) == Piece(m, s)
  }

  /** Address `x` is outside the segment. */
  predicate Beyond(x: nat, s: Segment) { x < s.base || s.base + s.len <= x }

  lemma ByteOutside(m: Bytes, m': Bytes, parts: seq<Segment>, buffer: Segment, x: nat)
    requires SameOutside(m, m', parts, buffer) && x < |m|
    requires (forall s :: s in parts ==> Beyond(x, s)) && Beyond(x, buffer)
    ensures |m'| == |m| && m'[x] == m[x]
  {
    forall i | 0 <= i < |parts| ensures Apart(parts[i], Segment(x, 1)) { assert parts[i] in parts; }
    assert Inside(Segment(x, 1), |m|);
    assert Piece(m', Segment(x, 1))[0] == m'[x] && Piece(m, Segment(x, 1))[0] == m[x];
  }

  lemma ScatterOne(m: Bytes, s: Segment, buffer: nat, size: nat, part: nat)
    requires Inside(s, |m|) && buffer + size <= |m| && part == Min(s.len, size)
    ensures Scattered(m, [s], Piece(m, Segment(buffer, size))) == Put(m, s.base, Piece(m, Segment(buffer, part)))
  {
    var data := Piece(m, Segment(buffer, size));
    assert data[..part] == Piece(m, Segment(buffer, part));
    if size == 0 { PutNone(m, s.base); }
  }

  /**
   * What goes into the kernel buffer comes out of it: the receiver's segments begin with the bytes of the
   * message, as far as there is room, and nothing else changes.
   */
  lemma Passed(m: Bytes, from: seq<Segment>, to: seq<Segment>, block: nat)
    requires AllInside(from, |m|) && AllInside(to, |m|) && block + Total(from) <= |m|
    requires AllApart(to, Segment(block, Total(from))) && Separate(to)
    ensures var sent := Gathered(m, from);
            var m1 := Put(m, block, sent);
            var m2 := Scattered(m1, to, Piece(m1, Segment(block, Total(from))));
            && Gathered(m2, to) == Overlaid(Gathered(m, to), sent)
            && SameOutside(m, m2, to, Segment(block, Total(from)))
  {
    var sent := Gathered(m, from);
    var m1 := Put(m, block, sent);
    assert Piece(m1, Segment(block, Total(from))) == sent;
    PutGathered(m, block, sent, to);
    ScatteredBytes(m1, to, sent);
    forall s: Segment | Inside(s, |m|) && AllApart(to, s) && Apart(s, Segment(block, Total(from)))
      ensures Piece(Scattered(m1, to, sent), s) == Piece(m, s)
    {
      PutPiece(m, block, sent, s);
      ScatteredElsewhere(m1, to, sent, s);
    }
  }

  lemma TotalNext(parts: seq<Segment>, i: nat)
    requires i < |parts|
    ensures Total(parts[..i + 1]) == Total(parts[..i]) + parts[i].len
  {
    if i == 0 {
      assert parts[..1][1..] == [] && parts[..1][0] == parts[0];
    } else {
      TotalNext(parts[1..], i - 1);
      assert parts[..i + 1][1..] == parts[1..][..i] && parts[..i][1..] == parts[1..][..i - 1];
    }
  }

  lemma TwoParts(s: Segment, t: Segment)
    ensures Total([s, t][..0]) == 0 && Total([s, t][..1]) == s.len && Total([s, t]) == s.len + t.len
  {
    assert [s, t][..0] == [] && [s, t][..1] == [s] && [s, t][1..] == [t];
    OnePiece(s);
    OnePiece(t);
  }

  lemma TwoContent(m: Bytes, s: Segment, t: Segment, sent: Bytes)
    requires IsContent(m, Vector([s, t]), sent)
    ensures s.base + s.len <= |m| && t.base + t.len <= |m|
    ensures sent == m[s.base..s.base + s.len] + m[t.base..t.base + t.len]
  {
    TwoParts(s, t);
    assert [s, t][0] == s && [s, t][1] == t;
    assert IsPart(m, s, sent, 0) && IsPart(m, t, sent, s.len);
    assert sent == sent[..s.len] + sent[s.len..];
  }

  lemma HeldWhole(m: Bytes, m': Bytes, d: Segment, got: Bytes)
    requires HoldsContent(m, m', Linear(d), got) && |got| == d.len
    ensures d.base + d.len <= |m'| && m'[d.base..d.base + d.len] == got
  {
    forall k: nat | k < d.len ensures m'[d.base..d.base + d.len][k] == got[k] {
      HeldByte(m, m', Linear(d), got, 0, k);
    }
  }

  lemma TwoHeld(m: Bytes, m': Bytes, s: Segment, t: Segment, got: Bytes)
    requires HoldsContent(m, m', Vector([s, t]), got) && |got| == s.len + t.len
    ensures s.base + s.len <= |m'| && t.base + t.len <= |m'|
    ensures m'[s.base..s.base + s.len] + m'[t.base..t.base + t.len] == got
  {
    TwoParts(s, t);
    assert [s, t][0] == s && [s, t][1] == t;
    assert HoldsPart(m, m', s, got, 0) && HoldsPart(m, m', t, got, s.len);
    assert Piece(m', s) == got[..s.len] && Piece(m', t) == got[s.len..];
  }

  lemma OneOutside(m: Bytes, m': Bytes, d: Segment, block: nat, n: nat)
    requires SameOutside(m, m', [d], Segment(block, n))
    ensures |m'| == |m|
    ensures forall x: nat ::
      x < |m| && (x < d.base || d.base + d.len <= x) && (x < block || block + n <= x) ==> m'[x] == m[x]
  {
    forall x: nat | x < |m| && Beyond(x, d) && Beyond(x, Segment(block, n)) ensures m'[x] == m[x] {
      ByteOutside(m, m', [d], Segment(block, n), x);
    }
  }

  lemma TwoOutside(m: Bytes, m': Bytes, s: Segment, t: Segment, block: nat, n: nat)
    requires SameOutside(m, m', [s, t], Segment(block, n))
    ensures |m'| == |m|
    ensures forall x: nat ::
      (&& x < |m| && (x < s.base || s.base + s.len <= x) && (x < t.base || t.base + t.len <= x)
       && (x < block || block + n <= x)) ==> m'[x] == m[x]
  {
    forall x: nat | x < |m| && Beyond(x, s) && Beyond(x, t) && Beyond(x, Segment(block, n)) ensures m'[x] == m[x] {
      ByteOutside(m, m', [s, t], Segment(block, n), x);
    }
  }

  lemma PairSendable(s: Segment, t: Segment, d: Segment, size: nat, block: nat)
    requires Inside(s, size) && Inside(t, size) && Inside(d, size)
    requires d.len == s.len + t.len < WORD && block + d.len <= size
    requires Apart(s, Segment(block, d.len)) && Apart(t, Segment(block, d.len)) && Apart(d, Segment(block, d.len))
    ensures forall msg :: msg == Linear(d) || msg == Vector([s, t]) ==>
      && Total(Parts(msg)) == d.len && Sendable(msg, size, block) && Receivable(msg, size, block, d.len)
  {
    TwoParts(s, t);
    OnePiece(d);
  }

  /** Physical memory, and the kernel buffers that kmalloc has handed out, by address and size. */
  class Copier {
    const mem: array<bv8>
    ghost var held: map<nat, nat>

    constructor (memory: array<bv8>)
      ensures mem == memory && held == map[]
    {
      mem := memory;
      held := map[];
    }

    /** memcpy. */
    method Memcpy(dest: nat, src: nat, num: nat)
      requires dest + num <= mem.Length && src + num <= mem.Length && Apart(Segment(dest, num), Segment(src, num))
      modifies mem
      ensures mem[..] == Put(old(mem[..]), dest, Piece(old(mem[..]), Segment(src, num)))
    {
      ghost var m := mem[..];
      PutNone(m, dest);
      for i := 0 to num
        invariant mem[..] == Put(m, dest, Piece(m, Segment(src, i)))
      {
        PutByte(m, dest, src, num, i, i + 1);
        mem[dest + i] := mem[src + i];
      }
    }

    /** iovec_sum, whose result is a word. */
    method IovecSum(parts: seq<Segment>) returns (size: nat)
      ensures size == Total(parts) % 0x1_0000_0000
    {
      size := 0;
      for i := 0 to |parts|
        invariant size == Total(parts[..i]) % WORD
      {
        TotalNext(parts, i);
        size := (size + parts[i].len) % WORD;
      }
      assert parts[..|parts|] == parts;
    }

    /** The body of that loop; `g` is what the buffer holds so far. */
    method ReadPart(part: Segment, next: nat, ghost m: Bytes, ghost buffer: nat, ghost g: Bytes, ghost total: nat)
      returns (next': nat)
      requires Inside(part, mem.Length) && |m| == mem.Length && buffer + total <= mem.Length
      requires next == buffer + |g| && |g| + part.len <= total && Apart(part, Segment(buffer, total))
      requires mem[..] == Put(m, buffer, g)
      modifies mem
      ensures next' == next + part.len && mem[..] == Put(m, buffer, g + Piece(m, part))
    {
      ApartWithin(buffer, total, buffer, |g|, part);
      ApartWithin(buffer, total, next, part.len, part);
      GatherNext(m, buffer, g, part, next);
      Memcpy(next, part.base, part.len);
      next' := next + part.len;
    }

    /** iovec_read. */
    method IovecRead(parts: seq<Segment>, buffer: nat)
      requires AllInside(parts, mem.Length) && buffer + Total(parts) <= mem.Length
      requires AllApart(parts, Segment(buffer, Total(parts)))
      modifies mem
      ensures mem[..] == Put(old(mem[..]), buffer, Gathered(old(mem[..]), parts))
    {
      ghost var m := mem[..];
      var next := buffer;
      PutNone(m, buffer);
      for i := 0 to |parts|
        invariant next == buffer + Total(parts[..i]) <= buffer + Total(parts)
        invariant mem[..] == Put(m, buffer, Gathered(m, parts[..i]))
      {
        TotalNext(parts, i);
        TotalPrefix(parts, i + 1);
        GatheredNext(m, parts, i);
        next := ReadPart(parts[i], next, m, buffer, Gathered(m, parts[..i]), Total(parts));
      }
      assert parts[..|parts|] == parts;
    }

    /** The body of that loop, for the first of the segments `rest`; `data` are the bytes still to be written. */
    method WritePart(part: Segment, next: nat, size: nat, ghost rest: seq<Segment>, ghost data: Bytes,
                     ghost buffer: nat, ghost bytes: nat)
      returns (next': nat, size': nat, ghost data': Bytes)
      requires AllInside(rest, mem.Length) && rest != [] && rest[0] == part && size > 0
      requires buffer + bytes <= mem.Length && buffer <= next && next + size == buffer + bytes
      requires Apart(part, Segment(buffer, bytes)) && Piece(mem[..], Segment(next, size)) == data
      modifies mem
      ensures next' + size' == next + size && next <= next' && size' <= size
      ensures Piece(mem[..], Segment(next', size')) == data'
      ensures Scattered(mem[..], rest[1..], data') == Scattered(old(mem[..]), rest, data)
    {
      var len := part.len;
      if len > size { len := size; }
      next', size' := next + len, size - len;
      data' := data[len..];
      PieceSplit(mem[..], next, size, len, next', size');
      ApartWithin(buffer, bytes, next, len, part);
      ApartWithin(buffer, bytes, next', size', part);
      PutPiece(mem[..], part.base, data[..len], Segment(next', size'));
      Memcpy(part.base, next, len);
      ScatterNext(old(mem[..]), mem[..], rest, data, len);
    }

    /** iovec_write. */
    method IovecWrite(parts: seq<Segment>, buffer: nat, bytes: nat)
      requires AllInside(parts, mem.Length) && buffer + bytes <= mem.Length
      requires AllApart(parts, Segment(buffer, bytes))
      modifies mem
      ensures mem[..] == Scattered(old(mem[..]), parts, Piece(old(mem[..]), Segment(buffer, bytes)))
    {
      ghost var data := Piece(mem[..], Segment(buffer, bytes));
      ghost var goal := Scattered(mem[..], parts, data);
      var i, next, size := 0, buffer, bytes;
      assert parts[0..] == parts;
      while i < |parts| && size > 0
        invariant i <= |parts| && next + size == buffer + bytes && buffer <= next
        invariant Piece(mem[..], Segment(next, size)) == data && Scattered(mem[..], parts[i..], data) == goal
      {
        assert parts[i..][1..] == parts[i + 1..];
        next, size, data := WritePart(parts[i], next, size, parts[i..], data, buffer, bytes);
        i := i + 1;
      }
    }

    /** The copying part of read_message. */
    method ReadParts(msg: Message, buffer: nat) returns (size: nat)
      requires Sendable(msg, mem.Length, buffer)
      modifies mem
      ensures size == Total(Parts(msg))
      ensures mem[..] == Put(old(mem[..]), buffer, Gathered(old(mem[..]), Parts(msg)))
    {
      match msg {
        case Linear(data) =>
          OnePart(mem[..], data);
          size := data.len;
          Memcpy(buffer, data.base, size);
        case Vector(parts) =>
          size := IovecSum(parts);
          IovecRead(parts, buffer);
      }
    }

    /** read_message; `block` is what kmalloc gives. */
    method ReadMessage(msg: Message, block: nat) returns (size: nat, buffer: nat)
      requires Sendable(msg, mem.Length, block) && block !in held
      modifies mem, `held
      ensures size == Total(Parts(msg)) && buffer == block && held == old(held)[block := size]
      ensures mem[..] == Put(old(mem[..]), block, Gathered(old(mem[..]), Parts(msg)))
      ensures buffer + size <= mem.Length && IsContent(old(mem[..]), msg, mem[..][buffer..buffer + size])
    {
      GatheredContent(mem[..], msg);
      ReadBack(mem[..], block, Gathered(mem[..], Parts(msg)));
      buffer := block;
      size := ReadParts(msg, buffer);
      held := held[block := size];
    }

    /** The copying part of write_message. */
    method WriteParts(msg: Message, size: nat, buffer: nat)
      requires buffer + size <= mem.Length && Receivable(msg, mem.Length, buffer, size)
      modifies mem
      ensures mem[..] == Scattered(old(mem[..]), Parts(msg), Piece(old(mem[..]), Segment(buffer, size)))
    {
      match msg {
        case Linear(data) =>
          assert Parts(msg)[0] == data;
          var part := if size > data.len then data.len else size;
          ApartWithin(buffer, size, buffer, part, data);
          ScatterOne(mem[..], data, buffer, size, part);
          Memcpy(data.base, buffer, part);
        case Vector(parts) =>
          IovecWrite(parts, buffer, size);
      }
    }

    method WriteContent(msg: Message, size: nat, buffer: nat)
      requires buffer + size <= mem.Length && Receivable(msg, mem.Length, buffer, size)
      modifies mem
      ensures mem[..] == Scattered(old(mem[..]), Parts(msg), Piece(old(mem[..]), Segment(buffer, size)))
      ensures (msg.Vector? ==> Separate(msg.parts)) ==>
        HoldsContent(old(mem[..]), mem[..], msg, old(mem[..])[buffer..buffer + size])
    {
      ghost var m := mem[..];
      WriteParts(msg, size, buffer);
      WrittenContent(m, mem[..], msg, m[buffer..buffer + size]);
    }

    /** write_message, which ends with the kfree of the buffer. */
    method WriteMessage(msg: Message, size: nat, buffer: nat) returns (size': nat, buffer': nat)
      requires buffer in held && held[buffer] == size && buffer + size <= mem.Length
      requires Receivable(msg, mem.Length, buffer, size)
      modifies mem, `held
      ensures size' == 0 && buffer' == 0 && held == old(held) - {buffer}
      ensures mem[..] == Scattered(old(mem[..]), Parts(msg), Piece(old(mem[..]), Segment(buffer, size)))
      ensures (msg.Vector? ==> Separate(msg.parts)) ==>
        HoldsContent(old(mem[..]), mem[..], msg, old(mem[..])[buffer..buffer + size])
    {
      WriteContent(msg, size, buffer);
      held := held - {buffer};
      size', buffer' := 0, 0;
    }

    /** A message from ipc_send to ipc_receive, through the kernel buffer. */
    method Pass(from: Message, to: Message, block: nat) returns (ghost sent: Bytes)
      requires Sendable(from, mem.Length, block) && block !in held
      requires Receivable(to, mem.Length, block, Total(Parts(from))) && Separate(Parts(to))
      modifies mem, `held
      ensures held == old(held)
      ensures IsContent(old(mem[..]), from, sent) && HoldsContent(old(mem[..]), mem[..], to, sent)
      ensures Gathered(mem[..], Parts(to))
              == Overlaid(Gathered(old(mem[..]), Parts(to)), Gathered(old(mem[..]), Parts(from)))
      ensures SameOutside(old(mem[..]), mem[..], Parts(to), Segment(block, Total(Parts(from))))
    {
      ghost var m := mem[..];
      Passed(m, Parts(from), Parts(to), block);
      Balanced(held, block, Total(Parts(from)));
      sent := Gathered(m, Parts(from));
      GatheredContent(m, from);
      var size, buffer := ReadMessage(from, block);
      size, buffer := WriteMessage(to, size, buffer);
      ScatteredContent(m, mem[..], to, sent);
    }

    method AnswerWith(reply: Message, to: Message, block: nat) returns (ghost sent: Bytes)
      requires Sendable(reply, mem.Length, block) && block !in held
      requires Receivable(to, mem.Length, block, Total(Parts(reply))) && Separate(Parts(to))
      modifies mem, `held
      ensures held == if |sent| == 0 then old(held)[block := 0] else old(held)
      ensures IsContent(old(mem[..]), reply, sent) && HoldsContent(old(mem[..]), mem[..], to, sent)
      ensures Gathered(mem[..], Parts(to))
              == Overlaid(Gathered(old(mem[..]), Parts(to)), Gathered(old(mem[..]), Parts(reply)))
    {
      ghost var m := mem[..];
      Passed(m, Parts(reply), Parts(to), block);
      Balanced(held, block, Total(Parts(reply)));
      EmptyAnswer(m, Parts(reply), Parts(to), block);
      sent := Gathered(m, Parts(reply));
      GatheredContent(m, reply);
      var size, buffer := ReadMessage(reply, block);
      if size != 0 {
        size, buffer := WriteMessage(to, size, buffer);
      }
      ScatteredContent(m, mem[..], to, sent);
    }

    /**
     * A reply from ipc_reply to the end of ipc_send.  The buffer of a reply without any bytes is allocated
     * and not freed; every other reply leaves the kernel buffers as they were.
     */
    method Answer(reply: Option<Message>, to: Message, block: nat) returns (ghost sent: Bytes)
      requires block !in held && (reply.Some? ==> Sendable(reply.value, mem.Length, block))
      requires reply.Some? ==> Receivable(to, mem.Length, block, Total(Parts(reply.value))) && Separate(Parts(to))
      modifies mem, `held
      ensures held == if reply.Some? && sent == [] then old(held)[block := 0] else old(held)
      ensures reply.Some? ==>
        && IsContent(old(mem[..]), reply.value, sent) && HoldsContent(old(mem[..]), mem[..], to, sent)
      ensures reply.Some? ==>
        && AllInside(Parts(to), mem.Length)
        && Gathered(mem[..], Parts(to))
           == Overlaid(Gathered(old(mem[..]), Parts(to)), Gathered(old(mem[..]), Parts(reply.value)))
      ensures reply == None ==> mem[..] == old(mem[..])
    {
      sent := [];
      if reply.Some? { sent := AnswerWith(reply.value, to, block); }
    }

    /** Two segments sent to one piece that has room for both. */
    method Join(s: Segment, t: Segment, d: Segment, block: nat)
      requires s.base + s.len <= mem.Length && t.base + t.len <= mem.Length && d.base + d.len <= mem.Length
      requires d.len == s.len + t.len < WORD && block + d.len <= mem.Length && block !in held
      requires forall x :: x == s || x == t || x == d ==> x.base + x.len <= block || block + d.len <= x.base
      modifies mem, `held
      ensures held == old(held)
      ensures mem[..][d.base..d.base + d.len]
              == old(mem[..])[s.base..s.base + s.len] + old(mem[..])[t.base..t.base + t.len]
      ensures forall x: nat ::
        x < mem.Length && (x < d.base || d.base + d.len <= x) && (x < block || block + d.len <= x) ==>
          mem[..][x] == old(mem[..])[x]
    {
      ghost var m := mem[..];
      var from, to := Vector([s, t]), Linear(d);
      PairSendable(s, t, d, mem.Length, block);
      ghost var sent := Pass(from, to, block);
      TwoContent(m, s, t, sent);
      HeldWhole(m, mem[..], d, sent);
      OneOutside(m, mem[..], d, block, d.len);
    }

    /** One piece sent to two segments that have room for it. */
    method Split(d: Segment, s: Segment, t: Segment, block: nat)
      requires s.base + s.len <= mem.Length && t.base + t.len <= mem.Length && d.base + d.len <= mem.Length
      requires d.len == s.len + t.len < WORD && block + d.len <= mem.Length && block !in held
      requires s.base + s.len <= t.base || t.base + t.len <= s.base
      requires forall x :: x == s || x == t || x == d ==> x.base + x.len <= block || block + d.len <= x.base
      modifies mem, `held
      ensures held == old(held)
      ensures mem[..][s.base..s.base + s.len] + mem[..][t.base..t.base + t.len]
              == old(mem[..])[d.base..d.base + d.len]
      ensures forall x: nat ::
        (&& x < mem.Length && (x < s.base || s.base + s.len <= x) && (x < t.base || t.base + t.len <= x)
         && (x < block || block + d.len <= x)) ==> mem[..][x] == old(mem[..])[x]
    {
      ghost var m := mem[..];
      var from, to := Linear(d), Vector([s, t]);
      PairSendable(s, t, d, mem.Length, block);
      ghost var sent := Pass(from, to, block);
      TwoHeld(m, mem[..], s, t, sent);
      TwoOutside(m, mem[..], s, t, block, d.len);
    }
  }
}
