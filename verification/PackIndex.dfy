/** Pack index entries: how they are written, when they are accepted, and a decoder that accepts exactly the lists
    whose frames fit the pack without overlapping. */
module PackIndex {
  import opened Keys
  import opened Basics
  import opened Refs
  import opened NodeCodec
  import opened Listings
  import Nodes

  const HEADER: nat := 40
  const TRAILER: nat := 16
  const OVERHEAD: nat := 28
  const MAX_CHUNK := 0x10_0000
  const MAX_CHUNKS := 0x1_0000
  const MAX_PACK := 0x4000_0000
  const WORD32 := 0x1_0000_0000
  const RAW: byte := 0
  const ZSTD: byte := 1

  const INDEX_MAGIC: Magic := [0x53, 0x43, 0x50, 0x49]

  /** Where one chunk's frame is in a pack. */
  datatype Entry = Entry(hash: Hash, offset: nat, stored: nat, raw: nat, codec: byte)

  /******** One entry ********/

  predicate Wide(e: Entry) {
    e.offset < WORD && e.stored < WORD && e.raw < WORD
  }

  function Numbers(e: Entry): seq<byte> {
    Varint(e.offset) + (Varint(e.stored) + (Varint(e.raw) + [e.codec]))
  }

  function WriteItem(e: Entry): seq<byte> {
    e.hash + Numbers(e)
  }

  // The stored and raw lengths, the codec, and where they end.
  function ReadLengths(b: seq<byte>): (r: Option<(nat, nat, byte, nat)>)
    ensures r.Some? ==> 3 <= r.value.3 <= |b|
  {
    var s := ReadU64(b);
    if s.None? then None
    else
      var r := ReadU64(b[s.value.1..]);
      if r.None? then None
      else
        var end := s.value.1 + r.value.1;
        if end == |b| then None else Some((s.value.0, r.value.0, b[end], end + 1))
  }

  function ReadItem(b: seq<byte>): (r: Option<(Entry, nat)>)
    ensures r.Some? ==> 36 <= r.value.1 <= |b|
  {
    if |b| < 32 then None
    else
      var o := ReadU64(b[32..]);
      if o.None? then None
      else
        var at := 32 + o.value.1;
        var l := ReadLengths(b[at..]);
        if l.None? then None else Some((Entry(b[..32], o.value.0, l.value.0, l.value.1, l.value.2), at + l.value.3))
  }

  lemma U64Complete(v: nat, rest: seq<byte>)
    requires v < WORD
    ensures ReadU64(Varint(v) + rest) == Some((v, |Varint(v)|))
  {
    VarintComplete(v, rest);
  }

  lemma LengthsLayout(s: seq<byte>, r: seq<byte>, c: byte, rest: seq<byte>)
    ensures var b := s + (r + [c]) + rest;
            |b| == |s| + |r| + 1 + |rest| && b == s + (r + [c] + rest) && b[|s|..] == r + ([c] + rest)
              && b[|s| + |r|] == c
  {
  }

  lemma LengthsComplete(stored: nat, raw: nat, codec: byte, rest: seq<byte>)
    requires stored < WORD && raw < WORD
    ensures var w := Varint(stored) + (Varint(raw) + [codec]); ReadLengths(w + rest) == Some((stored, raw, codec, |w|))
  {
    hide Varint, ReadU64, ReadVarint;
    LengthsLayout(Varint(stored), Varint(raw), codec, rest);
    U64Complete(stored, Varint(raw) + [codec] + rest);
    U64Complete(raw, [codec] + rest);
  }

  lemma ItemLayout(h: Hash, o: seq<byte>, l: seq<byte>, rest: seq<byte>)
    ensures var b := h + (o + l) + rest;
            |b| == 32 + |o| + |l| + |rest| && b[..32] == h && b[32..] == o + (l + rest) && b[32 + |o|..] == l + rest
  {
  }

  lemma ItemComplete(e: Entry, rest: seq<byte>)
    requires Wide(e)
    ensures ReadItem(WriteItem(e) + rest) == Some((e, |WriteItem(e)|))
  {
    hide Varint, ReadU64, ReadLengths;
    var l := Varint(e.stored) + (Varint(e.raw) + [e.codec]);
    ItemLayout(e.hash, Varint(e.offset), l, rest);
    U64Complete(e.offset, l + rest);
    LengthsComplete(e.stored, e.raw, e.codec, rest);
  }

  lemma LengthsSound(b: seq<byte>)
    requires ReadLengths(b).Some?
    ensures var r := ReadLengths(b).value; b[..r.3] == Varint(r.0) + (Varint(r.1) + [r.2]) && r.0 < WORD && r.1 < WORD
  {
    hide Varint, ReadU64, ReadVarint;
    var s := ReadU64(b).value;
    var r := ReadU64(b[s.1..]).value;
    U64Sound(b);
    U64Sound(b[s.1..]);
    assert b[..s.1 + r.1 + 1] == b[..s.1] + (b[s.1..][..r.1] + [b[s.1 + r.1]]);
  }

  lemma ItemSound(b: seq<byte>)
    requires ReadItem(b).Some?
    ensures var r := ReadItem(b).value; b[..r.1] == WriteItem(r.0) && Wide(r.0)
  {
    hide Varint, ReadU64, ReadLengths;
    var o := ReadU64(b[32..]).value;
    var l := ReadLengths(b[32 + o.1..]).value;
    U64Sound(b[32..]);
    LengthsSound(b[32 + o.1..]);
    assert b[..32 + o.1 + l.3] == b[..32] + (b[32..][..o.1] + b[32 + o.1..][..l.3]);
  }

  // How entries are listed.
  ghost function Items(): Coder<Entry> {
    Coder(Wide, WriteItem, ReadItem)
  }

  lemma ItemsLawful()
    ensures Lawful(Items())
  {
    hide Wide, WriteItem, ReadItem;
    var c := Items();
    forall x, rest | c.ok(x) ensures c.read(c.write(x) + rest) == Some((x, |c.write(x)|)) {
      ItemComplete(x, rest);
    }
    forall b | c.read(b).Some? ensures c.read(b).value.1 <= |b| && b[..c.read(b).value.1] == c.write(c.read(b).value.0)
      && c.ok(c.read(b).value.0) {
      ItemSound(b);
    }
  }

  method NextLengths(r: Reader) returns (l: Option<(nat, nat, byte)>)
    requires r.Valid() && !r.err
    modifies r
    ensures r.Valid() && (l.Some? <==> ReadLengths(old(r.Rest())).Some?)
    ensures l.Some? ==>
              !r.err && ReadLengths(old(r.Rest())) == Some((l.value.0, l.value.1, l.value.2, r.off - old(r.off)))
  {
    hide ReadU64;
    ghost var o := r.off;
    var stored := r.Uvarint();
    if r.err {
      return None;
    }
    DropTwice(r.b, o, r.off - o);
    var raw := r.Uvarint();
    if r.err {
      return None;
    }
    DropTwice(r.b, o, r.off - o);
    var codec := r.U8();
    l := if r.err then None else Some((stored, raw, codec));
  }

  // Reads one entry.
  method NextItem(r: Reader) returns (e: Option<Entry>)
    requires r.Valid() && !r.err
    modifies r
    ensures r.Valid() && (e.Some? <==> ReadItem(old(r.Rest())).Some?)
    ensures e.Some? ==> !r.err && ReadItem(old(r.Rest())) == Some((e.value, r.off - old(r.off)))
  {
    hide ReadU64, ReadLengths;
    ghost var o := r.off;
    var h := r.Fixed(32);
    if r.err {
      return None;
    }
    DropTwice(r.b, o, 32);
    var off := r.Uvarint();
    if r.err {
      return None;
    }
    DropTwice(r.b, o, r.off - o);
    var l := NextLengths(r);
    e := if l.None? then None else Some(Entry(h, off, l.value.0, l.value.1, l.value.2));
  }

  /******** Which lists are accepted ********/

  // How long a frame may be for its chunk's length, by codec.
  predicate LengthsAgree(codec: byte, stored: nat, raw: nat) {
    (codec == RAW && stored == raw + OVERHEAD) || (codec == ZSTD && OVERHEAD <= stored < raw + OVERHEAD)
  }

  predicate ItemOk(e: Entry, limit: nat) {
    e.offset <= limit && e.raw <= MAX_CHUNK && LengthsAgree(e.codec, e.stored, e.raw)
  }

  ghost predicate ByHash(es: seq<Entry>) {
    forall i, j :: 0 <= i < j < |es| ==> Rank(es[i].hash) < Rank(es[j].hash)
  }

  predicate Before(a: Entry, b: Entry) {
    a.offset + a.stored <= b.offset
  }

  // Frames lie between two places, no two of them overlapping.
  ghost predicate Apart(es: seq<Entry>, from: nat, to: nat) {
    && from <= to
    && (forall i :: 0 <= i < |es| ==> from <= es[i].offset && es[i].offset + es[i].stored <= to)
    && (forall i, j :: 0 <= i < j < |es| ==> Before(es[i], es[j]) || Before(es[j], es[i]))
  }

  // An entry's numbers in 32 bits.
  function Narrow(e: Entry): Entry {
    e.(offset := e.offset % WORD32, stored := e.stored % WORD32, raw := e.raw % WORD32)
  }

  function Narrowed(es: seq<Entry>): (r: seq<Entry>)
    ensures |r| == |es|
  {
    seq(|es|, i requires 0 <= i < |es| => Narrow(es[i]))
  }

  ghost predicate ItemsOk(es: seq<Entry>, limit: nat) {
    (forall i :: 0 <= i < |es| ==> ItemOk(es[i], limit)) && ByHash(es)
  }

  /** Entries that describe a pack whose index starts at an offset. */
  ghost predicate Fits(es: seq<Entry>, indexOffset: nat) {
    |es| <= MAX_CHUNKS && ItemsOk(es, indexOffset) && Apart(es, HEADER, indexOffset)
  }

  // What the decoder tests: frames are compared once their offsets are in 32 bits.
  ghost predicate Accepts(es: seq<Entry>, indexOffset: nat) {
    |es| <= MAX_CHUNKS && ItemsOk(es, indexOffset) && Apart(Narrowed(es), HEADER, indexOffset)
  }

  /******** Laying frames out ********/

  ghost predicate InPlace(es: seq<Entry>) {
    forall i, j :: 0 <= i < j < |es| ==> es[i].offset <= es[j].offset
  }

  lemma Inserted(es: seq<Entry>, i: nat, e: Entry)
    requires i <= |es|
    ensures multiset(es[..i] + [e] + es[i..]) == multiset(es) + multiset{e}
  {
    assert es == es[..i] + es[i..];
  }

  lemma InPlaceInsert(es: seq<Entry>, e: Entry, i: nat)
    requires InPlace(es) && i <= |es| && (i > 0 ==> es[i - 1].offset <= e.offset) && forall j ::
               i <= j < |es| ==> e.offset < es[j].offset
    ensures InPlace(es[..i] + [e] + es[i..])
  {
    InsertedAt(es, i, e);
  }

  method SortByPlace(es: seq<Entry>) returns (out: seq<Entry>)
    ensures InPlace(out) && multiset(out) == multiset(es)
  {
    out := [];
    for n := 0 to |es|
      invariant InPlace(out) && multiset(out) == multiset(es[..n])
    {
      var e, i := es[n], |out|;
      while i > 0 && e.offset < out[i - 1].offset
        invariant 0 <= i <= |out| && forall j :: i <= j < |out| ==> e.offset < out[j].offset
      {
        i := i - 1;
      }
      InPlaceInsert(out, e, i);
      Inserted(out, i, e);
      out := out[..i] + [e] + out[i..];
      assert es[..n + 1] == es[..n] + [e];
    }
    assert es[..|es|] == es;
  }

  // Overlap does not depend on the order entries are listed in.
  ghost predicate ApartIn(ms: multiset<Entry>, from: nat, to: nat) {
    && from <= to
    && (forall e :: e in ms ==> from <= e.offset && e.offset + e.stored <= to)
    && (forall e, f :: e in ms && f in ms && e != f ==> Before(e, f) || Before(f, e))
    && (forall e :: e in ms ==> ms[e] == 1)
  }

  lemma CountTwo(es: seq<Entry>, i: nat, j: nat)
    requires i < j < |es| && es[i] == es[j]
    ensures multiset(es)[es[i]] >= 2
  {
    assert es == es[..j] + [es[j]] + es[j + 1..];
    assert es[i] in es[..j];
  }

  lemma {:induction false} CountOne(es: seq<Entry>, e: Entry)
    requires e in es && multiset(es)[e] != 1
    ensures exists i, j :: 0 <= i < j < |es| && es[i] == e == es[j]
  {
    var j :| 0 <= j < |es| && es[j] == e;
    var rest := es[..j] + es[j + 1..];
    assert es == es[..j] + [e] + es[j + 1..];
    assert multiset(es) == multiset(rest) + multiset{e};
    assert e in rest;
    var k :| 0 <= k < |rest| && rest[k] == e;
    assert es[if k < j then k else k + 1] == e;
  }

  lemma ApartIsIn(es: seq<Entry>, from: nat, to: nat)
    requires forall i :: 0 <= i < |es| ==> es[i].stored > 0
    ensures Apart(es, from, to) <==> ApartIn(multiset(es), from, to)
  {
    if Apart(es, from, to) {
      ApartOnce(es, from, to);
    }
    if ApartIn(multiset(es), from, to) {
      OnceApart(es, from, to);
    }
  }

  lemma ApartOnce(es: seq<Entry>, from: nat, to: nat)
    requires Apart(es, from, to) && forall i :: 0 <= i < |es| ==> es[i].stored > 0
    ensures ApartIn(multiset(es), from, to)
  {
    var ms := multiset(es);
    forall e, f | e in ms && f in ms && e != f ensures Before(e, f) || Before(f, e) {
      var i :| 0 <= i < |es| && es[i] == e;
      var j :| 0 <= j < |es| && es[j] == f;
      assert i < j || j < i;
    }
    forall e | e in ms ensures ms[e] == 1 {
      if ms[e] != 1 {
        CountOne(es, e);
      }
    }
  }

  lemma OnceApart(es: seq<Entry>, from: nat, to: nat)
    requires ApartIn(multiset(es), from, to)
    ensures Apart(es, from, to)
  {
    var ms := multiset(es);
    forall i, j | 0 <= i < j < |es| ensures Before(es[i], es[j]) || Before(es[j], es[i]) {
      assert es[i] in ms && es[j] in ms;
      if es[i] == es[j] {
        CountTwo(es, i, j);
      }
    }
    forall i | 0 <= i < |es| ensures from <= es[i].offset && es[i].offset + es[i].stored <= to {
      assert es[i] in ms;
    }
  }

  // Frames walked in order of offset, each from the end of the one before.
  ghost predicate Walked(es: seq<Entry>, n: nat, end: nat) {
    n <= |es| && (forall i :: 0 <= i < n ==> HEADER <= es[i].offset && es[i].offset + es[i].stored <= end)
    && (forall i, j :: 0 <= i < j < n ==> Before(es[i], es[j])) && HEADER <= end && (n == 0 ==> end == HEADER)
    && (n > 0 ==> end == es[n - 1].offset + es[n - 1].stored)
  }

  lemma WalkRefuses(es: seq<Entry>, n: nat, end: nat, to: nat)
    requires InPlace(es) && Walked(es, n, end) && n < |es| && es[n].offset < end && forall i ::
               0 <= i < |es| ==> es[i].stored > 0
    ensures !Apart(es, HEADER, to)
  {
    if n > 0 {
      assert es[n - 1].offset <= es[n].offset;
      assert !Before(es[n - 1], es[n]) && !Before(es[n], es[n - 1]);
    }
  }

  /** Whether frames lie apart between the header and an end: they are walked in order of offset. */
  method FramesApart(es: seq<Entry>, to: nat) returns (ok: bool)
    requires forall i :: 0 <= i < |es| ==> es[i].stored > 0
    ensures ok <==> Apart(es, HEADER, to)
  {
    var placed := SortByPlace(es);
    forall i | 0 <= i < |placed| ensures placed[i].stored > 0 {
      assert placed[i] in multiset(placed);
    }
    ApartIsIn(es, HEADER, to);
    ApartIsIn(placed, HEADER, to);
    var end: nat := HEADER;
    for n := 0 to |placed|
      invariant Walked(placed, n, end)
    {
      if placed[n].offset < end {
        WalkRefuses(placed, n, end, to);
        return false;
      }
      end := placed[n].offset + placed[n].stored;
    }
    ok := end <= to;
    assert placed != [] ==> end == placed[|placed| - 1].offset + placed[|placed| - 1].stored;
  }

  /******** The index ********/

  ghost function EncodedIndex(es: seq<Entry>): seq<byte> {
    WriteList(Items(), INDEX_MAGIC, es)
  }

  /** Writes an index: the front, then each entry. */
  method EncodeIndex(es: seq<Entry>) returns (b: seq<byte>)
    ensures b == EncodedIndex(es)
  {
    hide *;
    b := Front(INDEX_MAGIC, |es|);
    WroteNone();
    assert b + [] == b;
    for i := 0 to |es|
      invariant b == Front(INDEX_MAGIC, |es|) + WriteAll(Items(), es[..i])
    {
      assert es[..i + 1] == es[..i] + [es[i]];
      WroteNext(es[..i], es[i]);
      AppendAssoc(Front(INDEX_MAGIC, |es|), WriteAll(Items(), es[..i]), WriteItem(es[i]));
      b := b + WriteItem(es[i]);
    }
    assert es[..|es|] == es;
    EncodedUnfolds(es);
  }

  lemma WroteNone()
    ensures WriteAll(Items(), []) == []
  {
  }

  lemma WroteNext(es: seq<Entry>, e: Entry)
    ensures WriteAll(Items(), es + [e]) == WriteAll(Items(), es) + WriteItem(e)
  {
    WritePush(Items(), es, e);
  }

  lemma EncodedUnfolds(es: seq<Entry>)
    ensures EncodedIndex(es) == Front(INDEX_MAGIC, |es|) + WriteAll(Items(), es)
  {
  }

  lemma FrontLen(magic: Magic, n: nat)
    ensures |Front(magic, n)| == 6 + Nodes.UvarintLen(n)
  {
    VarintLen(n);
  }

  lemma ItemLen(e: Entry)
    ensures |WriteItem(e)| == 33 + Nodes.UvarintLen(e.offset) + Nodes.UvarintLen(e.stored) + Nodes.UvarintLen(e.raw)
  {
    VarintLen(e.offset);
    VarintLen(e.stored);
    VarintLen(e.raw);
    hide Varint, Nodes.UvarintLen, BitLen;
  }

  /** The length a sealed index of these entries has, computed without writing it. */
  method SealedIndexLen(es: seq<Entry>) returns (n: nat)
    ensures n == |EncodedIndex(es)| + OVERHEAD
  {
    hide *;
    n := 6 + Nodes.UvarintLen(|es|) + OVERHEAD;
    FrontLen(INDEX_MAGIC, |es|);
    WroteNone();
    for i := 0 to |es|
      invariant n == |Front(INDEX_MAGIC, |es|)| + |WriteAll(Items(), es[..i])| + OVERHEAD
    {
      assert es[..i + 1] == es[..i] + [es[i]];
      WroteNext(es[..i], es[i]);
      ItemLen(es[i]);
      n := n + 33 + Nodes.UvarintLen(es[i].offset) + Nodes.UvarintLen(es[i].stored) + Nodes.UvarintLen(es[i].raw);
    }
    assert es[..|es|] == es;
    EncodedUnfolds(es);
  }

  // The most a sealed index of n entries can take.
  function IndexBound(n: nat): nat {
    6 + 5 + n * 48 + OVERHEAD
  }

  lemma ShortVarint(v: nat)
    requires v < WORD32
    ensures 1 <= Nodes.UvarintLen(v) <= 5
  {
    var a, b, c, d := v / 128, v / 128 / 128, v / 128 / 128 / 128, v / 128 / 128 / 128 / 128;
    assert a < 0x200_0000 && b < 0x4_0000 && c < 0x800 && d < 0x10;
    assert Nodes.UvarintLen(d) == 1;
    assert Nodes.UvarintLen(c) <= 2;
    assert Nodes.UvarintLen(b) <= 3;
    assert Nodes.UvarintLen(a) <= 4;
  }

  ghost predicate AllNarrow(es: seq<Entry>) {
    forall i :: 0 <= i < |es| ==> es[i].offset < WORD32 && es[i].stored < WORD32 && es[i].raw < WORD32
  }

  lemma {:induction false} WrittenBounded(es: seq<Entry>, n: nat)
    requires AllNarrow(es) && n <= |es|
    ensures |WriteAll(Items(), es[..n])| <= n * 48
  {
    hide *;
    WroteNone();
    if n > 0 {
      WrittenBounded(es, n - 1);
      assert es[..n] == es[..n - 1] + [es[n - 1]];
      WroteNext(es[..n - 1], es[n - 1]);
      NarrowAt(es, n - 1);
      ItemLen(es[n - 1]);
      ShortVarint(es[n - 1].offset);
      ShortVarint(es[n - 1].stored);
      ShortVarint(es[n - 1].raw);
    } else {
      assert es[..0] == [];
    }
  }

  lemma NarrowAt(es: seq<Entry>, i: nat)
    requires AllNarrow(es) && i < |es|
    ensures es[i].offset < WORD32 && es[i].stored < WORD32 && es[i].raw < WORD32
  {
  }

  /** The bound holds for every index of 32-bit entries. */
  lemma IndexBounded(es: seq<Entry>)
    requires AllNarrow(es) && |es| < WORD32
    ensures |EncodedIndex(es)| + OVERHEAD <= IndexBound(|es|)
  {
    WrittenBounded(es, |es|);
    assert es[..|es|] == es;
    FrontLen(INDEX_MAGIC, |es|);
    ShortVarint(|es|);
    EncodedUnfolds(es);
    hide Front, EncodedIndex, WriteAll, Nodes.UvarintLen;
  }

  // What the index decoder answers: the entries listed, when they are accepted.
  ghost function Decoded(b: seq<byte>, indexOffset: nat): Option<seq<Entry>> {
    var es := Parse(Items(), INDEX_MAGIC, b);
    if es.Some? && Accepts(es.value, indexOffset) then Some(Narrowed(es.value)) else None
  }

  // So far: n entries of the count listed, each acceptable.
  ghost predicate Decoding(b: seq<byte>, at: nat, n: nat, indexOffset: nat, wide: seq<Entry>, off: nat) {
    ReadAll(Items(), b, at, n) == Some((wide, off)) && ItemsOk(wide, indexOffset)
  }

  // Entries refused whatever follows them.
  lemma Refused(b: seq<byte>, count: nat, at: nat, n: nat, indexOffset: nat)
    requires ReadFront(INDEX_MAGIC, b) == Some((count, at)) && n <= count
    requires ReadAll(Items(), b, at, n).None? || !ItemsOk(ReadAll(Items(), b, at, n).value.0, indexOffset)
    ensures Decoded(b, indexOffset).None?
  {
    hide ReadFront, ReadAll, ItemsOk;
    if ReadAll(Items(), b, at, n).None? {
      ReadsNone(Items(), b, at, n, count);
    } else if ReadAll(Items(), b, at, count).Some? {
      ReadsPrefix(Items(), b, at, n, count);
      var es := ReadAll(Items(), b, at, count).value.0;
      if ItemsOk(es, indexOffset) {
        ItemsOkPrefix(es, n, indexOffset);
      }
    }
  }

  lemma ItemsOkPrefix(es: seq<Entry>, n: nat, limit: nat)
    requires ItemsOk(es, limit) && n <= |es|
    ensures ItemsOk(es[..n], limit)
  {
    hide ItemOk;
  }

  lemma ItemsOkPush(es: seq<Entry>, e: Entry, limit: nat)
    requires ItemsOk(es, limit)
    ensures ItemsOk(es + [e], limit) <==> ItemOk(e, limit) && (es != [] ==> Rank(es[|es| - 1].hash) < Rank(e.hash))
  {
    hide ItemOk;
    var es' := es + [e];
    assert es'[|es|] == e && forall i :: 0 <= i < |es| ==> es'[i] == es[i];
    if es != [] && ItemsOk(es', limit) {
      assert Rank(es'[|es| - 1].hash) < Rank(es'[|es|].hash);
    }
  }

  lemma NextDecodes(b: seq<byte>, at: nat, n: nat, indexOffset: nat, wide: seq<Entry>, off: nat)
    requires Decoding(b, at, n, indexOffset, wide, off)
    ensures off <= |b| && |wide| == n && ItemsOk(wide, indexOffset)
    ensures var e := ReadItem(b[off..]);
            ReadAll(Items(), b, at, n + 1) == if e.None? then None else Some((wide + [e.value.0], off + e.value.1))
  {
    hide ReadItem, ItemsOk;
    ReadNext(Items(), b, at, n);
  }

  lemma DecodingStarts(b: seq<byte>, at: nat, indexOffset: nat)
    requires at <= |b|
    ensures Decoding(b, at, 0, indexOffset, [], at)
  {
  }

  lemma DecodingIs(b: seq<byte>, at: nat, n: nat, indexOffset: nat, wide: seq<Entry>, off: nat)
    requires ReadAll(Items(), b, at, n) == Some((wide, off)) && ItemsOk(wide, indexOffset)
    ensures Decoding(b, at, n, indexOffset, wide, off)
  {
  }

  lemma NarrowedPush(es: seq<Entry>, e: Entry)
    ensures Narrowed(es + [e]) == Narrowed(es) + [Narrow(e)]
  {
    hide Narrow;
  }

  lemma DecodingEnds(b: seq<byte>, count: nat, at: nat, indexOffset: nat, wide: seq<Entry>, off: nat)
    requires ReadFront(INDEX_MAGIC, b) == Some((count, at)) && Decoding(b, at, count, indexOffset, wide, off)
             && count <= MAX_CHUNKS
    ensures Decoded(b, indexOffset) == if off == |b|
            && Apart(Narrowed(wide), HEADER, indexOffset) then Some(Narrowed(wide)) else None
    ensures forall i :: 0 <= i < |Narrowed(wide)| ==> Narrowed(wide)[i].stored > 0
  {
    hide ReadFront, ReadAll, Apart, ByHash;
    forall i | 0 <= i < |wide| ensures Narrow(wide[i]).stored > 0 {
      assert ItemOk(wide[i], indexOffset);
    }
  }

  lemma NoFront(b: seq<byte>, indexOffset: nat)
    requires ReadFront(INDEX_MAGIC, b).None? || ReadFront(INDEX_MAGIC, b).value.0 > MAX_CHUNKS
    ensures Decoded(b, indexOffset).None?
  {
    hide ReadAll, ItemsOk, Apart;
  }

  /** The decoder, answering as specified on every byte string and every index offset. */
  method DecodeIndex(b: seq<byte>, indexOffset: nat) returns (r: Option<seq<Entry>>)
    ensures r == Decoded(b, indexOffset)
  {
    hide *;
    var d := new Reader(b);
    var count := NextFront(d, INDEX_MAGIC);
    if count.None? || count.value > MAX_CHUNKS {
      NoFront(b, indexOffset);
      return None;
    }
    ghost var at := d.off;
    ghost var wide: seq<Entry> := [];
    var es: seq<Entry> := [];
    d.RestIs();
    DecodingStarts(b, at, indexOffset);
    assert Narrowed([]) == [];
    for i := 0 to count.value
      invariant d.Valid() && fresh(d) && !d.err && d.b == b && Decoding(b, at, i, indexOffset, wide, d.off)
                && es == Narrowed(wide)
      invariant |es| == i == |wide| && forall j :: 0 <= j < |es| ==> es[j].hash == wide[j].hash
    {
      ghost var off := d.off;
      NextDecodes(b, at, i, indexOffset, wide, off);
      d.RestIs();
      var item := NextItem(d);
      if item.None? {
        Refused(b, count.value, at, i + 1, indexOffset);
        return None;
      }
      var e := item.value;
      ItemsOkPush(wide, e, indexOffset);
      var ok := TestItem(e, indexOffset);
      if !ok {
        Refused(b, count.value, at, i + 1, indexOffset);
        return None;
      }
      if i > 0 {
        var c := Compare(es[i - 1].hash, e.hash);
        if c >= 0 {
          Refused(b, count.value, at, i + 1, indexOffset);
          return None;
        }
      }
      DecodingIs(b, at, i + 1, indexOffset, wide + [e], d.off);
      NarrowedPush(wide, e);
      NarrowKeeps(e);
      wide := wide + [e];
      es := es + [Narrow(e)];
    }
    DecodingEnds(b, count.value, at, indexOffset, wide, d.off);
    if d.off != |b| {
      return None;
    }
    var apart := FramesApart(es, indexOffset);
    r := if apart then Some(es) else None;
  }

  lemma NarrowKeeps(e: Entry)
    ensures Narrow(e).hash == e.hash
  {
  }

  // The tests of one entry, in the order they are made.
  method TestItem(e: Entry, indexOffset: nat) returns (ok: bool)
    ensures ok <==> ItemOk(e, indexOffset)
  {
    if e.stored < OVERHEAD || e.offset > indexOffset {
      return false;
    }
    if e.raw > MAX_CHUNK {
      return false;
    }
    if e.codec == RAW && e.stored != e.raw + OVERHEAD {
      return false;
    }
    if e.codec == ZSTD && e.stored - OVERHEAD >= e.raw {
      return false;
    }
    ok := e.codec == RAW || e.codec == ZSTD;
  }

  /******** What the decoder accepts ********/

  lemma NarrowedSame(es: seq<Entry>)
    requires forall i :: 0 <= i < |es| ==> es[i].offset < WORD32 && es[i].stored < WORD32 && es[i].raw < WORD32
    ensures Narrowed(es) == es
  {
    forall i | 0 <= i < |es| ensures Narrow(es[i]) == es[i] {
    }
  }

  // Under 4 GiB and a seal, an entry whose offset does not fit 32 bits is refused either way.
  lemma AcceptsIsFits(es: seq<Entry>, indexOffset: nat)
    requires indexOffset < WORD32 + OVERHEAD
    ensures Accepts(es, indexOffset) <==> Fits(es, indexOffset)
    ensures Fits(es, indexOffset) ==> Narrowed(es) == es
  {
    if ItemsOk(es, indexOffset) {
      ItemsSmall(es, indexOffset);
      if i :| 0 <= i < |es| && es[i].offset >= WORD32 {
        assert Narrowed(es)[i].offset < HEADER;
      } else {
        NarrowedSame(es);
      }
    }
  }

  lemma ItemsSmall(es: seq<Entry>, limit: nat)
    requires ItemsOk(es, limit)
    ensures forall i ::
              0 <= i < |es| ==> es[i].offset <= limit && OVERHEAD <= es[i].stored < WORD32 && es[i].raw < WORD32
  {
    hide ByHash;
    forall i | 0 <= i < |es| ensures es[i].offset <= limit && OVERHEAD <= es[i].stored < WORD32 && es[i].raw < WORD32 {
      assert ItemOk(es[i], limit);
    }
  }

  /** The decoder reads exactly the indexes whose frames fit, if and only if the index starts below 4 GiB and a
      seal's length: above, one entry at 4 GiB fits and is refused. */
  lemma DecodesExactly(indexOffset: nat)
    requires indexOffset < WORD
    ensures (forall b, es :: Decoded(b, indexOffset) == Some(es) <==> Fits(es, indexOffset) && EncodedIndex(es) == b)
            <==> indexOffset < WORD32 + OVERHEAD
  {
    if indexOffset < WORD32 + OVERHEAD {
      forall b, es ensures Decoded(b, indexOffset) == Some(es) <==> Fits(es, indexOffset) && EncodedIndex(es) == b {
        DecodedIs(b, es, indexOffset);
      }
    } else {
      var e := Entry(seq(32, i => 0), WORD32, OVERHEAD, 0, RAW);
      FarEntry(e, indexOffset);
      var b := EncodedIndex([e]);
      assert !(Decoded(b, indexOffset) == Some([e]));
    }
  }

  lemma FarEntry(e: Entry, indexOffset: nat)
    requires e.offset == WORD32 && e.stored == OVERHEAD && e.raw == 0 && e.codec == RAW
             && WORD32 + OVERHEAD <= indexOffset
    ensures Fits([e], indexOffset) && Decoded(EncodedIndex([e]), indexOffset).None?
  {
    FarFits(e, indexOffset);
    FarRefused(e, indexOffset);
    FitsWide([e], WORD32 + OVERHEAD);
    ItemsLawful();
    hide *;
    ParseIs(Items(), INDEX_MAGIC, WriteList(Items(), INDEX_MAGIC, [e]), [e]);
    EncodedIs([e]);
    OnlyAccepted(EncodedIndex([e]), indexOffset, [e]);
  }

  lemma EncodedIs(es: seq<Entry>)
    ensures EncodedIndex(es) == WriteList(Items(), INDEX_MAGIC, es)
  {
  }

  lemma OnlyAccepted(b: seq<byte>, indexOffset: nat, es: seq<Entry>)
    requires Parse(Items(), INDEX_MAGIC, b) == Some(es) && !Accepts(es, indexOffset)
    ensures Decoded(b, indexOffset).None?
  {
    hide Parse, Accepts;
  }

  lemma FarFits(e: Entry, indexOffset: nat)
    requires e.offset == WORD32 && e.stored == OVERHEAD && e.raw == 0 && e.codec == RAW
             && WORD32 + OVERHEAD <= indexOffset
    ensures Fits([e], indexOffset) && Fits([e], WORD32 + OVERHEAD)
  {
  }

  lemma FarRefused(e: Entry, indexOffset: nat)
    requires e.offset == WORD32
    ensures !Accepts([e], indexOffset)
  {
    hide ItemsOk;
    assert Narrowed([e])[0].offset == 0;
  }

  lemma DecodedIs(b: seq<byte>, es: seq<Entry>, indexOffset: nat)
    requires indexOffset < WORD32 + OVERHEAD
    ensures Decoded(b, indexOffset) == Some(es) <==> Fits(es, indexOffset) && EncodedIndex(es) == b
  {
    ItemsLawful();
    hide Lawful, WriteList, Parse, Apart, ByHash;
    var p := Parse(Items(), INDEX_MAGIC, b);
    if p.Some? {
      AcceptsIsFits(p.value, indexOffset);
      ParseIs(Items(), INDEX_MAGIC, b, p.value);
    }
    if Fits(es, indexOffset) && EncodedIndex(es) == b {
      FitsWide(es, indexOffset);
      ParseIs(Items(), INDEX_MAGIC, b, es);
      AcceptsIsFits(es, indexOffset);
    }
  }

  lemma FitsWide(es: seq<Entry>, indexOffset: nat)
    requires Fits(es, indexOffset) && indexOffset < WORD
    ensures AllOk(Items(), es) && |es| < WORD
  {
    hide ByHash, Apart;
    ItemsSmall(es, indexOffset);
    forall i | 0 <= i < |es| ensures Items().ok(es[i]) {
    }
  }
}
