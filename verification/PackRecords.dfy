/** Index objects: records of which packs hold which chunks. The decoder accepts exactly the sorted lists of records
    whose frames fit the packs they describe, and every finished pack's own description is such a record. */
module PackRecords {
  import opened Keys
  import opened Basics
  import opened Refs
  import NodeCodec
  import opened Listings
  import opened PackIndex
  import opened Packs

  const PLAIN_MAGIC: Magic := [0x53, 0x43, 0x49, 0x50]
  const MAX_PACKS := 0x1_0000

  /******** One record ********/

  ghost predicate RecordWide(p: Info) {
    p.size < NodeCodec.WORD && |p.entries| < NodeCodec.WORD && AllOk(Items(), p.entries)
  }

  function Lead(p: Info): seq<byte> {
    p.name + p.salt + NodeCodec.Varint(p.size) + NodeCodec.Varint(|p.entries|)
  }

  ghost function WriteRecord(p: Info): seq<byte> {
    Lead(p) + WriteAll(Items(), p.entries)
  }

  // A record's name, salt, size and count of entries, and where the entries start.
  function ReadLead(b: seq<byte>): (r: Option<(Hash, Salt, nat, nat, nat)>)
    ensures r.Some? ==> r.value.4 <= |b| && r.value.2 < NodeCodec.WORD && r.value.3 < NodeCodec.WORD
  {
    if |b| < 64 then None
    else
      var size := NodeCodec.ReadU64(b[64..]);
      if size.None? then None
      else
        var at := 64 + size.value.1;
        var count := NodeCodec.ReadU64(b[at..]);
        if count.None? then None else Some((b[..32], b[32..64], size.value.0, count.value.0, at + count.value.1))
  }

  ghost function ReadRecord(b: seq<byte>): Option<(Info, nat)> {
    var l := ReadLead(b);
    if l.None? then None
    else
      var es := ReadAll(Items(), b, l.value.4, l.value.3);
      if es.None? then None else Some((Info(l.value.0, l.value.1, l.value.2, es.value.0), es.value.1))
  }

  lemma LeadLayout(n: Hash, s: Salt, z: seq<byte>, k: seq<byte>, rest: seq<byte>)
    ensures var b := n + s + z + k + rest;
            && |b| == 64 + |z| + |k| + |rest| && b[..32] == n && b[32..64] == s && b[64..] == z + (k + rest)
            && b[64 + |z|..] == k + rest && b[64 + |z| + |k|..] == rest
  {
  }

  lemma LeadComplete(p: Info, rest: seq<byte>)
    requires p.size < NodeCodec.WORD && |p.entries| < NodeCodec.WORD
    ensures ReadLead(Lead(p) + rest) == Some((p.name, p.salt, p.size, |p.entries|, |Lead(p)|))
  {
    hide NodeCodec.Varint, NodeCodec.ReadU64;
    var z, k := NodeCodec.Varint(p.size), NodeCodec.Varint(|p.entries|);
    LeadLayout(p.name, p.salt, z, k, rest);
    U64Complete(p.size, k + rest);
    U64Complete(|p.entries|, rest);
  }

  lemma LeadSound(b: seq<byte>, p: Info)
    requires ReadLead(b).Some? && var l := ReadLead(b).value;
             p.name == l.0 && p.salt == l.1 && p.size == l.2 && |p.entries| == l.3
    ensures b[..ReadLead(b).value.4] == Lead(p)
  {
    hide NodeCodec.Varint, NodeCodec.ReadU64;
    var size := NodeCodec.ReadU64(b[64..]).value;
    var count := NodeCodec.ReadU64(b[64 + size.1..]).value;
    NodeCodec.U64Sound(b[64..]);
    NodeCodec.U64Sound(b[64 + size.1..]);
    LeadSlices(b, size.1, count.1);
  }

  lemma LeadSlices(b: seq<byte>, i: nat, j: nat)
    requires 64 + i + j <= |b|
    ensures b[..64 + i + j] == b[..32] + b[32..64] + b[64..][..i] + b[64 + i..][..j]
  {
  }

  lemma RecordComplete(p: Info, rest: seq<byte>)
    requires RecordWide(p)
    ensures ReadRecord(WriteRecord(p) + rest) == Some((p, |WriteRecord(p)|))
  {
    hide Lead, ReadLead, ReadAll, WriteAll, AllOk, Lawful;
    ItemsLawful();
    var es := WriteAll(Items(), p.entries);
    LeadComplete(p, es + rest);
    AppendAssoc(Lead(p), es, rest);
    var b := Lead(p) + (es + rest);
    assert b[|Lead(p)|..] == es + rest;
    AllComplete(Items(), b, |Lead(p)|, p.entries, rest);
  }

  lemma RecordSound(b: seq<byte>)
    requires ReadRecord(b).Some?
    ensures var r := ReadRecord(b).value; r.1 <= |b| && b[..r.1] == WriteRecord(r.0) && RecordWide(r.0)
  {
    hide Lead, ReadLead, ReadAll, WriteAll, AllOk, Lawful;
    ItemsLawful();
    var (p, end) := ReadRecord(b).value;
    var l := ReadLead(b).value;
    AllSound(Items(), b, l.4, l.3);
    LeadSound(b, p);
    assert b[..end] == b[..l.4] + b[l.4..end];
  }

  // How records are listed.
  ghost function Records(): Coder<Info> {
    Coder(p => RecordWide(p), p => WriteRecord(p), b => ReadRecord(b))
  }

  lemma RecordsLawful()
    ensures Lawful(Records())
  {
    hide RecordWide, WriteRecord, ReadRecord;
    var c := Records();
    forall x, rest | c.ok(x) ensures c.read(c.write(x) + rest) == Some((x, |c.write(x)|)) {
      RecordComplete(x, rest);
    }
    forall b | c.read(b).Some? ensures c.read(b).value.1 <= |b| && b[..c.read(b).value.1] == c.write(c.read(b).value.0)
      && c.ok(c.read(b).value.0) {
      RecordSound(b);
    }
  }

  /******** Which records are accepted ********/

  /** A record's frames fit a pack of its size, whose index starts where these entries' own index would put it. */
  ghost predicate RecordOk(p: Info) {
    && HEADER + TRAILER <= p.size <= MAX_PACK
    && |EncodedIndex(p.entries)| + OVERHEAD + TRAILER <= p.size
    && Fits(p.entries, p.size - TRAILER - (|EncodedIndex(p.entries)| + OVERHEAD))
  }

  // Entries inside the frames region: what is tested of each as it is read.
  ghost predicate InRegion(es: seq<Entry>, end: nat) {
    ItemsOk(es, end) && forall i :: 0 <= i < |es| ==> es[i].offset + es[i].stored <= end
  }

  lemma RegionPush(es: seq<Entry>, e: Entry, end: nat)
    requires InRegion(es, end)
    ensures InRegion(es + [e], end) <==>
              ItemOk(e, end) && e.offset + e.stored <= end && (es != [] ==> Rank(es[|es| - 1].hash) < Rank(e.hash))
  {
    hide ItemOk, ItemsOk;
    ItemsOkPush(es, e, end);
    var es' := es + [e];
    assert es'[|es|] == e && forall i :: 0 <= i < |es| ==> es'[i] == es[i];
  }

  lemma RegionPrefix(es: seq<Entry>, n: nat, end: nat)
    requires InRegion(es, end) && n <= |es|
    ensures InRegion(es[..n], end)
  {
    hide ItemOk, ItemsOk;
    ItemsOkPrefix(es, n, end);
  }

  // An accepted record's entries are all inside its frames region.
  lemma OkInRegion(p: Info)
    requires RecordOk(p)
    ensures HEADER + TRAILER <= p.size && InRegion(p.entries, p.size - TRAILER) && |p.entries| <= MAX_CHUNKS
  {
    hide EncodedIndex, ByHash;
    var at := p.size - TRAILER - (|EncodedIndex(p.entries)| + OVERHEAD);
    forall i | 0 <= i < |p.entries| ensures ItemOk(p.entries[i], p.size - TRAILER)
      && p.entries[i].offset + p.entries[i].stored <= at {
      assert ItemOk(p.entries[i], at);
    }
  }

  // Inside the region, what is left to test is that the frames lie apart below the index.
  lemma RegionDecides(p: Info)
    requires HEADER + TRAILER <= p.size <= MAX_PACK && |p.entries| <= MAX_CHUNKS
             && InRegion(p.entries, p.size - TRAILER)
    ensures var index := |EncodedIndex(p.entries)| + OVERHEAD;
            RecordOk(p) <==> index <= p.size - TRAILER && Apart(p.entries, HEADER, p.size - TRAILER - index)
    ensures forall i :: 0 <= i < |p.entries| ==> p.entries[i].stored > 0
  {
    hide EncodedIndex, ByHash;
    forall i | 0 <= i < |p.entries| ensures p.entries[i].stored > 0 {
      assert ItemOk(p.entries[i], p.size - TRAILER);
    }
    var index := |EncodedIndex(p.entries)| + OVERHEAD;
    if index <= p.size - TRAILER && Apart(p.entries, HEADER, p.size - TRAILER - index) {
      forall i | 0 <= i < |p.entries| ensures ItemOk(p.entries[i], p.size - TRAILER - index) {
        assert ItemOk(p.entries[i], p.size - TRAILER);
      }
    }
  }

  /** Whether a record's frames lie apart, below the index its entries make. */
  method FramesFit(es: seq<Entry>, size: nat) returns (ok: bool)
    requires TRAILER <= size && forall i :: 0 <= i < |es| ==> es[i].stored > 0
    ensures var index := |EncodedIndex(es)| + OVERHEAD;
            ok <==> index <= size - TRAILER && Apart(es, HEADER, size - TRAILER - index)
  {
    hide *;
    var index := SealedIndexLen(es);
    if index > size - TRAILER {
      return false;
    }
    ok := FramesApart(es, size - TRAILER - index);
  }

  /******** Reading records ********/

  method NextLead(r: NodeCodec.Reader) returns (l: Option<(Hash, Salt, nat, nat)>)
    requires r.Valid() && !r.err
    modifies r
    ensures r.Valid() && (l.Some? <==> ReadLead(old(r.Rest())).Some?)
    ensures l.Some? ==>
              && !r.err && r.off >= old(r.off)
              && ReadLead(old(r.Rest())) == Some((l.value.0, l.value.1, l.value.2, l.value.3, r.off - old(r.off)))
  {
    hide NodeCodec.ReadU64;
    ghost var o := r.off;
    var name := r.Fixed(32);
    if r.err {
      return None;
    }
    DropTwice(r.b, o, 32);
    var salt := r.Fixed(32);
    if r.err {
      return None;
    }
    DropTwice(r.b, o, 64);
    assert r.b[o..][32..][..32] == r.b[o..][32..64];
    var size := r.Uvarint();
    if r.err {
      return None;
    }
    DropTwice(r.b, o, r.off - o);
    var count := r.Uvarint();
    l := if r.err then None else Some((name, salt, size, count));
  }

  // n entries read from a place, each inside the region, in order.
  ghost predicate Taken(b: seq<byte>, at: nat, n: nat, end: nat, es: seq<Entry>, off: nat) {
    ReadAll(Items(), b, at, n) == Some((es, off)) && InRegion(es, end)
  }

  lemma TakenMeans(b: seq<byte>, at: nat, n: nat, end: nat, es: seq<Entry>, off: nat)
    requires Taken(b, at, n, end, es, off)
    ensures off <= |b| && |es| == n && InRegion(es, end) && ReadAll(Items(), b, at, n) == Some((es, off))
    ensures var e := ReadItem(b[off..]);
            ReadAll(Items(), b, at, n + 1) == if e.None? then None else Some((es + [e.value.0], off + e.value.1))
  {
    hide ReadItem, InRegion;
    ReadNext(Items(), b, at, n);
  }

  lemma TakenIs(b: seq<byte>, at: nat, n: nat, end: nat, es: seq<Entry>, off: nat)
    requires ReadAll(Items(), b, at, n) == Some((es, off)) && InRegion(es, end)
    ensures Taken(b, at, n, end, es, off)
  {
  }

  lemma TakenStarts(b: seq<byte>, at: nat, end: nat)
    requires at <= |b|
    ensures Taken(b, at, 0, end, [], at)
  {
  }

  // A list some of whose first entries fall outside the region is no accepted record's.
  ghost predicate NoneIn(b: seq<byte>, at: nat, count: nat, end: nat) {
    var es := ReadAll(Items(), b, at, count);
    es.Some? ==> !InRegion(es.value.0, end)
  }

  lemma NoneInRegion(b: seq<byte>, at: nat, count: nat, n: nat, end: nat)
    requires n <= count && NoneIn(b, at, n, end)
    ensures NoneIn(b, at, count, end)
  {
    hide ReadAll, InRegion;
    if ReadAll(Items(), b, at, n).None? {
      ReadsNone(Items(), b, at, n, count);
    } else if ReadAll(Items(), b, at, count).Some? {
      ReadsPrefix(Items(), b, at, n, count);
      var es := ReadAll(Items(), b, at, count).value.0;
      if InRegion(es, end) {
        RegionPrefix(es, n, end);
      }
    }
  }

  lemma NoneNext(b: seq<byte>, at: nat, n: nat, end: nat)
    requires ReadAll(Items(), b, at, n).None? || !InRegion(ReadAll(Items(), b, at, n).value.0, end)
    ensures NoneIn(b, at, n, end)
  {
  }

  // The tests made of one entry, in their order.
  method TestRegion(e: Entry, end: nat) returns (ok: bool)
    ensures ok <==> ItemOk(e, end) && e.offset + e.stored <= end
  {
    ok := e.offset <= end && e.stored <= end - e.offset && e.raw <= MAX_CHUNK
          && (e.codec == RAW ==> e.stored == e.raw + OVERHEAD)
          && (e.codec == ZSTD ==> e.stored >= OVERHEAD && e.stored < e.raw + OVERHEAD)
          && (e.codec == RAW || e.codec == ZSTD);
  }

  method NextEntries(r: NodeCodec.Reader, count: nat, end: nat) returns (out: Option<seq<Entry>>)
    requires r.Valid() && !r.err
    modifies r
    ensures r.Valid()
    ensures out.Some? ==> !r.err && Taken(r.b, old(r.off), count, end, out.value, r.off)
    ensures out.None? ==> NoneIn(r.b, old(r.off), count, end)
  {
    hide *;
    ghost var at := r.off;
    var es: seq<Entry> := [];
    r.RestIs();
    TakenStarts(r.b, at, end);
    for j := 0 to count
      invariant r.Valid() && !r.err && Taken(r.b, at, j, end, es, r.off) && |es| == j
    {
      TakenMeans(r.b, at, j, end, es, r.off);
      r.RestIs();
      var item := NextItem(r);
      if item.None? {
        NoneNext(r.b, at, j + 1, end);
        NoneInRegion(r.b, at, count, j + 1, end);
        return None;
      }
      var e := item.value;
      RegionPush(es, e, end);
      var ok := TestRegion(e, end);
      if ok && j > 0 {
        var c := Compare(es[j - 1].hash, e.hash);
        ok := c < 0;
      }
      if !ok {
        NoneNext(r.b, at, j + 1, end);
        NoneInRegion(r.b, at, count, j + 1, end);
        return None;
      }
      TakenIs(r.b, at, j + 1, end, es + [e], r.off);
      es := es + [e];
    }
    out := Some(es);
  }

  // A record in its place: accepted, and named after the one before it.
  ghost predicate Follows(prev: Option<Hash>, p: Info) {
    RecordOk(p) && (prev.Some? ==> Rank(prev.value) < Rank(p.name))
  }

  // What reading a record after another gives.
  ghost predicate Next(b: seq<byte>, prev: Option<Hash>, p: Option<Info>, n: nat) {
    var r := ReadRecord(b);
    if p.Some? then r == Some((p.value, n)) && Follows(prev, p.value) else r.Some? ==> !Follows(prev, r.value.0)
  }

  method NextRecord(r: NodeCodec.Reader, prev: Option<Hash>) returns (p: Option<Info>)
    requires r.Valid() && !r.err
    modifies r
    ensures r.Valid() && (p.Some? ==> !r.err && r.off >= old(r.off))
    ensures Next(old(r.Rest()), prev, p, if p.Some? then r.off - old(r.off) else 0)
  {
    hide *;
    ghost var b, o := r.Rest(), r.off;
    r.RestIs();
    var l := NextLead(r);
    if l.None? {
      LeadRefused(b, prev);
      return None;
    }
    var (name, salt, size, count) := l.value;
    ghost var at := r.off - o;
    var late := false;
    if prev.Some? {
      var c := Compare(prev.value, name);
      late := c >= 0;
    }
    if size < HEADER + TRAILER || size > MAX_PACK || count > MAX_CHUNKS || late {
      BoundsRefused(b, prev, name, salt, size, count, at);
      return None;
    }
    r.RestIs();
    var es := NextEntries(r, count, size - TRAILER);
    if es.None? {
      RegionRefused(r.b, o, prev, name, salt, size, count, at);
      return None;
    }
    RecordRead(r.b, o, name, salt, size, count, at, es.value, r.off);
    var info := Info(name, salt, size, es.value);
    RegionDecides(info);
    var fit := FramesFit(es.value, size);
    FollowsIs(prev, info);
    NextIs(b, prev, info, r.off - o);
    p := if fit then Some(info) else None;
  }

  lemma LeadRefused(b: seq<byte>, prev: Option<Hash>)
    requires ReadLead(b).None?
    ensures Next(b, prev, None, 0)
  {
  }

  lemma BoundsRefused(b: seq<byte>, prev: Option<Hash>, name: Hash, salt: Salt, size: nat, count: nat, at: nat)
    requires ReadLead(b) == Some((name, salt, size, count, at))
    requires size < HEADER + TRAILER || size > MAX_PACK || count > MAX_CHUNKS
             || (prev.Some? && Rank(prev.value) >= Rank(name))
    ensures Next(b, prev, None, 0)
  {
    hide ReadLead, EncodedIndex, ItemsOk, Apart;
  }

  lemma RegionRefused(b: seq<byte>, o: nat, prev: Option<Hash>, name: Hash, salt: Salt, size: nat, count: nat, at: nat)
    requires o <= |b| && ReadLead(b[o..]) == Some((name, salt, size, count, at)) && TRAILER <= size
    requires NoneIn(b, o + at, count, size - TRAILER)
    ensures Next(b[o..], prev, None, 0)
  {
    hide ReadLead, ReadAll, RecordOk, InRegion;
    ReadsShift(Items(), b, o, at, count);
    var r := ReadRecord(b[o..]);
    if r.Some? && RecordOk(r.value.0) {
      OkInRegion(r.value.0);
    }
  }

  lemma RecordRead(b: seq<byte>, o: nat, name: Hash, salt: Salt, size: nat, count: nat, at: nat, es: seq<Entry>,
                   off: nat)
    requires o <= |b| && ReadLead(b[o..]) == Some((name, salt, size, count, at)) && TRAILER <= size
    requires Taken(b, o + at, count, size - TRAILER, es, off)
    ensures o <= off && ReadRecord(b[o..]) == Some((Info(name, salt, size, es), off - o)) && |es| == count
            && InRegion(es, size - TRAILER)
  {
    hide ReadLead, ReadAll, InRegion;
    ReadsShift(Items(), b, o, at, count);
  }

  lemma FollowsIs(prev: Option<Hash>, p: Info)
    ensures Follows(prev, p) <==> RecordOk(p) && (prev.Some? ==> Rank(prev.value) < Rank(p.name))
  {
  }

  lemma NextIs(b: seq<byte>, prev: Option<Hash>, p: Info, n: nat)
    requires ReadRecord(b) == Some((p, n))
    ensures Follows(prev, p) ==> Next(b, prev, Some(p), n)
    ensures !Follows(prev, p) ==> Next(b, prev, None, 0)
  {
  }

  /******** Index objects ********/

  ghost predicate ByName(ps: seq<Info>) {
    forall i, j :: 0 <= i < j < |ps| ==> Rank(ps[i].name) < Rank(ps[j].name)
  }

  ghost predicate AllAccepted(ps: seq<Info>) {
    (forall i :: 0 <= i < |ps| ==> RecordOk(ps[i])) && ByName(ps)
  }

  ghost function EncodedPlain(ps: seq<Info>): seq<byte> {
    WriteList(Records(), PLAIN_MAGIC, ps)
  }

  // What the decoder answers: the records listed, when all of them are accepted.
  ghost function DecodedPlain(b: seq<byte>): Option<seq<Info>> {
    var ps := Parse(Records(), PLAIN_MAGIC, b);
    if ps.Some? && |ps.value| <= MAX_PACKS && AllAccepted(ps.value) then ps else None
  }

  ghost predicate Decoding(b: seq<byte>, at: nat, n: nat, ps: seq<Info>, off: nat) {
    ReadAll(Records(), b, at, n) == Some((ps, off)) && AllAccepted(ps)
  }

  function Last(ps: seq<Info>): Option<Hash> {
    if ps == [] then None else Some(ps[|ps| - 1].name)
  }

  lemma AcceptedPush(ps: seq<Info>, p: Info)
    requires AllAccepted(ps)
    ensures AllAccepted(ps + [p]) <==> Follows(Last(ps), p)
  {
    hide RecordOk;
    var ps' := ps + [p];
    assert ps'[|ps|] == p && forall i :: 0 <= i < |ps| ==> ps'[i] == ps[i];
    if ps != [] && AllAccepted(ps') {
      assert Rank(ps'[|ps| - 1].name) < Rank(ps'[|ps|].name);
    }
  }

  lemma AcceptedPrefix(ps: seq<Info>, n: nat)
    requires AllAccepted(ps) && n <= |ps|
    ensures AllAccepted(ps[..n])
  {
    hide RecordOk;
  }

  lemma DecodingStarts(b: seq<byte>, at: nat)
    requires at <= |b|
    ensures Decoding(b, at, 0, [], at)
  {
  }

  lemma DecodingMeans(b: seq<byte>, at: nat, n: nat, ps: seq<Info>, off: nat)
    requires Decoding(b, at, n, ps, off)
    ensures off <= |b| && |ps| == n && AllAccepted(ps)
    ensures var p := ReadRecord(b[off..]);
            ReadAll(Records(), b, at, n + 1) ==
              if p.None? || p.value.1 > |b| - off then None else Some((ps + [p.value.0], off + p.value.1))
  {
    hide ReadRecord, AllAccepted;
    ReadNext(Records(), b, at, n);
  }

  lemma Stopped(b: seq<byte>, count: nat, at: nat, n: nat, ps: seq<Info>, off: nat)
    requires ReadFront(PLAIN_MAGIC, b) == Some((count, at)) && n < count && Decoding(b, at, n, ps, off)
    requires off <= |b| && Next(b[off..], Last(ps), None, 0)
    ensures DecodedPlain(b).None?
  {
    hide ReadFront, ReadAll, ReadRecord, AllAccepted, Follows;
    DecodingMeans(b, at, n, ps, off);
    var next := ReadAll(Records(), b, at, n + 1);
    if next.None? {
      ReadsNone(Records(), b, at, n + 1, count);
    } else if ReadAll(Records(), b, at, count).Some? {
      AcceptedPush(ps, ReadRecord(b[off..]).value.0);
      ReadsPrefix(Records(), b, at, n + 1, count);
      var all := ReadAll(Records(), b, at, count).value.0;
      if AllAccepted(all) {
        AcceptedPrefix(all, n + 1);
      }
    }
  }

  lemma Decodes(b: seq<byte>, at: nat, n: nat, ps: seq<Info>, off: nat, p: Info, k: nat)
    requires Decoding(b, at, n, ps, off) && off <= |b| && Next(b[off..], Last(ps), Some(p), k) && off + k <= |b|
    ensures Decoding(b, at, n + 1, ps + [p], off + k)
  {
    hide ReadAll, ReadRecord, AllAccepted, Follows;
    DecodingMeans(b, at, n, ps, off);
    AcceptedPush(ps, p);
  }

  lemma DecodingEnds(b: seq<byte>, count: nat, at: nat, ps: seq<Info>, off: nat)
    requires ReadFront(PLAIN_MAGIC, b) == Some((count, at)) && Decoding(b, at, count, ps, off) && count <= MAX_PACKS
    ensures DecodedPlain(b) == if off == |b| then Some(ps) else None
  {
    hide ReadFront, ReadAll, AllAccepted;
  }

  lemma NoFrontPlain(b: seq<byte>)
    requires ReadFront(PLAIN_MAGIC, b).None? || ReadFront(PLAIN_MAGIC, b).value.0 > MAX_PACKS
    ensures DecodedPlain(b).None?
  {
    hide ReadAll, AllAccepted;
  }

  /** Parses the records of an index object. */
  method DecodePlain(b: seq<byte>) returns (r: Option<seq<Info>>)
    ensures r == DecodedPlain(b)
  {
    hide *;
    var d := new NodeCodec.Reader(b);
    var count := NextFront(d, PLAIN_MAGIC);
    if count.None? || count.value > MAX_PACKS {
      NoFrontPlain(b);
      return None;
    }
    ghost var at := d.off;
    var ps: seq<Info> := [];
    d.RestIs();
    DecodingStarts(b, at);
    for i := 0 to count.value
      invariant d.Valid() && fresh(d) && !d.err && d.b == b && Decoding(b, at, i, ps, d.off)
    {
      ghost var off := d.off;
      d.RestIs();
      var p := NextRecord(d, Last(ps));
      if p.None? {
        Stopped(b, count.value, at, i, ps, off);
        return None;
      }
      d.RestIs();
      Decodes(b, at, i, ps, off, p.value, d.off - off);
      ps := ps + [p.value];
    }
    DecodingEnds(b, count.value, at, ps, d.off);
    r := if d.off != |b| then None else Some(ps);
  }

  lemma OkWide(p: Info)
    requires RecordOk(p)
    ensures RecordWide(p)
  {
    hide EncodedIndex, Apart, ByHash;
    var at := p.size - TRAILER - (|EncodedIndex(p.entries)| + OVERHEAD);
    FitsWide(p.entries, at);
  }

  lemma AllOkWide(ps: seq<Info>)
    requires AllAccepted(ps)
    ensures AllOk(Records(), ps)
  {
    hide RecordOk, RecordWide;
    forall i | 0 <= i < |ps| ensures Records().ok(ps[i]) {
      OkWide(ps[i]);
    }
  }

  /** Every byte string is refused or is the encoding of exactly the records returned, and every sorted list of
      records whose frames fit is accepted. */
  lemma PlainExactly(b: seq<byte>, ps: seq<Info>)
    ensures DecodedPlain(b) == Some(ps) <==> |ps| <= MAX_PACKS && AllAccepted(ps) && EncodedPlain(ps) == b
  {
    RecordsLawful();
    hide Lawful, WriteList, Parse, AllAccepted;
    var p := Parse(Records(), PLAIN_MAGIC, b);
    if p.Some? {
      ParseIs(Records(), PLAIN_MAGIC, b, p.value);
    }
    if |ps| <= MAX_PACKS && AllAccepted(ps) && EncodedPlain(ps) == b {
      AllOkWide(ps);
      ParseIs(Records(), PLAIN_MAGIC, b, ps);
    }
  }

  // The records of a list, in the order an object lists them.
  ghost predicate SortedFrom(ps: seq<Info>, sorted: seq<Info>) {
    multiset(sorted) == multiset(ps) && Ascends(sorted, (p: Info) => p.name)
  }

  // Writes one record.
  method AppendRecord(b: seq<byte>, p: Info) returns (out: seq<byte>)
    ensures out == b + WriteRecord(p)
  {
    hide *;
    out := b + Lead(p);
    WroteNone();
    assert out == b + (Lead(p) + []);
    for i := 0 to |p.entries|
      invariant out == b + (Lead(p) + WriteAll(Items(), p.entries[..i]))
    {
      var e := p.entries[i];
      assert p.entries[..i + 1] == p.entries[..i] + [e];
      WroteNext(p.entries[..i], e);
      AppendAssoc(Lead(p), WriteAll(Items(), p.entries[..i]), WriteItem(e));
      AppendAssoc(b, Lead(p) + WriteAll(Items(), p.entries[..i]), WriteItem(e));
      out := out + WriteItem(e);
    }
    assert p.entries[..|p.entries|] == p.entries;
    RecordUnfolds(p);
  }

  lemma RecordUnfolds(p: Info)
    ensures WriteRecord(p) == Lead(p) + WriteAll(Items(), p.entries)
  {
  }

  lemma RecordsNext(ps: seq<Info>, p: Info)
    ensures WriteAll(Records(), ps + [p]) == WriteAll(Records(), ps) + WriteRecord(p)
  {
    WritePush(Records(), ps, p);
  }

  lemma RecordsNone()
    ensures WriteAll(Records(), []) == []
  {
  }

  lemma PlainUnfolds(ps: seq<Info>)
    ensures EncodedPlain(ps) == Front(PLAIN_MAGIC, |ps|) + WriteAll(Records(), ps)
  {
  }

  lemma SortedIs(ps: seq<Info>, sorted: seq<Info>)
    requires multiset(sorted) == multiset(ps) && Ascends(sorted, (p: Info) => p.name)
    ensures SortedFrom(ps, sorted)
  {
  }

  /** Writes the records of an index object, sorted by pack. */
  method EncodePlain(ps: seq<Info>) returns (b: seq<byte>)
    ensures exists sorted :: SortedFrom(ps, sorted) && b == EncodedPlain(sorted)
  {
    hide *;
    var sorted := SortByKey(ps, (p: Info) => p.name);
    SortedIs(ps, sorted);
    b := Front(PLAIN_MAGIC, |sorted|);
    RecordsNone();
    assert b + [] == b;
    for i := 0 to |sorted|
      invariant b == Front(PLAIN_MAGIC, |sorted|) + WriteAll(Records(), sorted[..i])
    {
      assert sorted[..i + 1] == sorted[..i] + [sorted[i]];
      RecordsNext(sorted[..i], sorted[i]);
      AppendAssoc(Front(PLAIN_MAGIC, |sorted|), WriteAll(Records(), sorted[..i]), WriteRecord(sorted[i]));
      b := AppendRecord(b, sorted[i]);
    }
    assert sorted[..|sorted|] == sorted;
    PlainUnfolds(sorted);
  }

  ghost predicate DistinctNames(ps: seq<Info>) {
    forall i, j :: 0 <= i < j < |ps| ==> ps[i].name != ps[j].name
  }

  lemma TwiceCounts(ps: seq<Info>, i: nat, j: nat)
    requires i < j < |ps| && ps[i] == ps[j]
    ensures multiset(ps)[ps[i]] >= 2
  {
    assert ps == ps[..j] + [ps[j]] + ps[j + 1..];
    assert ps[i] in ps[..j];
  }

  lemma {:induction false} OnceCounts(ps: seq<Info>, i: nat)
    requires DistinctNames(ps) && i < |ps|
    ensures multiset(ps)[ps[i]] == 1
  {
    var a, b := ps[..i], ps[i + 1..];
    assert ps == a + [ps[i]] + b;
    assert multiset(ps) == multiset(a) + multiset{ps[i]} + multiset(b);
    assert ps[i] !in a && ps[i] !in b;
  }

  lemma SortedAccepted(ps: seq<Info>, sorted: seq<Info>)
    requires SortedFrom(ps, sorted) && DistinctNames(ps) && forall i :: 0 <= i < |ps| ==> RecordOk(ps[i])
    ensures AllAccepted(sorted) && |sorted| == |ps|
  {
    hide RecordOk;
    assert |multiset(sorted)| == |multiset(ps)|;
    forall i | 0 <= i < |sorted| ensures RecordOk(sorted[i]) {
      assert sorted[i] in multiset(ps);
    }
    forall i, j | 0 <= i < j < |sorted| ensures Rank(sorted[i].name) < Rank(sorted[j].name) {
      SortedNames(ps, sorted, i, j);
      RankOrders(sorted[i].name, sorted[j].name);
    }
  }

  lemma SortedNames(ps: seq<Info>, sorted: seq<Info>, i: nat, j: nat)
    requires multiset(sorted) == multiset(ps) && DistinctNames(ps) && i < j < |sorted|
    ensures sorted[i].name != sorted[j].name
  {
    if sorted[i].name == sorted[j].name {
      assert sorted[i] in multiset(ps) && sorted[j] in multiset(ps);
      var a :| 0 <= a < |ps| && ps[a] == sorted[i];
      var b :| 0 <= b < |ps| && ps[b] == sorted[j];
      assert a == b;
      TwiceCounts(sorted, i, j);
      OnceCounts(ps, a);
    }
  }

  /** A list of accepted records of different packs reads back from its encoding, sorted by pack and unchanged. */
  lemma RecordsReadBack(ps: seq<Info>, sorted: seq<Info>)
    requires SortedFrom(ps, sorted) && DistinctNames(ps) && |ps| <= MAX_PACKS
    requires forall i :: 0 <= i < |ps| ==> RecordOk(ps[i])
    ensures DecodedPlain(EncodedPlain(sorted)) == Some(sorted)
  {
    hide RecordOk, EncodedPlain, DecodedPlain;
    SortedAccepted(ps, sorted);
    PlainExactly(EncodedPlain(sorted), sorted);
  }

  /** Every finished pack's description is an accepted record: the index offset recomputed from its entries is the
      one its trailer gives. */
  lemma FinishedAccepted(c: Crypto, salt: Salt, maxSize: nat, es: seq<Entry>, buf: seq<byte>, b: Built)
    requires Whole(c, salt, maxSize, es, buf, b) && HEADER <= |buf|
    ensures RecordOk(b.info) && b.info.size - TRAILER - (|EncodedIndex(b.info.entries)| + OVERHEAD) == |buf|
  {
    PackNamed(c, b.bytes, |buf|, b.info);
    hide PackAt, Adjacent, SameItems, AllHeld, Fits, EncodedIndex;
  }
}
