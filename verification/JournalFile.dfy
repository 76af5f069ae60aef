/** The journal's bytes: what a decode makes of a file a crash cut short. Sealing is a foreign call; a
    seal gives a header that states the sealed length and opens only as what was sealed. */
module JournalFile {
  import opened Basics
  import opened Keys
  import opened Journal

  const HEADER := 42
  const MAX_JOURNAL := 16 * 1024 * 1024

  datatype Opened = Torn | Undecodable | Opened(rec: Record)

  /** The foreign half of the format: the length a header states, if it is a header, and what a sealed
      body opens as under it. */
  datatype Codec = Codec(length: seq<byte> -> Option<nat>, open: (seq<byte>, seq<byte>) -> Opened)

  datatype Decoded = Corrupt | Decoded(recs: seq<Record>, used: nat)

  // The body of the first record, if the bytes hold a whole one of a length a writer leaves.
  function FirstLength(c: Codec, b: seq<byte>): (o: Option<nat>)
    ensures o.Some? ==> HEADER + o.value <= |b|
  {
    if |b| < HEADER then None
    else match c.length(b[..HEADER])
      case None => None
      case Some(n) => if n > MAX_JOURNAL - HEADER || n > |b| - HEADER then None else Some(n)
  }

  // The longest run of whole, authentic records b starts with.
  function Decode(c: Codec, b: seq<byte>, prev: Option<Root>): Decoded
    decreases |b|
  {
    match FirstLength(c, b)
    case None => Decoded([], 0)
    case Some(n) =>
      match c.open(b[..HEADER], b[HEADER..HEADER + n])
      case Torn => Decoded([], 0)
      case Undecodable => Corrupt
      case Opened(r) =>
        if prev.Some? && r.expected != prev.value then Corrupt
        else match Decode(c, b[HEADER + n..], Some(r.next))
          case Corrupt => Corrupt
          case Decoded(recs, used) => Decoded([r] + recs, HEADER + n + used)
  }

  lemma DecodeUnfolds(c: Codec, b: seq<byte>, prev: Option<Root>)
    ensures FirstLength(c, b).None? ==> Decode(c, b, prev) == Decoded([], 0)
    ensures FirstLength(c, b).Some? ==>
              var n := FirstLength(c, b).value;
              Decode(c, b, prev) ==
              match c.open(b[..HEADER], b[HEADER..HEADER + n])
              case Torn => Decoded([], 0)
              case Undecodable => Corrupt
              case Opened(r) =>
                if prev.Some? && r.expected != prev.value then Corrupt
                else Prepended(r, HEADER + n, Decode(c, b[HEADER + n..], Some(r.next)))
  {
  }

  function Prepended(r: Record, n: nat, d: Decoded): Decoded {
    if d.Corrupt? then Corrupt else Decoded([r] + d.recs, n + d.used)
  }

  // What was decoded before, and what the rest decodes to.
  function Joined(recs: seq<Record>, used: nat, d: Decoded): Decoded {
    if d.Corrupt? then Corrupt else Decoded(recs + d.recs, used + d.used)
  }

  lemma JoinedStep(recs: seq<Record>, used: nat, r: Record, n: nat, d: Decoded)
    ensures Joined(recs, used, Prepended(r, n, d)) == Joined(recs + [r], used + n, d)
    ensures Joined(recs, used, Decoded([], 0)) == Decoded(recs, used) && Joined([], 0, d) == d
  {
    if d.Decoded? { AppendAssoc(recs, [r], d.recs); }
  }

  // Decodes a journal record by record.
  method DecodeJournal(c: Codec, b: seq<byte>) returns (d: Decoded)
    ensures d == Decode(c, b, None)
  {
    hide *;
    var recs: seq<Record> := [];
    var used := 0;
    ghost var prev: Option<Root> := None;
    HeaderSize();
    assert b[0..] == b;
    JoinedStep([], 0, Record(0, 0, 0, 0), 0, Decode(c, b, None));
    while true
      invariant used <= |b|
      invariant recs == [] ==> prev == None
      invariant recs != [] ==> prev == Some(recs[|recs| - 1].next)
      invariant Decode(c, b, None) == Joined(recs, used, Decode(c, b[used..], prev))
      decreases |b| - used
    {
      var rest := b[used..];
      var len := FirstLength(c, rest);
      DecodeUnfolds(c, rest, prev);
      JoinedStep(recs, used, Record(0, 0, 0, 0), 0, Corrupt);
      if len.None? {
        return Decoded(recs, used);
      }
      var n := len.value;
      match c.open(rest[..HEADER], rest[HEADER..HEADER + n])
      case Torn =>
        return Decoded(recs, used);
      case Undecodable =>
        JoinedCorrupt(recs, used);
        return Corrupt;
      case Opened(r) =>
        if recs != [] && r.expected != recs[|recs| - 1].next {
          JoinedCorrupt(recs, used);
          return Corrupt;
        }
        DropTwice(b, used, HEADER + n);
        JoinedStep(recs, used, r, HEADER + n, Decode(c, b[used + (HEADER + n)..], Some(r.next)));
        recs, used, prev := recs + [r], used + (HEADER + n), Some(r.next);
    }
  }

  lemma JoinedCorrupt(recs: seq<Record>, used: nat)
    ensures Joined(recs, used, Corrupt) == Corrupt
  {
  }

  lemma HeaderSize()
    ensures HEADER > 0
  {
  }

  /******** A file cut short ********/

  /** A sealed record. */
  datatype Sealed = Sealed(head: seq<byte>, body: seq<byte>, rec: Record)

  ghost predicate WellSealed(c: Codec, s: Sealed) {
    && |s.head| == HEADER && c.length(s.head) == Some(|s.body|) && |s.body| <= MAX_JOURNAL - HEADER
    && c.open(s.head, s.body) == Opened(s.rec)
  }

  ghost function Bytes(ss: seq<Sealed>): seq<byte> {
    if ss == [] then [] else ss[0].head + ss[0].body + Bytes(ss[1..])
  }

  ghost function Recs(ss: seq<Sealed>): seq<Record> {
    if ss == [] then [] else [ss[0].rec] + Recs(ss[1..])
  }

  // The records that lie whole in the first n bytes.
  ghost function Whole(ss: seq<Sealed>, n: nat): nat {
    if ss == [] || n < |ss[0].head| + |ss[0].body| then 0
    else 1 + Whole(ss[1..], n - |ss[0].head| - |ss[0].body|)
  }

  ghost predicate Follows(ss: seq<Sealed>, prev: Option<Root>) {
    ss == [] || ((prev.Some? ==> ss[0].rec.expected == prev.value) && Follows(ss[1..], Some(ss[0].rec.next)))
  }

  lemma {:induction false} WholeBound(ss: seq<Sealed>, n: nat)
    ensures Whole(ss, n) <= |ss|
  {
    if ss != [] && n >= |ss[0].head| + |ss[0].body| {
      WholeBound(ss[1..], n - |ss[0].head| - |ss[0].body|);
    }
  }

  /** Cut anywhere, a journal decodes to exactly the records that lie whole before the cut: none is
      lost, none is invented, and the torn one is no error. */
  lemma {:induction false} CutDecodes(c: Codec, ss: seq<Sealed>, prev: Option<Root>, n: nat)
    requires (forall i :: 0 <= i < |ss| ==> WellSealed(c, ss[i])) && Follows(ss, prev) && n <= |Bytes(ss)|
    ensures Whole(ss, n) <= |ss|
    ensures Decode(c, Bytes(ss)[..n], prev) == Decoded(Recs(ss[..Whole(ss, n)]), |Bytes(ss[..Whole(ss, n)])|)
  {
    hide *;
    WholeBound(ss, n);
    SealedUnfolds(c, ss, prev, n);
    if ss == [] {
      DecodeStops(c, Bytes(ss)[..n], prev);
      assert ss[..0] == [];
    } else {
      var h, body, rest := ss[0].head, ss[0].body, Bytes(ss[1..]);
      var size := |h| + |body|;
      CutParts(h, body, rest, n);
      assert ss[..0] == [];
      if n < size {
        DecodeStops(c, Bytes(ss)[..n], prev);
        SealedUnfolds(c, [], prev, 0);
      } else {
        CutDecodes(c, ss[1..], Some(ss[0].rec.next), n - size);
        DecodeStep(c, Bytes(ss)[..n], prev, |body|, ss[0].rec);
        HeadOf(ss, Whole(ss[1..], n - size));
      }
    }
  }

  lemma DecodeStops(c: Codec, b: seq<byte>, prev: Option<Root>)
    ensures |b| < HEADER || b == [] ==> Decode(c, b, prev) == Decoded([], 0)
    ensures |b| >= HEADER && c.length(b[..HEADER]).Some? && c.length(b[..HEADER]).value > |b| - HEADER ==>
              Decode(c, b, prev) == Decoded([], 0)
  {
  }

  lemma DecodeStep(c: Codec, b: seq<byte>, prev: Option<Root>, n: nat, r: Record)
    requires HEADER + n <= |b| && n <= MAX_JOURNAL - HEADER
    requires c.length(b[..HEADER]) == Some(n) && c.open(b[..HEADER], b[HEADER..HEADER + n]) == Opened(r)
    requires prev.Some? ==> r.expected == prev.value
    ensures var d := Decode(c, b[HEADER + n..], Some(r.next));
            Decode(c, b, prev) == if d.Corrupt? then Corrupt else Decoded([r] + d.recs, HEADER + n + d.used)
  {
    hide Decode;
    DecodeUnfolds(c, b, prev);
  }

  lemma SealedUnfolds(c: Codec, ss: seq<Sealed>, prev: Option<Root>, n: nat)
    requires (forall i :: 0 <= i < |ss| ==> WellSealed(c, ss[i])) && Follows(ss, prev)
    ensures ss == [] ==> Bytes(ss) == [] && Recs(ss) == [] && Whole(ss, n) == 0
    ensures ss != [] ==>
              var s, rest := ss[0], ss[1..];
              && |s.head| == HEADER && c.length(s.head) == Some(|s.body|) && |s.body| <= MAX_JOURNAL - HEADER
              && c.open(s.head, s.body) == Opened(s.rec) && (prev.Some? ==> s.rec.expected == prev.value)
              && Bytes(ss) == s.head + s.body + Bytes(rest)
              && (forall i :: 0 <= i < |rest| ==> WellSealed(c, rest[i])) && Follows(rest, Some(s.rec.next))
              && Whole(ss, n) == if n < |s.head| + |s.body| then 0 else 1 + Whole(rest, n - |s.head| - |s.body|)
  {
    if ss != [] {
      assert WellSealed(c, ss[0]);
    }
  }

  lemma CutParts(h: seq<byte>, body: seq<byte>, rest: seq<byte>, n: nat)
    requires |h| == HEADER && n <= |h + body + rest|
    ensures var b := (h + body + rest)[..n];
            && (n >= HEADER ==> b[..HEADER] == h)
            && (n >= |h| + |body| ==> b[HEADER..|h| + |body|] == body && b[|h| + |body|..] == rest[..n - |h| - |body|])
  {
  }

  lemma HeadOf(ss: seq<Sealed>, w: nat)
    requires w + 1 <= |ss|
    ensures Recs(ss[..w + 1]) == [ss[0].rec] + Recs(ss[1..][..w])
    ensures |Bytes(ss[..w + 1])| == |ss[0].head| + |ss[0].body| + |Bytes(ss[1..][..w])|
  {
    assert ss[..w + 1][1..] == ss[1..][..w] && ss[..w + 1][0] == ss[0];
  }

  /******** A cut file is a crash ********/

  lemma {:induction false} RecsTake(ss: seq<Sealed>, k: nat)
    requires k <= |ss|
    ensures |Recs(ss)| == |ss| && Recs(ss[..k]) == Recs(ss)[..k]
  {
    if ss != [] {
      RecsTake(ss[1..], if k == 0 then 0 else k - 1);
      if k > 0 {
        assert ss[..k][1..] == ss[1..][..k - 1];
      }
    }
  }

  lemma {:induction false} RecAt(ss: seq<Sealed>, i: nat)
    requires i < |ss|
    ensures |Recs(ss)| == |ss| && Recs(ss)[i] == ss[i].rec
  {
    RecsTake(ss, 0);
    if i > 0 {
      RecAt(ss[1..], i - 1);
    }
  }

  // Records that chain follow on from one another.
  lemma {:induction false} ChainFollows(ss: seq<Sealed>, history: seq<Option<Root>>, k: nat)
    requires Chain(Recs(ss), history) && k <= |ss|
    ensures Follows(ss[k..], if k == 0 then None else Some(ss[k - 1].rec.next))
    decreases |ss| - k
  {
    if k < |ss| {
      ChainFollows(ss, history, k + 1);
      assert ss[k..][1..] == ss[k + 1..];
      RecAt(ss, k);
      assert Link(Recs(ss), history, k);
      if k > 0 {
        RecAt(ss, k - 1);
        assert Link(Recs(ss), history, k - 1);
      }
    }
  }

  // What lies whole in the first n bytes is at least what ends by there.
  lemma {:induction false} WholeAtLeast(ss: seq<Sealed>, k: nat, n: nat)
    requires k <= |ss| && |Bytes(ss[..k])| <= n
    ensures k <= Whole(ss, n) <= |ss|
  {
    WholeBound(ss, n);
    if k > 0 {
      assert ss[..k][1..] == ss[1..][..k - 1] && ss[..k][0] == ss[0];
      WholeAtLeast(ss[1..], k - 1, n - |ss[0].head| - |ss[0].body|);
    }
  }

  /** Losing any bytes past the synced records is a crash of the protocol: the file decodes to the records some crash
      keeps, so a replay of what it decodes to reaches the last acknowledged commit or a later one. */
  lemma CutSurvives(c: Codec, es: seq<Event>, s: State, ss: seq<Sealed>, n: nat)
    requires Reaches(es, s) && Recs(ss) == s.log.recs && forall i :: 0 <= i < |ss| ==> WellSealed(c, ss[i])
    requires s.log.synced <= |ss| && |Bytes(ss[..s.log.synced])| <= n <= |Bytes(ss)|
    ensures var d := Decode(c, Bytes(ss)[..n], None);
            && d.Decoded? && s.log.synced <= |d.recs| <= |s.log.recs| && d.recs == s.log.recs[..|d.recs|]
            && Enabled(s, Crash(|d.recs|)) && Do(s, Crash(|d.recs|)).log.recs == d.recs
            && (Replayed(s.root, d.recs).Done? ==>
                  exists j :: s.acked <= j < |s.history| && s.history[j] == Replayed(s.root, d.recs).root)
  {
    hide *;
    Chained(es, s);
    ChainFollows(ss, s.history, 0);
    assert ss[0..] == ss;
    CutDecodes(c, ss, None, n);
    var k := Whole(ss, n);
    WholeAtLeast(ss, s.log.synced, n);
    RecsTake(ss, k);
    Crashes(s, k);
    var d := Decode(c, Bytes(ss)[..n], None);
    if Replayed(s.root, d.recs).Done? {
      var j := AcknowledgedSurvives(es, s, k, Replayed(s.root, d.recs).root);
    }
  }

  lemma Chained(es: seq<Event>, s: State)
    requires Reaches(es, s)
    ensures Chain(s.log.recs, s.history)
  {
    ReachedInv(es, s);
    hide Reaches, Chain;
  }

  lemma Crashes(s: State, k: nat)
    requires s.log.synced <= k <= |s.log.recs|
    ensures Enabled(s, Crash(k)) && Do(s, Crash(k)).log.recs == s.log.recs[..k]
  {
  }
}
