/** Packs: chunks sealed into frames laid back to back after a header, then a sealed index and a trailer. A finished
    pack reads back to its own description, and every frame in it opens to the chunk added. */
module Packs {
  import opened Keys
  import opened Basics
  import opened Refs
  import NodeCodec
  import opened Listings
  import opened PackIndex

  type Salt = Hash

  const HEADER_MAGIC: Magic := [0x53, 0x43, 0x50, 0x4B]
  const TRAILER_MAGIC: Magic := [0x53, 0x43, 0x50, 0x45]
  const RAW_BELOW := 256

  datatype Use = Chunk | Index

  /** The ciphers and the compressor a pack is written with. A seal is made under a use, the pack's salt, a nonce
      and a context. */
  datatype Crypto = Crypto(
    seal: (Use, Salt, nat, seq<byte>, seq<byte>) -> seq<byte>,
    open: (Use, Salt, seq<byte>, seq<byte>) -> Option<seq<byte>>,
    zip: seq<byte> -> seq<byte>,
    unzip: seq<byte> -> Option<seq<byte>>,
    digest: seq<byte> -> Hash)

  // A seal adds a nonce and a tag and opens to what was sealed; a chunk decompresses to itself.
  ghost predicate Sound(c: Crypto) {
    && (forall u, s, n, x, p {:trigger c.seal(u, s, n, x, p)} ::
          |c.seal(u, s, n, x, p)| == |p| + OVERHEAD && c.open(u, s, x, c.seal(u, s, n, x, p)) == Some(p))
    && (forall p {:trigger c.zip(p)} :: |p| <= MAX_CHUNK ==> c.unzip(c.zip(p)) == Some(p))
  }

  lemma SealOpens(c: Crypto, u: Use, s: Salt, n: nat, x: seq<byte>, p: seq<byte>)
    requires Sound(c)
    ensures |c.seal(u, s, n, x, p)| == |p| + OVERHEAD && c.open(u, s, x, c.seal(u, s, n, x, p)) == Some(p)
  {
  }

  lemma ZipOpens(c: Crypto, p: seq<byte>)
    requires Sound(c) && |p| <= MAX_CHUNK
    ensures c.unzip(c.zip(p)) == Some(p)
  {
  }

  datatype Info = Info(name: Hash, salt: Salt, size: nat, entries: seq<Entry>)

  datatype Built = Built(bytes: seq<byte>, info: Info)

  /******** Frames ********/

  // What a chunk is stored as, and how: compressed when that is shorter.
  function Compress(c: Crypto, data: seq<byte>): (r: (seq<byte>, byte))
    ensures LengthsAgree(r.1, |r.0| + OVERHEAD, |data|)
  {
    if |data| < RAW_BELOW then (data, RAW)
    else
      var z := c.zip(data);
      if |z| < |data| then (z, ZSTD) else (data, RAW)
  }

  // A frame's chunk: none unless its length, its seal, its compression and its hash all agree.
  function OpenFrame(c: Crypto, salt: Salt, e: Entry, sealed: seq<byte>): (r: Option<seq<byte>>)
    ensures r.Some? ==> |sealed| == e.stored && |r.value| == e.raw && c.digest(r.value) == e.hash
  {
    if |sealed| != e.stored then None
    else
      var payload := c.open(Chunk, salt, e.hash, sealed);
      if payload.None? then None
      else
        var data :=
          if e.codec == RAW then payload
          else if e.codec == ZSTD && e.raw <= MAX_CHUNK then c.unzip(payload.value)
          else None;
        if data.None? || |data.value| != e.raw || c.digest(data.value) != e.hash then None else data
  }

  // A frame opens to the chunk it was sealed from.
  lemma FrameOpens(c: Crypto, salt: Salt, nonce: nat, data: seq<byte>, at: nat)
    requires Sound(c) && |data| <= MAX_CHUNK
    ensures var (payload, codec) := Compress(c, data);
            var sealed := c.seal(Chunk, salt, nonce, c.digest(data), payload);
            && OpenFrame(c, salt, Entry(c.digest(data), at, |sealed|, |data|, codec), sealed) == Some(data)
            && LengthsAgree(codec, |sealed|, |data|)
  {
    var (payload, codec) := Compress(c, data);
    SealOpens(c, Chunk, salt, nonce, c.digest(data), payload);
    if codec == ZSTD {
      ZipOpens(c, data);
    }
    hide Sound;
  }

  /******** The layout ********/

  function Header(salt: Salt): (b: seq<byte>)
    ensures |b| == HEADER
  {
    HEADER_MAGIC + VERSION + [0, 0] + salt
  }

  function Trailer(offset: nat, length: nat): (b: seq<byte>)
    ensures |b| == TRAILER
  {
    LittleEndian(offset, 8) + LittleEndian(length, 4) + TRAILER_MAGIC
  }

  lemma Width4()
    ensures Pow256(4) == WORD32
  {
    assert Pow256(2) == 0x1_0000;
  }

  // The offset and the length a trailer gives.
  function ReadTrailer(t: seq<byte>): (nat, nat)
    requires |t| == TRAILER
  {
    (FromLittleEndian(t[..8]), FromLittleEndian(t[8..12]))
  }

  lemma TrailerReads(offset: nat, length: nat)
    requires offset < NodeCodec.WORD && length < WORD32
    ensures var t := Trailer(offset, length); ReadTrailer(t) == (offset, length) && t[12..] == TRAILER_MAGIC
  {
    Widths();
    Width4();
    var t := Trailer(offset, length);
    assert t[..8] == LittleEndian(offset, 8) && t[8..12] == LittleEndian(length, 4);
    LittleEndianReads(offset, 8);
    LittleEndianReads(length, 4);
    hide LittleEndian, FromLittleEndian, Pow256;
  }

  lemma TrailerWrites(t: seq<byte>)
    requires |t| == TRAILER && t[12..] == TRAILER_MAGIC
    ensures var (offset, length) := ReadTrailer(t);
            offset < NodeCodec.WORD && length < WORD32 && t == Trailer(offset, length)
  {
    Widths();
    Width4();
    LittleEndianWrites(t[..8]);
    LittleEndianWrites(t[8..12]);
    hide LittleEndian, FromLittleEndian, Pow256;
    assert t == t[..8] + t[8..12] + t[12..];
  }

  /** b is a pack whose index starts at an offset, and info describes it. */
  ghost predicate PackAt(c: Crypto, b: seq<byte>, at: nat, info: Info) {
    && HEADER + TRAILER <= |b| && HEADER <= at <= |b| - TRAILER && at < NodeCodec.WORD && |b| - TRAILER - at < WORD32
    && info.name == c.digest(b) && info.size == |b|
    && b[..HEADER] == Header(info.salt) && b[|b| - TRAILER..] == Trailer(at, |b| - TRAILER - at)
    && var plain := c.open(Index, info.salt, b[..HEADER], b[at..|b| - TRAILER]);
       plain.Some? && Decoded(plain.value, at) == Some(info.entries)
  }

  /******** Reading ********/

  datatype Outcome = Read(info: Info) | Corrupt | OutOfRange

  lemma HeaderIs(b: seq<byte>, salt: Salt)
    requires |b| == HEADER
    ensures b == Header(salt) <==> b[..4] == HEADER_MAGIC && b[4..6] == VERSION && b[6..8] == [0, 0] && b[8..] == salt
  {
    var h := Header(salt);
    assert h[..4] == HEADER_MAGIC && h[4..6] == VERSION && h[6..8] == [0, 0] && h[8..] == salt;
    assert b == b[..4] + b[4..6] + b[6..8] + b[8..];
  }

  // The header's magic, version and flags are right.
  ghost predicate HeaderOk(b: seq<byte>)
    requires |b| >= HEADER
  {
    b[..HEADER] == Header(b[8..HEADER])
  }

  ghost predicate TrailerOk(b: seq<byte>)
    requires |b| >= TRAILER
  {
    b[|b| - TRAILER..][12..] == TRAILER_MAGIC
  }

  // What every pack's ends say.
  lemma PackEnds(c: Crypto, b: seq<byte>, at: nat, info: Info)
    requires PackAt(c, b, at, info)
    ensures HEADER + TRAILER <= |b| && HeaderOk(b) && TrailerOk(b) && info.salt == b[8..HEADER]
    ensures ReadTrailer(b[|b| - TRAILER..]) == (at, |b| - TRAILER - at)
  {
    HeaderIs(b[..HEADER], info.salt);
    assert b[..HEADER][8..] == b[8..HEADER];
    TrailerReads(at, |b| - TRAILER - at);
  }

  ghost predicate NoPack(c: Crypto, b: seq<byte>) {
    forall at, info :: !PackAt(c, b, at, info)
  }

  // Bytes whose ends say something else are no pack.
  lemma EndsRefused(c: Crypto, b: seq<byte>)
    requires |b| < HEADER + TRAILER || !HeaderOk(b) || !TrailerOk(b)
             || (var (at, n) := ReadTrailer(b[|b| - TRAILER..]); at < HEADER || at + n + TRAILER != |b|)
    ensures NoPack(c, b)
  {
    forall at, info ensures !PackAt(c, b, at, info) {
      if PackAt(c, b, at, info) {
        PackEnds(c, b, at, info);
      }
    }
  }

  // With its ends right, a pack is what its index says.
  lemma IndexDecides(c: Crypto, b: seq<byte>, at: nat, n: nat)
    requires HEADER + TRAILER <= |b| && HeaderOk(b) && TrailerOk(b) && ReadTrailer(b[|b| - TRAILER..]) == (at, n)
    requires HEADER <= at && at + n + TRAILER == |b|
    ensures var plain := c.open(Index, b[8..HEADER], b[..HEADER], b[at..at + n]);
            if plain.Some? && Decoded(plain.value, at).Some?
            then PackAt(c, b, at, Info(c.digest(b), b[8..HEADER], |b|, Decoded(plain.value, at).value))
            else NoPack(c, b)
  {
    TrailerWrites(b[|b| - TRAILER..]);
    hide Decoded, Trailer, Header, ReadTrailer, PackAt;
    var plain := c.open(Index, b[8..HEADER], b[..HEADER], b[at..at + n]);
    assert at + n == |b| - TRAILER;
    if plain.Some? && Decoded(plain.value, at).Some? {
      PackIs(c, b, at, plain.value);
    } else {
      forall at', info ensures !PackAt(c, b, at', info) {
        if PackAt(c, b, at', info) {
          PackEnds(c, b, at', info);
          PackOpens(c, b, at', info);
        }
      }
    }
  }

  lemma PackIs(c: Crypto, b: seq<byte>, at: nat, plain: seq<byte>)
    requires HEADER + TRAILER <= |b| && HeaderOk(b) && HEADER <= at <= |b| - TRAILER && at < NodeCodec.WORD
             && |b| - TRAILER - at < WORD32
    requires b[|b| - TRAILER..] == Trailer(at, |b| - TRAILER - at)
    requires c.open(Index, b[8..HEADER], b[..HEADER], b[at..|b| - TRAILER]) == Some(plain) && Decoded(plain, at).Some?
    ensures PackAt(c, b, at, Info(c.digest(b), b[8..HEADER], |b|, Decoded(plain, at).value))
  {
    hide Decoded, Trailer, Header;
  }

  lemma PackOpens(c: Crypto, b: seq<byte>, at: nat, info: Info)
    requires PackAt(c, b, at, info)
    ensures HEADER <= at <= |b| - TRAILER
    ensures var plain := c.open(Index, info.salt, b[..HEADER], b[at..|b| - TRAILER]);
            plain.Some? && Decoded(plain.value, at) == Some(info.entries)
  {
    hide Decoded, Trailer, Header;
  }

  // What a reader answers on bytes under a name: the description of the pack they are, or a refusal when they are
  // none. The trailer's sum is taken in 64 bits, and when it wraps the index is sliced out of range.
  ghost predicate Answers(c: Crypto, name: Hash, b: seq<byte>, r: Outcome) {
    && (r.Read? ==> r.info.name == name && exists at :: PackAt(c, b, at, r.info))
    && (!r.Read? ==> c.digest(b) == name ==> NoPack(c, b))
    && (r.OutOfRange? <==>
          && HEADER + TRAILER <= |b| && c.digest(b) == name && HeaderOk(b) && TrailerOk(b)
          && (var (at, n) := ReadTrailer(b[|b| - TRAILER..]); HEADER <= at && at + n + TRAILER == |b| + NodeCodec.WORD))
  }

  /** The description of the pack some bytes are, under the name they should hash to. */
  method ReadInfo(c: Crypto, name: Hash, b: seq<byte>) returns (r: Outcome)
    requires |b| < NodeCodec.WORD
    ensures Answers(c, name, b, r)
  {
    if |b| < HEADER + TRAILER {
      EndsRefused(c, b);
      return Corrupt;
    }
    if c.digest(b) != name {
      return Corrupt;
    }
    var salt := b[8..HEADER];
    HeaderIs(b[..HEADER], salt);
    SliceOfSlice(b, 0, HEADER, 0, 4);
    SliceOfSlice(b, 0, HEADER, 4, 6);
    SliceOfSlice(b, 0, HEADER, 6, 8);
    SliceOfSlice(b, 0, HEADER, 8, HEADER);
    hide Decoded, PackAt, Header, Trailer, FromLittleEndian;
    if b[0..4] != HEADER_MAGIC || b[4..6] != VERSION || b[6..8] != [0, 0] {
      assert !HeaderOk(b);
      EndsRefused(c, b);
      return Corrupt;
    }
    var t := b[|b| - TRAILER..];
    var (at, n) := ReadTrailer(t);
    hide ReadTrailer;
    if t[12..] != TRAILER_MAGIC || at < HEADER {
      EndsRefused(c, b);
      return Corrupt;
    }
    TrailerWrites(t);
    Wraps(at, n, |b|);
    if (at + n + TRAILER) % NodeCodec.WORD != |b| {
      EndsRefused(c, b);
      return Corrupt;
    }
    if at + n > |b| {
      EndsRefused(c, b);
      return OutOfRange;
    }
    IndexDecides(c, b, at, n);
    var plain := c.open(Index, salt, b[..HEADER], b[at..at + n]);
    if plain.None? {
      return Corrupt;
    }
    var es := DecodeIndex(plain.value, at);
    r := if es.None? then Corrupt else Read(Info(name, salt, |b|, es.value));
  }

  /** Bytes whose trailer wraps: a header, and a trailer that puts the index at the last 64-bit offset. */
  lemma WrappedTrailer(c: Crypto, salt: Salt, r: Outcome)
    requires var b := Header(salt) + Trailer(NodeCodec.WORD - 1, HEADER + 1); Answers(c, c.digest(b), b, r)
    ensures r.OutOfRange?
  {
    var b := Header(salt) + Trailer(NodeCodec.WORD - 1, HEADER + 1);
    assert b[..HEADER] == Header(salt) && b[|b| - TRAILER..] == Trailer(NodeCodec.WORD - 1, HEADER + 1);
    TrailerReads(NodeCodec.WORD - 1, HEADER + 1);
    HeaderIs(b[..HEADER], salt);
    SliceOfSlice(b, 0, HEADER, 8, HEADER);
    hide Header, Trailer, ReadTrailer, PackAt;
  }

  lemma Wraps(at: nat, n: nat, len: nat)
    requires at < NodeCodec.WORD && n < WORD32 && len < NodeCodec.WORD
    ensures (at + n + TRAILER) % NodeCodec.WORD == len <==>
              at + n + TRAILER == len || at + n + TRAILER == len + NodeCodec.WORD
    ensures at + n + TRAILER == len + NodeCodec.WORD ==> at + n > len
  {
  }

  /******** Writing ********/

  // Each frame starts where the one before it ends, the first after the header.
  ghost predicate Adjacent(es: seq<Entry>, end: nat) {
    && (es != [] ==> es[0].offset == HEADER)
    && (forall i :: 0 < i < |es| ==> es[i].offset == es[i - 1].offset + es[i - 1].stored)
    && end == if es == [] then HEADER else es[|es| - 1].offset + es[|es| - 1].stored
  }

  // An entry's frame lies in the bytes and opens.
  ghost predicate Held(c: Crypto, salt: Salt, e: Entry, b: seq<byte>) {
    && e.raw <= MAX_CHUNK && LengthsAgree(e.codec, e.stored, e.raw) && e.offset + e.stored <= |b|
    && OpenFrame(c, salt, e, b[e.offset..e.offset + e.stored]).Some?
  }

  ghost predicate AllHeld(c: Crypto, salt: Salt, es: seq<Entry>, b: seq<byte>) {
    forall i :: 0 <= i < |es| ==> Held(c, salt, es[i], b)
  }

  ghost predicate Distinct(es: seq<Entry>) {
    forall i, j :: 0 <= i < j < |es| ==> es[i].hash != es[j].hash
  }

  // A pack of one chunk may be any size; one of more leaves room for the largest index it can have.
  ghost predicate Sized(n: nat, len: nat, maxSize: nat) {
    && n <= MAX_CHUNKS && maxSize <= MAX_PACK
    && (n <= 1 ==> len <= HEADER + MAX_CHUNK + OVERHEAD)
    && (n >= 2 ==> len + IndexBound(n) + TRAILER <= maxSize)
  }

  // The bytes so far: the header and the frames, back to back, each opening to its chunk.
  ghost predicate Laid(c: Crypto, salt: Salt, maxSize: nat, es: seq<Entry>, buf: seq<byte>) {
    && HEADER <= |buf| && buf[..HEADER] == Header(salt) && Adjacent(es, |buf|) && AllHeld(c, salt, es, buf)
    && Distinct(es) && Sized(|es|, |buf|, maxSize)
  }

  lemma LaidMeans(c: Crypto, salt: Salt, maxSize: nat, es: seq<Entry>, buf: seq<byte>)
    requires Laid(c, salt, maxSize, es, buf)
    ensures HEADER <= |buf| < WORD32 && buf[..HEADER] == Header(salt) && Adjacent(es, |buf|)
            && AllHeld(c, salt, es, buf)
    ensures Distinct(es) && Sized(|es|, |buf|, maxSize) && |es| <= MAX_CHUNKS
  {
    hide Adjacent, AllHeld, Distinct, Header;
  }

  lemma LaidIs(c: Crypto, salt: Salt, maxSize: nat, es: seq<Entry>, buf: seq<byte>)
    requires HEADER <= |buf| && buf[..HEADER] == Header(salt) && Adjacent(es, |buf|) && AllHeld(c, salt, es, buf)
    requires Distinct(es) && Sized(|es|, |buf|, maxSize)
    ensures Laid(c, salt, maxSize, es, buf)
  {
    hide *;
    LaidFolds(c, salt, maxSize, es, buf);
  }

  lemma LaidFolds(c: Crypto, salt: Salt, maxSize: nat, es: seq<Entry>, buf: seq<byte>)
    requires HEADER <= |buf| && buf[..HEADER] == Header(salt) && Adjacent(es, |buf|) && AllHeld(c, salt, es, buf)
    requires Distinct(es) && Sized(|es|, |buf|, maxSize)
    ensures Laid(c, salt, maxSize, es, buf)
  {
    hide Adjacent, AllHeld, Distinct, Header, Sized;
  }

  lemma HeldLonger(c: Crypto, salt: Salt, e: Entry, b: seq<byte>, more: seq<byte>)
    requires Held(c, salt, e, b)
    ensures Held(c, salt, e, b + more)
    ensures e.offset + e.stored <= |b| && (b + more)[e.offset..e.offset + e.stored] == b[e.offset..e.offset + e.stored]
  {
    hide OpenFrame;
    assert (b + more)[e.offset..e.offset + e.stored] == b[e.offset..e.offset + e.stored];
  }

  lemma AllHeldLonger(c: Crypto, salt: Salt, es: seq<Entry>, b: seq<byte>, more: seq<byte>)
    requires AllHeld(c, salt, es, b)
    ensures AllHeld(c, salt, es, b + more)
  {
    hide Held;
    forall i | 0 <= i < |es| ensures Held(c, salt, es[i], b + more) {
      HeldLonger(c, salt, es[i], b, more);
    }
  }

  lemma AllHeldPush(c: Crypto, salt: Salt, es: seq<Entry>, e: Entry, b: seq<byte>)
    requires AllHeld(c, salt, es, b) && Held(c, salt, e, b)
    ensures AllHeld(c, salt, es + [e], b)
  {
    hide Held;
  }

  lemma AdjacentPush(es: seq<Entry>, e: Entry, end: nat)
    requires Adjacent(es, end) && e.offset == end
    ensures Adjacent(es + [e], end + e.stored)
  {
    var es' := es + [e];
    forall i | 0 < i < |es'| ensures es'[i].offset == es'[i - 1].offset + es'[i - 1].stored {
      assert es'[i - 1] == es[i - 1] && es'[i] == if i < |es| then es[i] else e;
    }
  }

  lemma LaidPush(c: Crypto, salt: Salt, maxSize: nat, es: seq<Entry>, buf: seq<byte>, e: Entry, sealed: seq<byte>)
    requires Laid(c, salt, maxSize, es, buf) && e.offset == |buf| && e.stored == |sealed|
    requires e.raw <= MAX_CHUNK && LengthsAgree(e.codec, e.stored, e.raw) && OpenFrame(c, salt, e, sealed).Some?
    requires !Lists(es, e.hash)
    requires |es| < MAX_CHUNKS && (|es| > 0 ==> |buf| + |sealed| + IndexBound(|es| + 1) + TRAILER <= maxSize)
    ensures Laid(c, salt, maxSize, es + [e], buf + sealed)
  {
    hide *;
    LaidMeans(c, salt, maxSize, es, buf);
    TakeOfAppend(buf, sealed, HEADER);
    AdjacentPush(es, e, |buf|);
    AllHeldLonger(c, salt, es, buf, sealed);
    HeldNew(c, salt, e, buf, sealed);
    AllHeldPush(c, salt, es, e, buf + sealed);
    DistinctPush(es, e);
    SizedPush(c, salt, maxSize, es, buf, e);
    LaidIs(c, salt, maxSize, es + [e], buf + sealed);
  }

  lemma HeldNew(c: Crypto, salt: Salt, e: Entry, buf: seq<byte>, sealed: seq<byte>)
    requires e.offset == |buf| && e.stored == |sealed| && e.raw <= MAX_CHUNK && LengthsAgree(e.codec, e.stored, e.raw)
    requires OpenFrame(c, salt, e, sealed).Some?
    ensures Held(c, salt, e, buf + sealed)
  {
    hide OpenFrame;
    assert (buf + sealed)[|buf|..|buf| + |sealed|] == sealed;
  }

  lemma DistinctPush(es: seq<Entry>, e: Entry)
    requires Distinct(es) && !Lists(es, e.hash)
    ensures Distinct(es + [e])
  {
  }

  lemma SizedPush(c: Crypto, salt: Salt, maxSize: nat, es: seq<Entry>, buf: seq<byte>, e: Entry)
    requires Laid(c, salt, maxSize, es, buf) && e.raw <= MAX_CHUNK && LengthsAgree(e.codec, e.stored, e.raw)
    requires |es| < MAX_CHUNKS && (|es| > 0 ==> |buf| + e.stored + IndexBound(|es| + 1) + TRAILER <= maxSize)
    ensures Sized(|es| + 1, |buf| + e.stored, maxSize)
  {
    hide AllHeld, Distinct, Header;
  }

  datatype Added = Ok | Finished | TooLarge | Full | Duplicate

  ghost predicate Lists(es: seq<Entry>, h: Hash) {
    exists i :: 0 <= i < |es| && es[i].hash == h
  }

  // How an add ends, from what the writer holds.
  ghost function Verdict(finished: bool, es: seq<Entry>, len: nat, maxSize: nat, h: Hash, raw: nat,
                         stored: nat): Added {
    if finished then Finished
    else if raw > MAX_CHUNK then TooLarge
    else if |es| >= MAX_CHUNKS then Full
    else if Lists(es, h) then Duplicate
    else if |es| > 0 && len + stored + IndexBound(|es| + 1) + TRAILER > maxSize then Full
    else Ok
  }

  // The map and the order of a writer's entries.
  ghost predicate Recorded(entries: map<Hash, Entry>, order: seq<Hash>, es: seq<Entry>) {
    && |order| == |es| == |entries|
    && (forall i :: 0 <= i < |es| ==> order[i] == es[i].hash && order[i] in entries && entries[order[i]] == es[i])
    && (forall h :: h in entries ==> h in order)
  }

  lemma RecordedPush(entries: map<Hash, Entry>, order: seq<Hash>, es: seq<Entry>, e: Entry)
    requires Recorded(entries, order, es) && e.hash !in entries
    ensures Recorded(entries[e.hash := e], order + [e.hash], es + [e])
  {
    CardPush(entries, e);
    var entries', order', es' := entries[e.hash := e], order + [e.hash], es + [e];
    forall i | 0 <= i < |es'| ensures order'[i] == es'[i].hash && order'[i] in entries'
      && entries'[order'[i]] == es'[i] {
      if i < |es| {
        assert order'[i] == order[i] && es'[i] == es[i];
      }
    }
    forall h | h in entries' ensures h in order' {
      if h == e.hash {
        assert order'[|order|] == h;
      } else {
        assert h in order;
      }
    }
  }

  lemma CardPush(entries: map<Hash, Entry>, e: Entry)
    requires e.hash !in entries
    ensures |entries[e.hash := e]| == |entries| + 1
  {
    var entries' := entries[e.hash := e];
    assert entries'.Keys == entries.Keys + {e.hash};
    assert |entries'| == |entries'.Keys| && |entries| == |entries.Keys|;
  }

  lemma RecordedHas(entries: map<Hash, Entry>, order: seq<Hash>, es: seq<Entry>, h: Hash)
    requires Recorded(entries, order, es)
    ensures h in entries <==> Lists(es, h)
  {
    if h in entries {
      var i :| 0 <= i < |order| && order[i] == h;
      assert es[i].hash == h;
    }
  }

  /** Builds one pack in memory. */
  class Writer {
    const c: Crypto
    const salt: Salt
    const maxSize: nat
    var buf: seq<byte>
    var entries: map<Hash, Entry>
    var order: seq<Hash>
    var finished: bool
    ghost var added: seq<Entry>

    ghost predicate Valid()
      reads this
    {
      Sound(c) && Laid(c, salt, maxSize, added, buf) && Recorded(entries, order, added)
    }

    lemma ValidMeans()
      requires Valid()
      ensures Sound(c) && Laid(c, salt, maxSize, added, buf) && Recorded(entries, order, added)
    {
    }

    lemma ValidIs()
      requires Sound(c) && Laid(c, salt, maxSize, added, buf) && Recorded(entries, order, added)
      ensures Valid()
    {
    }

    constructor (c: Crypto, salt: Salt, maxSize: nat)
      requires Sound(c) && HEADER + TRAILER <= maxSize <= MAX_PACK
      ensures Valid() && this.c == c && this.salt == salt && this.maxSize == maxSize
      ensures added == [] && buf == Header(salt) && !finished
    {
      this.c, this.salt, this.maxSize := c, salt, maxSize;
      buf, entries, order, finished, added := Header(salt), map[], [], false, [];
      assert Header(salt)[..HEADER] == Header(salt);
    }

    /** One more frame, back to back with the last, or a refusal that changes nothing. */
    method AddSealed(h: Hash, raw: nat, sealed: seq<byte>, codec: byte) returns (r: Added)
      requires Valid()
      requires !finished && raw <= MAX_CHUNK && |added| < MAX_CHUNKS ==>
                 LengthsAgree(codec, |sealed|, raw)
                   && OpenFrame(c, salt, Entry(h, |buf|, |sealed|, raw, codec), sealed).Some?
      modifies this
      ensures Valid() && finished == old(finished)
      ensures r == Verdict(old(finished), old(added), |old(buf)|, maxSize, h, raw, |sealed|)
      ensures r != Ok ==> added == old(added) && buf == old(buf)
      ensures r == Ok ==> added == old(added) + [Entry(h, |old(buf)|, |sealed|, raw, codec)] && buf == old(buf) + sealed
    {
      hide *;
      ValidMeans();
      LaidMeans(c, salt, maxSize, added, buf);
      RecordedHas(entries, order, added, h);
      RecordedLen(entries, order, added);
      VerdictIs(finished, added, |buf|, maxSize, h, raw, |sealed|);
      if finished {
        return Finished;
      }
      if raw > MAX_CHUNK {
        return TooLarge;
      }
      if |entries| >= MAX_CHUNKS {
        return Full;
      }
      if h in entries {
        return Duplicate;
      }
      if |entries| > 0 && |buf| + |sealed| + IndexBound(|entries| + 1) + TRAILER > maxSize {
        return Full;
      }
      NarrowEntry(h, |buf|, |sealed|, raw, codec);
      var e := Entry(h, |buf| % WORD32, |sealed| % WORD32, raw % WORD32, codec);
      RecordedPush(entries, order, added, e);
      LaidPush(c, salt, maxSize, added, buf, e, sealed);
      entries := entries[h := e];
      order := order + [h];
      buf := buf + sealed;
      added := added + [e];
      ValidIs();
      r := Ok;
    }

    /** Appends a chunk whose hash the caller has computed: what is stored opens to it. */
    method Add(data: seq<byte>, nonce: nat) returns (r: Added)
      requires Valid()
      modifies this
      ensures Valid() && finished == old(finished)
      ensures r != Ok ==> added == old(added) && buf == old(buf)
      ensures r == Ok ==>
                && |added| == |old(added)| + 1 && added[..|old(added)|] == old(added) && old(buf) <= buf
                && var e := added[|old(added)|];
                   e.offset + e.stored <= |buf| && e.hash == c.digest(data)
                     && OpenFrame(c, salt, e, buf[e.offset..e.offset + e.stored]) == Some(data)
      ensures r == Verdict(old(finished), old(added), |old(buf)|, maxSize, c.digest(data), |data|,
              |Compress(c, data).0| + OVERHEAD)
    {
      hide *;
      ValidMeans();
      RecordedLen(entries, order, added);
      ghost var was, at := added, |buf|;
      var h := c.digest(data);
      if finished || |data| > MAX_CHUNK || |entries| >= MAX_CHUNKS {
        r := AddSealed(h, |data|, [], RAW);
        VerdictIs(finished, was, at, maxSize, h, |data|, 0);
        VerdictIs(finished, was, at, maxSize, h, |data|, |Compress(c, data).0| + OVERHEAD);
        return;
      }
      FrameOpens(c, salt, nonce, data, |buf|);
      var (payload, codec) := Compress(c, data);
      SealOpens(c, Chunk, salt, nonce, h, payload);
      var sealed := c.seal(Chunk, salt, nonce, h, payload);
      r := AddSealed(h, |data|, sealed, codec);
      if r == Ok {
        assert added[..|was|] == was;
        assert buf[at..at + |sealed|] == sealed;
      }
    }

    // The entries, in whatever order the map gives them.
    method Collect() returns (es: seq<Entry>)
      requires Valid()
      ensures Distinct(es) && SameItems(es, added)
    {
      hide *;
      ValidMeans();
      es := [];
      var keys := entries.Keys;
      CollectStarts(entries);
      while keys != {}
        invariant Collected(entries, keys, es)
        decreases |keys|
      {
        var h :| h in keys;
        CollectNext(entries, order, added, keys, es, h);
        es := es + [entries[h]];
        keys := keys - {h};
      }
      CollectEnds(entries, order, added, es);
    }

    /** Ends the writer and gives the pack; a second call gives none. */
    method Finish(nonce: nat) returns (r: Option<Built>)
      requires Valid()
      modifies this`finished
      ensures Valid() && finished && (r.None? <==> old(finished))
      ensures r.Some? ==> Whole(c, salt, maxSize, added, buf, r.value)
    {
      hide *;
      ValidMeans();
      if finished {
        return None;
      }
      finished := true;
      ValidIs();
      var es := Collect();
      var sorted := SortByKey(es, (e: Entry) => e.hash);
      SortedItems(es, sorted, added);
      LaidFits(c, salt, maxSize, added, buf, sorted);
      LaidMeans(c, salt, maxSize, added, buf);
      var plain := EncodeIndex(sorted);
      var sealed := c.seal(Index, salt, nonce, buf[..HEADER], plain);
      SealOpens(c, Index, salt, nonce, buf[..HEADER], plain);
      DecodedIs(plain, sorted, |buf|);
      IndexBounded(sorted);
      FinalSize(c, salt, maxSize, added, buf, |sealed|);
      NarrowFinal(|buf|, |sealed|);
      var b := buf + sealed + Trailer(|buf|, |sealed| % WORD32);
      var info := Info(c.digest(b), salt, |b|, sorted);
      FinalPack(c, salt, buf, sealed, plain, info, b);
      WholeIs(c, salt, maxSize, added, buf, sealed, Built(b, info));
      r := Some(Built(b, info));
    }
  }

  ghost predicate SameItems(a: seq<Entry>, b: seq<Entry>) {
    |a| == |b| && forall e :: e in a <==> e in b
  }

  // Entries taken from the map so far, and the keys still to take.
  ghost predicate Collected(entries: map<Hash, Entry>, keys: set<Hash>, es: seq<Entry>) {
    && keys <= entries.Keys && |es| + |keys| == |entries| && Distinct(es)
    && (forall i :: 0 <= i < |es| ==> es[i].hash in entries && es[i].hash !in keys && entries[es[i].hash] == es[i])
    && (forall h :: h in entries && h !in keys ==> entries[h] in es)
  }

  lemma CollectStarts(entries: map<Hash, Entry>)
    ensures Collected(entries, entries.Keys, [])
  {
    assert |entries| == |entries.Keys|;
  }

  lemma CollectNext(entries: map<Hash, Entry>, order: seq<Hash>, added: seq<Entry>, keys: set<Hash>, es: seq<Entry>,
                    h: Hash)
    requires Recorded(entries, order, added) && Collected(entries, keys, es) && h in keys
    ensures h in entries && Collected(entries, keys - {h}, es + [entries[h]])
  {
    var i :| 0 <= i < |order| && order[i] == h;
    var e, keys' := entries[h], keys - {h};
    assert e == added[i] && e.hash == h;
    assert |keys'| == |keys| - 1;
    hide Recorded;
    var es' := es + [e];
    forall i | 0 <= i < |es'| ensures es'[i].hash in entries && es'[i].hash !in keys'
      && entries[es'[i].hash] == es'[i] {
      if i < |es| {
        assert es'[i] == es[i];
      }
    }
    DistinctPush(es, e);
  }

  lemma CollectEnds(entries: map<Hash, Entry>, order: seq<Hash>, added: seq<Entry>, es: seq<Entry>)
    requires Recorded(entries, order, added) && Collected(entries, {}, es)
    ensures Distinct(es) && SameItems(es, added)
  {
    forall e ensures e in es <==> e in added {
      if e in es {
        var i :| 0 <= i < |es| && es[i] == e;
        assert entries[e.hash] == e && e.hash in order;
        var j :| 0 <= j < |order| && order[j] == e.hash;
        assert added[j] == e;
      }
      if e in added {
        var j :| 0 <= j < |added| && added[j] == e;
        assert entries[e.hash] == e;
      }
    }
  }

  lemma StillDistinct(es: seq<Entry>, out: seq<Entry>)
    requires Distinct(es) && multiset(out) == multiset(es)
    ensures Distinct(out)
  {
    forall i, j | 0 <= i < j < |out| ensures out[i].hash != out[j].hash {
      assert out[i] in multiset(es) && out[j] in multiset(es);
      var a :| 0 <= a < |es| && es[a] == out[i];
      var b :| 0 <= b < |es| && es[b] == out[j];
      if out[i].hash == out[j].hash {
        assert a == b;
        CountTwo(out, i, j);
        CountOne(es, out[i]);
      }
    }
  }

  lemma SortedItems(es: seq<Entry>, out: seq<Entry>, added: seq<Entry>)
    requires Distinct(es) && SameItems(es, added) && multiset(out) == multiset(es) && Ascends(out, (e: Entry) => e.hash)
    ensures ByHash(out) && SameItems(out, added)
  {
    StillDistinct(es, out);
    forall i, j | 0 <= i < j < |out| ensures Rank(out[i].hash) < Rank(out[j].hash) {
      RankOrders(out[i].hash, out[j].hash);
    }
    assert |out| == |multiset(out)| == |multiset(es)| == |es|;
    forall e ensures e in out <==> e in es {
      assert e in out <==> e in multiset(out);
      assert e in es <==> e in multiset(es);
    }
  }

  lemma {:induction false} Reaches(es: seq<Entry>, end: nat, i: nat, j: nat)
    requires Adjacent(es, end) && i < j < |es|
    ensures Before(es[i], es[j])
    decreases j
  {
    if i < j - 1 {
      Reaches(es, end, i, j - 1);
    }
  }

  lemma Spans(es: seq<Entry>, end: nat, i: nat)
    requires Adjacent(es, end) && i < |es|
    ensures HEADER <= es[i].offset && es[i].offset + es[i].stored <= end
  {
    if i > 0 {
      Reaches(es, end, 0, i);
    }
    if i < |es| - 1 {
      Reaches(es, end, i, |es| - 1);
    }
  }

  // Frames laid back to back are apart, in whatever order they are listed.
  lemma ListedApart(es: seq<Entry>, end: nat, out: seq<Entry>)
    requires Adjacent(es, end) && Distinct(es) && SameItems(out, es) && ByHash(out) && HEADER <= end
    ensures Apart(out, HEADER, end)
  {
    forall i | 0 <= i < |out| ensures HEADER <= out[i].offset && out[i].offset + out[i].stored <= end {
      assert out[i] in es;
      var a :| 0 <= a < |es| && es[a] == out[i];
      Spans(es, end, a);
    }
    forall i, j | 0 <= i < j < |out| ensures Before(out[i], out[j]) || Before(out[j], out[i]) {
      assert out[i] in es && out[j] in es;
      var a :| 0 <= a < |es| && es[a] == out[i];
      var b :| 0 <= b < |es| && es[b] == out[j];
      assert Rank(out[i].hash) < Rank(out[j].hash);
      if a < b {
        Reaches(es, end, a, b);
      } else {
        Reaches(es, end, b, a);
      }
    }
  }

  lemma LaidFits(c: Crypto, salt: Salt, maxSize: nat, es: seq<Entry>, buf: seq<byte>, out: seq<Entry>)
    requires Laid(c, salt, maxSize, es, buf) && SameItems(out, es) && ByHash(out)
    ensures Fits(out, |buf|) && AllHeld(c, salt, out, buf) && AllNarrow(out) && |out| == |es| < WORD32
  {
    hide *;
    LaidMeans(c, salt, maxSize, es, buf);
    SameCount(out, es);
    FewItems(|es|);
    ListedApart(es, |buf|, out);
    HeldSame(c, salt, es, buf, out);
    HeldItems(c, salt, buf, out);
    FitsIs(out, |buf|);
  }

  lemma FewItems(n: nat)
    requires n <= MAX_CHUNKS
    ensures n < WORD32
  {
  }

  lemma SameCount(a: seq<Entry>, b: seq<Entry>)
    requires SameItems(a, b)
    ensures |a| == |b|
  {
  }

  lemma FitsIs(es: seq<Entry>, at: nat)
    requires |es| <= MAX_CHUNKS && ItemsOk(es, at) && Apart(es, HEADER, at)
    ensures Fits(es, at)
  {
    hide ItemsOk, Apart;
  }

  lemma HeldSame(c: Crypto, salt: Salt, es: seq<Entry>, buf: seq<byte>, out: seq<Entry>)
    requires AllHeld(c, salt, es, buf) && SameItems(out, es)
    ensures AllHeld(c, salt, out, buf)
  {
    hide Held;
    forall i | 0 <= i < |out| ensures Held(c, salt, out[i], buf) {
      assert out[i] in es;
    }
  }

  lemma HeldItems(c: Crypto, salt: Salt, buf: seq<byte>, out: seq<Entry>)
    requires AllHeld(c, salt, out, buf) && ByHash(out) && |buf| < WORD32
    ensures ItemsOk(out, |buf|) && AllNarrow(out)
  {
    hide OpenFrame, ByHash;
    forall i | 0 <= i < |out| ensures ItemOk(out[i], |buf|) && out[i].stored < WORD32 && out[i].offset < WORD32 {
      assert Held(c, salt, out[i], buf);
    }
  }

  // A pack of two or more chunks keeps to its size, and every pack to the format's.
  lemma FinalSize(c: Crypto, salt: Salt, maxSize: nat, es: seq<Entry>, buf: seq<byte>, index: nat)
    requires Laid(c, salt, maxSize, es, buf) && index <= IndexBound(|es|)
    ensures |es| >= 2 ==> |buf| + index + TRAILER <= maxSize
    ensures |buf| + index + TRAILER <= MAX_PACK
  {
    hide Adjacent, AllHeld, Distinct, Header;
    assert |es| <= 1 ==> IndexBound(|es|) <= 100;
  }

  lemma NarrowFinal(at: nat, index: nat)
    requires at + index + TRAILER <= MAX_PACK
    ensures index % WORD32 == index < WORD32 && at < WORD32
  {
  }

  lemma FinalLayout(buf: seq<byte>, sealed: seq<byte>, t: seq<byte>)
    requires |buf| >= HEADER && |t| == TRAILER
    ensures var b := buf + sealed + t;
            && b[..HEADER] == buf[..HEADER] && b[|b| - TRAILER..] == t && b[|buf|..|b| - TRAILER] == sealed && buf <= b
            && |b| == |buf| + |sealed| + TRAILER && b == buf + (sealed + t)
  {
  }

  lemma FinalPack(c: Crypto, salt: Salt, buf: seq<byte>, sealed: seq<byte>, plain: seq<byte>, info: Info, b: seq<byte>)
    requires HEADER <= |buf| < WORD32 && |sealed| < WORD32 && buf[..HEADER] == Header(salt)
    requires b == buf + sealed + Trailer(|buf|, |sealed|) && c.open(Index, salt, buf[..HEADER], sealed) == Some(plain)
    requires Decoded(plain, |buf|) == Some(info.entries) && info.name == c.digest(b) && info.salt == salt
             && info.size == |b|
    ensures PackAt(c, b, |buf|, info)
  {
    hide Decoded, Trailer, Header;
    FinalLayout(buf, sealed, Trailer(|buf|, |sealed|));
  }

  /** What finishing promises of a writer's frames: the pack reads back to its description, which lists exactly the
      entries added; the index is as long as its entries make it; the size limit holds; and every frame opens. */
  ghost predicate Whole(c: Crypto, salt: Salt, maxSize: nat, es: seq<Entry>, buf: seq<byte>, b: Built) {
    && PackAt(c, b.bytes, |buf|, b.info) && b.info.salt == salt && buf <= b.bytes && Adjacent(es, |buf|)
    && ByHash(b.info.entries) && SameItems(b.info.entries, es) && Fits(b.info.entries, |buf|)
    && |b.bytes| == |buf| + |EncodedIndex(b.info.entries)| + OVERHEAD + TRAILER
    && (|es| >= 2 ==> |b.bytes| <= maxSize) && |b.bytes| <= MAX_PACK
    && AllHeld(c, salt, b.info.entries, b.bytes)
  }

  lemma WholeIs(c: Crypto, salt: Salt, maxSize: nat, es: seq<Entry>, buf: seq<byte>, sealed: seq<byte>, b: Built)
    requires PackAt(c, b.bytes, |buf|, b.info) && b.info.salt == salt
             && b.bytes == buf + sealed + Trailer(|buf|, |sealed|)
    requires HEADER <= |buf| && Adjacent(es, |buf|) && ByHash(b.info.entries) && SameItems(b.info.entries, es)
             && Fits(b.info.entries, |buf|)
    requires |sealed| == |EncodedIndex(b.info.entries)| + OVERHEAD && AllHeld(c, salt, b.info.entries, buf)
    requires (|es| >= 2 ==> |buf| + |sealed| + TRAILER <= maxSize) && |buf| + |sealed| + TRAILER <= MAX_PACK
    ensures Whole(c, salt, maxSize, es, buf, b)
  {
    hide *;
    FinalLayout(buf, sealed, Trailer(|buf|, |sealed|));
    AllHeldLonger(c, salt, b.info.entries, buf, sealed + Trailer(|buf|, |sealed|));
    WholeFolds(c, salt, maxSize, es, buf, b);
  }

  lemma WholeFolds(c: Crypto, salt: Salt, maxSize: nat, es: seq<Entry>, buf: seq<byte>, b: Built)
    requires PackAt(c, b.bytes, |buf|, b.info) && b.info.salt == salt && buf <= b.bytes && Adjacent(es, |buf|)
    requires ByHash(b.info.entries) && SameItems(b.info.entries, es) && Fits(b.info.entries, |buf|)
    requires |b.bytes| == |buf| + |EncodedIndex(b.info.entries)| + OVERHEAD + TRAILER
    requires (|es| >= 2 ==> |b.bytes| <= maxSize) && |b.bytes| <= MAX_PACK
    requires AllHeld(c, salt, b.info.entries, b.bytes)
    ensures Whole(c, salt, maxSize, es, buf, b)
  {
    hide PackAt, Adjacent, ByHash, SameItems, Fits, EncodedIndex, AllHeld;
  }

  /** A pack is read back as itself: the reader's answer on its bytes and name is its description, no other. */
  lemma ReadsBack(c: Crypto, b: seq<byte>, at: nat, info: Info, r: Outcome)
    requires PackAt(c, b, at, info) && Answers(c, info.name, b, r)
    ensures r == Read(info)
  {
    PackEnds(c, b, at, info);
    PackOpens(c, b, at, info);
    PackNamed(c, b, at, info);
    hide PackAt, Decoded, HeaderOk, TrailerOk, ReadTrailer;
    if r.Read? {
      var at' :| PackAt(c, b, at', r.info);
      PackEnds(c, b, at', r.info);
      PackOpens(c, b, at', r.info);
      PackNamed(c, b, at', r.info);
    }
  }

  lemma PackNamed(c: Crypto, b: seq<byte>, at: nat, info: Info)
    requires PackAt(c, b, at, info)
    ensures info.name == c.digest(b) && info.size == |b|
  {
  }

  lemma RecordedLen(entries: map<Hash, Entry>, order: seq<Hash>, es: seq<Entry>)
    requires Recorded(entries, order, es)
    ensures |entries| == |order| == |es|
  {
  }

  lemma VerdictIs(finished: bool, es: seq<Entry>, len: nat, maxSize: nat, h: Hash, raw: nat, stored: nat)
    ensures Verdict(finished, es, len, maxSize, h, raw, stored) ==
              if finished then Finished
              else if raw > MAX_CHUNK then TooLarge
              else if |es| >= MAX_CHUNKS then Full
              else if Lists(es, h) then Duplicate
              else if |es| > 0 && len + stored + IndexBound(|es| + 1) + TRAILER > maxSize then Full
              else Ok
  {
  }

  lemma NarrowEntry(h: Hash, at: nat, stored: nat, raw: nat, codec: byte)
    requires LengthsAgree(codec, stored, raw) && raw <= MAX_CHUNK && at < WORD32
    ensures Entry(h, at % WORD32, stored % WORD32, raw % WORD32, codec) == Entry(h, at, stored, raw, codec)
  {
  }
}
