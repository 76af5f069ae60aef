/** Content-defined chunking: where a stream is cut, the serial chunker that rolls a hash byte by byte,
    and the parallel one that marks blocks independently and places the cuts afterwards. */
module Cdc {
  import opened Keys
  import opened Basics
  import opened Buzhash

  const MIN_MIN := 64
  const MAX_CHUNK_SIZE := 1048576

  datatype Geometry = Geometry(min: nat, max: nat, mask: bv64)
  {
    // The mask has 8 to 30 low bits set and no other.
    predicate Valid() {
      !(min < MIN_MIN) && !(max <= min) && !(max > MAX_CHUNK_SIZE) && mask & (mask + 1) == 0
        && 0xFF <= mask <= 0x3FFF_FFFF
    }
  }

  /** A geometry and the hash table cuts are made with. */
  datatype Cutter = Cutter(g: Geometry, t: Table)
  {
    predicate Hard(h: bv64) {
      h & ((g.mask << 2) | g.mask) == 0
    }

    predicate Easy(h: bv64) {
      h & (g.mask >> 2) == 0
    }
  }

  /******** Where a stream is cut ********/

  ghost function HashAfter(c: Cutter, s: seq<byte>, i: nat): bv64
    requires i < |s|
  {
    Hash(c.t, Window(s[..i + 1]))
  }

  // Whether the chunk that starts at start ends with byte i.
  ghost predicate Cuts(c: Cutter, s: seq<byte>, start: nat, i: nat)
    requires start <= i < |s|
  {
    var size := i + 1 - start;
    if size < c.g.min then c.Hard(HashAfter(c, s, i))
    else if size < c.g.max then c.Easy(HashAfter(c, s, i))
    else true
  }

  // The end of the chunk that starts at start, of which bytes up to i do not end it.
  ghost function EndFrom(c: Cutter, s: seq<byte>, start: nat, i: nat): (e: nat)
    requires start <= i <= |s|
    ensures i <= e <= |s| && (i < |s| ==> i < e)
    decreases |s| - i
  {
    if i == |s| then i else if Cuts(c, s, start, i) then i + 1 else EndFrom(c, s, start, i + 1)
  }

  ghost function EndOf(c: Cutter, s: seq<byte>, start: nat): (e: nat)
    requires start <= |s|
    ensures start <= e <= |s| && (start < |s| ==> start < e)
  {
    EndFrom(c, s, start, start)
  }

  ghost function Chunks(c: Cutter, s: seq<byte>, start: nat): seq<seq<byte>>
    requires start <= |s|
    decreases |s| - start
  {
    if start == |s| then [] else [s[start..EndOf(c, s, start)]] + Chunks(c, s, EndOf(c, s, start))
  }

  // The chunks are the stream, cut: nothing is lost, added or moved.
  lemma {:induction false} ChunksAreStream(c: Cutter, s: seq<byte>, start: nat)
    requires start <= |s|
    ensures Flat(Chunks(c, s, start)) == s[start..]
    decreases |s| - start
  {
    if start < |s| {
      var e := EndOf(c, s, start);
      ChunksAreStream(c, s, e);
      var first, rest := s[start..e], Chunks(c, s, e);
      assert ([first] + rest)[1..] == rest;
      assert s[start..] == first + s[e..];
    }
  }

  lemma {:induction false} EndFromBound(c: Cutter, s: seq<byte>, start: nat, i: nat)
    requires start <= i <= |s| && c.g.Valid() && i - start < c.g.max
    ensures EndFrom(c, s, start, i) - start <= c.g.max
    decreases |s| - i
  {
    if i < |s| && !Cuts(c, s, start, i) {
      EndFromBound(c, s, start, i + 1);
    }
  }

  // Every chunk holds at least a byte and none exceeds the maximum.
  lemma {:induction false} ChunkSizes(c: Cutter, s: seq<byte>, start: nat)
    requires start <= |s| && c.g.Valid()
    ensures forall k :: 0 <= k < |Chunks(c, s, start)| ==> 1 <= |Chunks(c, s, start)[k]| <= c.g.max
    decreases |s| - start
  {
    if start < |s| {
      EndFromBound(c, s, start, start);
      ChunkSizes(c, s, EndOf(c, s, start));
    }
  }

  // Streams that agree from 47 bytes before a position on agree in every window from there.
  ghost predicate SameFrom(s: seq<byte>, p: nat, s': seq<byte>, p': nat) {
    47 <= p <= |s| && 47 <= p' <= |s'| && |s| - p == |s'| - p' && s[p - 47..] == s'[p' - 47..]
  }

  lemma SameWindow(s: seq<byte>, p: nat, s': seq<byte>, p': nat, i: nat)
    requires SameFrom(s, p, s', p') && p <= i < |s|
    ensures Window(s[..i + 1]) == Window(s'[..i - p + p' + 1])
  {
    WindowIsTail(s[..i + 1]);
    WindowIsTail(s'[..i - p + p' + 1]);
    SameSlice(s, p, s', p', i - 47, i + 1);
  }

  lemma WindowIsTail(s: seq<byte>)
    requires |s| >= WINDOW
    ensures Window(s) == s[|s| - WINDOW..]
  {
  }

  lemma {:induction false} SameEnd(c: Cutter, s: seq<byte>, p: nat, s': seq<byte>, p': nat, start: nat, i: nat)
    requires SameFrom(s, p, s', p') && p <= start <= i <= |s|
    ensures EndFrom(c, s, start, i) - p == EndFrom(c, s', start - p + p', i - p + p') - p'
    decreases |s| - i
  {
    if i < |s| {
      SameWindow(s, p, s', p', i);
      SameEnd(c, s, p, s', p', start, i + 1);
    }
  }

  // Two streams cut at positions after which they agree are cut alike ever after: an edit costs the chunks
  // around it and no other.
  lemma {:induction false} Resync(c: Cutter, s: seq<byte>, p: nat, s': seq<byte>, p': nat, start: nat)
    requires SameFrom(s, p, s', p') && p <= start <= |s|
    ensures Chunks(c, s, start) == Chunks(c, s', start - p + p')
    decreases |s| - start
  {
    if start < |s| {
      var start' := start - p + p';
      SameEnd(c, s, p, s', p', start, start);
      var e := EndOf(c, s, start);
      Resync(c, s, p, s', p', e);
      SameSlice(s, p, s', p', start, e);
    }
  }

  lemma SameSlice(s: seq<byte>, p: nat, s': seq<byte>, p': nat, a: nat, b: nat)
    requires SameFrom(s, p, s', p') && p - 47 <= a <= b <= |s|
    ensures s[a..b] == s'[a - p + p'..b - p + p']
  {
    var n := p - 47;
    SliceOfSlice(s, n, |s|, a - n, b - n);
    SliceOfSlice(s', p' - 47, |s'|, a - n, b - n);
  }

  // No byte of a stretch ends the chunk.
  ghost predicate Uncut(c: Cutter, s: seq<byte>, start: nat, a: nat, b: nat)
    requires start <= a && b <= |s|
  {
    forall i :: a <= i < b ==> !Cuts(c, s, start, i)
  }

  lemma {:induction false} EndIs(c: Cutter, s: seq<byte>, start: nat, a: nat, b: nat)
    requires start <= a <= b <= |s| && Uncut(c, s, start, a, b)
    ensures EndFrom(c, s, start, a) == EndFrom(c, s, start, b)
    decreases b - a
  {
    if a < b {
      EndIs(c, s, start, a + 1, b);
    }
  }

  /******** The serial chunker ********/

  class Chunker {
    const c: Cutter
    const win: array<byte>
    var pos: nat
    var hash: bv64
    var rd: seq<byte>
    var rpos: nat
    // The reads still to come.
    var input: seq<seq<byte>>
    ghost const stream: seq<byte>
    // Bytes of the stream rolled so far.
    ghost var at: nat

    // The ring holds the last 48 bytes rolled, and the hash is theirs.
    ghost predicate Rolled()
      reads this, win
    {
      && win.Length == WINDOW && pos < WINDOW && at <= |stream|
      && win[pos..] + win[..pos] == Window(stream[..at])
      && hash == Hash(c.t, Window(stream[..at]))
    }

    ghost predicate Valid()
      reads this, win
    {
      c.g.Valid() && Rolled() && rpos <= |rd| && stream[at..] == rd[rpos..] + Flat(input)
    }

    constructor (c: Cutter, input: seq<seq<byte>>)
      requires c.g.Valid()
      ensures Valid() && fresh(win) && this.c == c && stream == Flat(input) && at == 0
    {
      this.c := c;
      var h := ZeroWindowHash(c.t);
      win := new byte[WINDOW](i => 0);
      pos, hash, rd, rpos, this.input := 0, h, [], 0, input;
      stream, at := Flat(input), 0;
      new;
      assert stream[..0] == [];
      assert win[0..] + win[..0] == Window([]);
      assert stream[0..] == [] + Flat(input);
    }

    // Rolls the hash over the next byte of the stream.
    method RollByte(b: byte)
      requires Rolled() && at < |stream| && b == stream[at]
      modifies `pos, `hash, `at, win
      ensures Rolled() && at == old(at) + 1
    {
      hide Hash, Roll, Window;
      ghost var w, p := win[..], pos;
      assert win[pos..] + win[..pos] == w[p..] + w[..p];
      WindowSize(stream[..at]);
      WindowNext(c.t, stream[..at], b);
      WindowShift(stream[..at], b);
      assert stream[..at] + [b] == stream[..at + 1];
      hash := Roll(c.t, hash, win[pos], b);
      win[pos] := b;
      pos := pos + 1;
      if pos == WINDOW {
        pos := 0;
      }
      at := at + 1;
      RingStep(w, p, b);
      assert win[..] == w[p := b];
      assert win[pos..] + win[..pos] == win[..][pos..] + win[..][..pos];
    }

    /** Judges the next bytes p for a chunk already n long: end is where the stream's own cut falls in p, or
        the whole of p when it falls later. */
    method Scan(p: seq<byte>, n: nat) returns (end: nat, cut: bool)
      requires c.g.Valid() && Rolled() && n <= at && n < c.g.max
      requires at + |p| <= |stream| && stream[at..at + |p|] == p
      modifies `pos, `hash, `at, win
      ensures Rolled() && end <= |p| && at == old(at) + end
      ensures cut ==> end > 0 && Uncut(c, stream, old(at) - n, old(at), at - 1) && Cuts(c, stream, old(at) - n, at - 1)
      ensures !cut ==> end == |p| && Uncut(c, stream, old(at) - n, old(at), at) && n + |p| < c.g.max
    {
      hide *;
      ghost var start, from := at - n, at;
      UncutNone(c, stream, start, from);
      var i := 0;
      // Below the minimum length the hard mask decides.
      while i < |p| && i < c.g.min - n - 1
        invariant 0 <= i <= |p| && Rolled() && at == from + i
        invariant Uncut(c, stream, start, from, at)
        invariant i > 0 ==> i <= c.g.min - n - 1
      {
        RollByte(p[i]);
        Judged(start);
        if c.Hard(hash) {
          return i + 1, true;
        }
        UncutPush(c, stream, start, from, at - 1);
        i := i + 1;
      }
      MinUnderMax(c.g);
      // From there to the maximum the easy mask does.
      while i < |p| && i < c.g.max - n - 1
        invariant 0 <= i <= |p| && Rolled() && at == from + i
        invariant Uncut(c, stream, start, from, at)
        invariant i == |p| || i >= c.g.min - n - 1
        invariant i <= c.g.max - n - 1
      {
        RollByte(p[i]);
        Judged(start);
        if c.Easy(hash) {
          return i + 1, true;
        }
        UncutPush(c, stream, start, from, at - 1);
        i := i + 1;
      }
      // At the maximum the chunk is cut without asking the hash.
      if i < |p| {
        RollByte(p[i]);
        Judged(start);
        return i + 1, true;
      }
      return |p|, false;
    }

    // How the byte just rolled is judged in a chunk that starts at start.
    lemma Judged(start: nat)
      requires c.g.Valid() && Rolled() && start < at
      ensures at <= |stream|
      ensures at - start < c.g.min ==> (Cuts(c, stream, start, at - 1) <==> c.Hard(hash))
      ensures c.g.min <= at - start < c.g.max ==> (Cuts(c, stream, start, at - 1) <==> c.Easy(hash))
      ensures at - start >= c.g.max ==> Cuts(c, stream, start, at - 1)
    {
    }

    lemma ValidMeans()
      requires Valid()
      ensures c.g.Valid() && Rolled() && at <= |stream| && rpos <= |rd| && stream[at..] == rd[rpos..] + Flat(input)
    {
    }

    // Moves past bytes of the read buffer that were scanned.
    method Pass(k: nat)
      requires c.g.Valid() && Rolled() && rpos + k <= |rd| && at <= |stream|
               && stream[at..] == rd[rpos + k..] + Flat(input)
      modifies `rpos
      ensures Valid() && rpos == old(rpos) + k
    {
      rpos := rpos + k;
    }

    // Takes the next read, when the buffer is used up; false at the end of the stream.
    method Fill() returns (ok: bool)
      requires Valid() && rpos >= |rd|
      modifies `rd, `rpos, `input
      ensures Valid()
      ensures ok ==> |input| < |old(input)|
      ensures !ok ==> at == |stream|
    {
      assert rd[rpos..] == [];
      if input == [] {
        return false;
      }
      assert stream[at..] == input[0] + Flat(input[1..]);
      rd, rpos, input := input[0], 0, input[1..];
      assert rd[0..] == rd;
      ok := true;
    }

    // Scans the rest of the read buffer into the chunk under way.
    method ScanBuffer(buf: seq<byte>, ghost start: nat) returns (buf': seq<byte>, cut: bool)
      requires Valid() && rpos < |rd| && start <= at <= |stream| && buf == stream[start..at] && |buf| < c.g.max
      requires Uncut(c, stream, start, start, at)
      modifies `pos, `hash, `at, `rpos, win
      ensures Valid() && start <= at <= |stream| && buf' == stream[start..at]
      ensures cut ==> start < at && at == EndOf(c, stream, start)
      ensures !cut ==> |buf'| < c.g.max && Uncut(c, stream, start, start, at) && rpos == |rd|
    {
      hide *;
      ValidMeans();
      ghost var was := at;
      var p := rd[rpos..];
      TailPrefix(stream, at, p, Flat(input));
      var end;
      end, cut := Scan(p, |buf|);
      Consumed(stream, start, was, p, end, Flat(input));
      DropTwice(rd, rpos, end);
      buf' := buf + p[..end];
      Pass(end);
      if cut {
        UncutJoin(c, stream, start, start, was, at - 1);
        EndAtCut(c, stream, start, at - 1);
      } else {
        UncutJoin(c, stream, start, start, was, at);
      }
    }

    /** The next chunk, or none at the end of the stream. */
    method Next() returns (chunk: Option<seq<byte>>)
      requires Valid()
      modifies this, win
      ensures Valid()
      ensures old(at) == |stream| ==> chunk == None && at == old(at)
      ensures old(at) < |stream| ==> at == EndOf(c, stream, old(at)) && chunk == Some(stream[old(at)..at])
    {
      hide *;
      ValidMeans();
      var buf: seq<byte> := [];
      ghost var start := at;
      UncutNone(c, stream, start, start);
      MinUnderMax(c.g);
      while true
        invariant Valid() && start <= at <= |stream| && buf == stream[start..at] && |buf| < c.g.max
        invariant Uncut(c, stream, start, start, at)
        decreases |input|, |rd| - rpos
      {
        ValidMeans();
        if rpos >= |rd| {
          var ok := Fill();
          if !ok {
            EndAtLast(c, stream, start);
            return if buf == [] then None else Some(buf);
          }
        }
        if rpos < |rd| {
          var cut;
          buf, cut := ScanBuffer(buf, start);
          if cut {
            return Some(buf);
          }
        }
      }
    }
  }

  lemma ChunksPush(c: Cutter, s: seq<byte>, start: nat, done: seq<seq<byte>>)
    requires start < |s| && done + Chunks(c, s, start) == Chunks(c, s, 0)
    ensures var e := EndOf(c, s, start); done + [s[start..e]] + Chunks(c, s, e) == Chunks(c, s, 0)
  {
    var e := EndOf(c, s, start);
    AppendAssoc(done, [s[start..e]], Chunks(c, s, e));
  }

  /** Cuts a whole stream with the serial chunker. */
  method CutSerial(c: Cutter, input: seq<seq<byte>>) returns (chunks: seq<seq<byte>>)
    requires c.g.Valid()
    ensures chunks == Chunks(c, Flat(input), 0)
  {
    hide Cuts, EndOf, Flat, Chunker.Valid, Geometry.Valid;
    var ch := new Chunker(c, input);
    chunks := [];
    var chunk := ch.Next();
    ghost var s, start := Flat(input), 0;
    while chunk.Some?
      invariant ch.Valid() && fresh(ch) && fresh(ch.win) && ch.c == c && ch.stream == s && start <= |s|
      invariant chunk.None? ==> start == |s|
      invariant chunk.Some? ==> start < |s| && ch.at == EndOf(c, s, start) && chunk.value == s[start..ch.at]
      invariant chunks + Chunks(c, s, start) == Chunks(c, s, 0)
      decreases |s| - start
    {
      ChunksPush(c, s, start, chunks);
      chunks, start := chunks + [chunk.value], ch.at;
      chunk := ch.Next();
    }
  }

  lemma Consumed(s: seq<byte>, start: nat, was: nat, p: seq<byte>, end: nat, rest: seq<byte>)
    requires start <= was && was + |p| <= |s| && end <= |p| && s[was..] == p + rest && s[was..was + |p|] == p
    ensures s[start..was] + p[..end] == s[start..was + end]
    ensures s[was + end..] == p[end..] + rest
  {
    assert s[was..was + |p|][..end] == s[was..was + end];
    assert s[was..][end..] == s[was + end..];
    assert (p + rest)[end..] == p[end..] + rest;
  }

  lemma MinUnderMax(g: Geometry)
    requires g.Valid()
    ensures 1 < g.min < g.max
  {
  }

  lemma UncutNone(c: Cutter, s: seq<byte>, start: nat, a: nat)
    requires start <= a <= |s|
    ensures Uncut(c, s, start, a, a)
  {
  }

  lemma UncutPush(c: Cutter, s: seq<byte>, start: nat, a: nat, b: nat)
    requires start <= a <= b < |s| && Uncut(c, s, start, a, b) && !Cuts(c, s, start, b)
    ensures Uncut(c, s, start, a, b + 1)
  {
  }

  lemma UncutJoin(c: Cutter, s: seq<byte>, start: nat, a: nat, b: nat, d: nat)
    requires start <= a <= b <= d <= |s| && Uncut(c, s, start, a, b) && Uncut(c, s, start, b, d)
    ensures Uncut(c, s, start, a, d)
  {
  }

  // A chunk no byte ends runs to the end of the stream.
  lemma EndAtLast(c: Cutter, s: seq<byte>, start: nat)
    requires start <= |s| && Uncut(c, s, start, start, |s|)
    ensures EndOf(c, s, start) == |s|
  {
    EndIs(c, s, start, start, |s|);
  }

  // A chunk ends at the first byte that ends it.
  lemma EndAtCut(c: Cutter, s: seq<byte>, start: nat, i: nat)
    requires start <= i < |s| && Uncut(c, s, start, start, i) && Cuts(c, s, start, i)
    ensures EndOf(c, s, start) == i + 1
  {
    EndIs(c, s, start, start, i);
  }

  lemma TailPrefix(s: seq<byte>, at: nat, p: seq<byte>, rest: seq<byte>)
    requires at <= |s| && s[at..] == p + rest
    ensures at + |p| <= |s| && s[at..at + |p|] == p
  {
    assert s[at..at + |p|] == s[at..][..|p|];
  }

  lemma RingStep(w: seq<byte>, p: nat, b: byte)
    requires |w| == WINDOW && p < WINDOW
    ensures var q := if p + 1 == WINDOW then 0 else p + 1; var w' := w[p := b];
            w'[q..] + w'[..q] == (w[p..] + w[..p])[1..] + [b] && (w[p..] + w[..p])[0] == w[p]
  {
  }
}
