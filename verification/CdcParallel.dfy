/** The parallel chunker: blocks marked from nothing but the 47 bytes before them, and the placer that
    cuts by the marks. */
module CdcParallel {
  import opened Keys
  import opened Basics
  import opened Buzhash
  import opened Cdc

  /** A bitmap in words of 64 bits, least significant first. */
  type Word = w: seq<bool> | |w| == 64 witness seq(64, i => false)

  predicate Bit(bm: seq<Word>, i: nat)
    requires i / 64 < |bm|
  {
    bm[i / 64][i % 64]
  }

  function Blank(n: nat): (bm: seq<Word>)
    ensures |bm| == (n + 63) / 64
    ensures forall i :: 0 <= i < n ==> i / 64 < |bm| && !Bit(bm, i)
  {
    seq((n + 63) / 64, k => seq(64, i => false))
  }

  function SetBit(bm: seq<Word>, i: nat): (r: seq<Word>)
    requires i / 64 < |bm|
    ensures |r| == |bm|
    ensures forall j :: 0 <= j && j / 64 < |bm| ==> Bit(r, j) == (j == i || Bit(bm, j))
  {
    bm[i / 64 := bm[i / 64][i % 64 := true]]
  }

  // The position of the lowest bit set, or 64.
  function TrailingZeros(w: seq<bool>): (k: nat)
    ensures k <= |w| && (k < |w| ==> w[k]) && forall j :: 0 <= j < k ==> !w[j]
  {
    if w == [] || w[0] then 0 else 1 + TrailingZeros(w[1..])
  }

  // Clears the bits below k.
  function MaskFrom(w: Word, k: nat): (r: Word)
    requires k < 64
    ensures forall j :: 0 <= j < 64 ==> r[j] == (j >= k && w[j])
  {
    seq(64, j requires 0 <= j < 64 => j >= k && w[j])
  }

  // The first bit set in [from, upTo), or none.
  method FirstSet(bm: seq<Word>, from: nat, upTo: nat) returns (r: Option<nat>)
    requires from <= upTo && (upTo + 63) / 64 <= |bm|
    ensures r.Some? ==> from <= r.value < upTo && r.value / 64 < |bm| && Bit(bm, r.value)
    ensures r.Some? ==> forall j :: from <= j < r.value ==> j / 64 < |bm| && !Bit(bm, j)
    ensures r.None? ==> forall j :: from <= j < upTo ==> j / 64 < |bm| && !Bit(bm, j)
  {
    var w := from / 64;
    while w * 64 < upTo
      invariant from / 64 <= w
      invariant forall j :: from <= j < upTo && j < w * 64 ==> j / 64 < |bm| && !Bit(bm, j)
      decreases upTo - w * 64
    {
      var word := bm[w];
      if w == from / 64 {
        word := MaskFrom(word, from % 64);
      }
      var k := TrailingZeros(word);
      if k < 64 {
        var i := w * 64 + k;
        Below(bm, from, w, k, word);
        if i < upTo {
          return Some(i);
        }
        return None;
      }
      Below(bm, from, w, 64, word);
      w := w + 1;
    }
    r := None;
  }

  // What a word's clear low bits say of the bitmap.
  lemma Below(bm: seq<Word>, from: nat, w: nat, k: nat, word: Word)
    requires from / 64 <= w < |bm| && k <= 64
    requires forall j :: 0 <= j < 64 ==> word[j] == ((w > from / 64 || j >= from % 64) && bm[w][j])
    requires forall j :: 0 <= j < k ==> !word[j]
    ensures forall j :: from <= j < w * 64 + k && j >= w * 64 ==> j / 64 < |bm| && !Bit(bm, j)
    ensures k < 64 && word[k] ==> w * 64 + k >= from && Bit(bm, w * 64 + k)
  {
    forall j | from <= j < w * 64 + k && j >= w * 64
      ensures j / 64 < |bm| && !Bit(bm, j)
    {
      assert j / 64 == w && j % 64 == j - w * 64;
      assert !word[j - w * 64];
    }
    if k < 64 {
      assert (w * 64 + k) / 64 == w && (w * 64 + k) % 64 == k;
    }
  }

  /******** Marking ********/

  // The bytes a block's window starts from: zeros, then the bytes before it.
  ghost function Before(prev: seq<byte>): (h: seq<byte>)
    requires |prev| < WINDOW
    ensures |h| == WINDOW
  {
    Zeros(WINDOW - |prev|) + prev
  }

  // The window a block knows after its byte i.
  ghost function BlockWindow(prev: seq<byte>, data: seq<byte>, i: nat): (w: seq<byte>)
    requires |prev| < WINDOW && i < |data|
    ensures |w| == WINDOW
  {
    (Before(prev) + data)[i + 1..i + 1 + WINDOW]
  }

  lemma WarmIs(prev: seq<byte>, k: nat)
    requires |prev| < WINDOW && k < |prev|
    ensures Window(prev[..k])[0] == 0 && prev[..k] + [prev[k]] == prev[..k + 1]
  {
    WindowShift(prev[..k], 0);
  }

  lemma WarmDone(prev: seq<byte>)
    requires |prev| < WINDOW
    ensures Window(prev) == Before(prev)
  {
  }

  lemma SlideIs(t: Table, prev: seq<byte>, data: seq<byte>, i: nat)
    requires |prev| < WINDOW && i < |data|
    ensures var all := Before(prev) + data;
            && |all| == WINDOW + |data|
            && all[i..i + WINDOW][0] == (if i >= WINDOW then data[i - WINDOW] else Before(prev)[i])
            && all[i..i + WINDOW][1..] + [data[i]] == BlockWindow(prev, data, i)
  {
  }

  /** One bit for each position of data and each mask: set exactly where the serial hash of prev + data hits. */
  method Mark(c: Cutter, prev: seq<byte>, data: seq<byte>) returns (hard: seq<Word>, easy: seq<Word>)
    requires |prev| < WINDOW
    ensures |hard| == |easy| == (|data| + 63) / 64
    ensures forall i :: 0 <= i < |data| ==>
              && i / 64 < |hard|
              && (Bit(hard, i) <==> c.Hard(Hash(c.t, BlockWindow(prev, data, i))))
              && (Bit(easy, i) <==> c.Easy(Hash(c.t, BlockWindow(prev, data, i))))
  {
    hide Hash, Roll, Window, Before;
    hard, easy := Blank(|data|), Blank(|data|);
    ghost var all := Before(prev) + data;
    var hist := seq(WINDOW - |prev|, i => 0) + prev;
    HistIs(prev, hist);
    var hash := ZeroWindowHash(c.t);
    assert prev[..0] == [];
    for k := 0 to |prev|
      invariant hash == Hash(c.t, Window(prev[..k]))
    {
      WarmIs(prev, k);
      WindowNext(c.t, prev[..k], prev[k]);
      hash := Roll(c.t, hash, 0, prev[k]);
    }
    assert prev[..|prev|] == prev;
    WarmDone(prev);
    assert all[0..WINDOW] == Before(prev);
    for i := 0 to |data|
      invariant |hard| == |easy| == (|data| + 63) / 64
      invariant hash == Hash(c.t, all[i..i + WINDOW])
      invariant MarkedTo(c, prev, data, hard, easy, i)
    {
      var leaving := if i >= WINDOW then data[i - WINDOW] else hist[i];
      SlideIs(c.t, prev, data, i);
      RollIs(c.t, all[i..i + WINDOW], data[i]);
      hash := Roll(c.t, hash, leaving, data[i]);
      ghost var h0, e0 := hard, easy;
      if c.Hard(hash) {
        hard := SetBit(hard, i);
      }
      if c.Easy(hash) {
        easy := SetBit(easy, i);
      }
      MarkStep(c, prev, data, h0, e0, hard, easy, i);
      assert all[i + 1..i + 1 + WINDOW] == BlockWindow(prev, data, i);
    }
  }

  lemma HistIs(prev: seq<byte>, hist: seq<byte>)
    requires |prev| < WINDOW && hist == seq(WINDOW - |prev|, i => 0) + prev
    ensures hist == Before(prev)
  {
  }

  ghost predicate MarkedTo(c: Cutter, prev: seq<byte>, data: seq<byte>, hard: seq<Word>, easy: seq<Word>, n: nat)
    requires |prev| < WINDOW && |hard| == |easy| == (|data| + 63) / 64
  {
    forall j :: 0 <= j < |data| ==>
      && j / 64 < |hard|
      && (Bit(hard, j) <==> j < n && c.Hard(Hash(c.t, BlockWindow(prev, data, j))))
      && (Bit(easy, j) <==> j < n && c.Easy(Hash(c.t, BlockWindow(prev, data, j))))
  }

  lemma MarkStep(c: Cutter, prev: seq<byte>, data: seq<byte>, h0: seq<Word>, e0: seq<Word>, h1: seq<Word>,
                 e1: seq<Word>, i: nat)
    requires |prev| < WINDOW && |h0| == |e0| == |h1| == |e1| == (|data| + 63) / 64 && i < |data| && i / 64 < |h0|
    requires MarkedTo(c, prev, data, h0, e0, i)
    requires h1 == if c.Hard(Hash(c.t, BlockWindow(prev, data, i))) then SetBit(h0, i) else h0
    requires e1 == if c.Easy(Hash(c.t, BlockWindow(prev, data, i))) then SetBit(e0, i) else e0
    ensures MarkedTo(c, prev, data, h1, e1, i + 1)
  {
    hide SetBit, Hash, Bit, BlockWindow, Cutter.Hard, Cutter.Easy;
  }

  /******** Blocks ********/

  datatype Block = Block(data: seq<byte>, hard: seq<Word>, easy: seq<Word>)

  // The block lies at base in the stream, and its marks are the stream's.
  ghost predicate Marked(c: Cutter, s: seq<byte>, base: nat, b: Block) {
    && base + |b.data| <= |s| && s[base..base + |b.data|] == b.data
    && |b.hard| == |b.easy| == (|b.data| + 63) / 64
    && forall i :: 0 <= i < |b.data| ==>
         && i / 64 < |b.hard|
         && (Bit(b.hard, i) <==> c.Hard(HashAfter(c, s, base + i)))
         && (Bit(b.easy, i) <==> c.Easy(HashAfter(c, s, base + i)))
  }

  // What a block is told of the stream before it: at most 47 bytes.
  ghost function Carried(s: seq<byte>, base: nat): (p: seq<byte>)
    requires base <= |s|
    ensures |p| < WINDOW
  {
    s[if base < WINDOW then 0 else base - (WINDOW - 1)..base]
  }

  // A block's own window is the stream's, though it knows at most 47 bytes before it.
  lemma WindowsAgree(s: seq<byte>, base: nat, data: seq<byte>, i: nat)
    requires base + |data| <= |s| && s[base..base + |data|] == data && i < |data|
    ensures BlockWindow(Carried(s, base), data, i) == Window(s[..base + i + 1])
  {
    var prev, all, z := Carried(s, base), Before(Carried(s, base)) + data, Zeros(WINDOW);
    var end := base + i + 1;
    forall k | 0 <= k < WINDOW
      ensures BlockWindow(prev, data, i)[k] == Window(s[..end])[k]
    {
      var j := i + 1 + k;
      assert BlockWindow(prev, data, i)[k] == all[j];
      assert Window(s[..end])[k] == (z + s[..end])[end + k];
      if j >= WINDOW {
        assert all[j] == data[j - WINDOW] == s[base..base + |data|][j - WINDOW];
      }
    }
  }

  ghost function Base(blocks: seq<Block>, k: nat): nat
    requires k <= |blocks|
  {
    if k == 0 then 0 else Base(blocks, k - 1) + |blocks[k - 1].data|
  }

  ghost predicate AllMarked(c: Cutter, s: seq<byte>, blocks: seq<Block>) {
    forall k :: 0 <= k < |blocks| ==> Marked(c, s, Base(blocks, k), blocks[k])
  }

  lemma {:induction false} BasePush(blocks: seq<Block>, b: Block, k: nat)
    requires k <= |blocks|
    ensures Base(blocks + [b], k) == Base(blocks, k)
  {
    if k > 0 {
      BasePush(blocks, b, k - 1);
    }
  }

  lemma MarkedPush(c: Cutter, s: seq<byte>, blocks: seq<Block>, b: Block)
    requires AllMarked(c, s, blocks) && Marked(c, s, Base(blocks, |blocks|), b)
    ensures AllMarked(c, s, blocks + [b])
    ensures Base(blocks + [b], |blocks| + 1) == Base(blocks, |blocks|) + |b.data|
  {
    hide Marked, Base;
    forall k | 0 <= k < |blocks| + 1 ensures Marked(c, s, Base(blocks + [b], k), (blocks + [b])[k]) {
      BasePush(blocks, b, k);
    }
    BasePush(blocks, b, |blocks|);
    BaseUnfolds(blocks + [b], |blocks| + 1);
  }

  lemma BaseUnfolds(blocks: seq<Block>, k: nat)
    requires 0 < k <= |blocks|
    ensures Base(blocks, k) == Base(blocks, k - 1) + |blocks[k - 1].data|
  {
  }

  // The bytes carried to the next block: the last 47 seen, a short read reaching back past it.
  function Carry(prev: seq<byte>, data: seq<byte>): seq<byte> {
    var keep := if |data| < WINDOW - 1 then |data| else WINDOW - 1;
    if keep < WINDOW - 1 && |prev| > 0 then
      var tail := prev + data;
      tail[if |tail| < WINDOW - 1 then 0 else |tail| - (WINDOW - 1)..]
    else data[|data| - keep..]
  }

  lemma CarryIs(s: seq<byte>, base: nat, data: seq<byte>)
    requires base + |data| <= |s| && s[base..base + |data|] == data
    ensures Carry(Carried(s, base), data) == Carried(s, base + |data|)
  {
    hide *;
    var prev, end := Carried(s, base), base + |data|;
    CarriedIs(s, base);
    CarriedIs(s, end);
    if |data| >= 47 || base == 0 {
      CarryLong(s, prev, base, end);
    } else {
      SliceJoin(s, base - |prev|, base, end);
      CarryOfSlice(s, base - |prev|, base, end);
    }
  }

  lemma CarriedIs(s: seq<byte>, base: nat)
    requires base <= |s|
    ensures Carried(s, base) == s[if base < 47 then 0 else base - 47..base]
  {
  }

  lemma CarryLong(s: seq<byte>, prev: seq<byte>, b: nat, d: nat)
    requires b <= d <= |s| && (d - b >= 47 || prev == [])
    ensures Carry(prev, s[b..d]) == s[if d - b < 47 then b else d - 47..d]
  {
    var k := if d - b < WINDOW - 1 then 0 else d - b - (WINDOW - 1);
    SliceOfSlice(s, b, d, k, d - b);
  }

  lemma CarryOfSlice(s: seq<byte>, a: nat, b: nat, d: nat)
    requires a < b <= d <= |s| && d - b < 47 && s[a..b] + s[b..d] == s[a..d]
    ensures Carry(s[a..b], s[b..d]) == s[if d - a < 47 then a else d - 47..d]
  {
    var k := if d - a < WINDOW - 1 then 0 else d - a - (WINDOW - 1);
    SliceOfSlice(s, a, d, k, d - a);
  }

  lemma MarksAreStream(c: Cutter, s: seq<byte>, base: nat, b: Block)
    requires base + |b.data| <= |s| && s[base..base + |b.data|] == b.data
    requires |b.hard| == |b.easy| == (|b.data| + 63) / 64
    requires forall i :: 0 <= i < |b.data| ==>
               && i / 64 < |b.hard|
               && (Bit(b.hard, i) <==> c.Hard(Hash(c.t, BlockWindow(Carried(s, base), b.data, i))))
               && (Bit(b.easy, i) <==> c.Easy(Hash(c.t, BlockWindow(Carried(s, base), b.data, i))))
    ensures Marked(c, s, base, b)
  {
    forall i | 0 <= i < |b.data|
      ensures BlockWindow(Carried(s, base), b.data, i) == Window(s[..base + i + 1])
    {
      WindowsAgree(s, base, b.data, i);
    }
  }

  lemma {:induction false} FlatSplit(input: seq<seq<byte>>, k: nat)
    requires k < |input|
    ensures Flat(input) == Flat(input[..k]) + input[k] + Flat(input[k + 1..])
    ensures Flat(input[..k + 1]) == Flat(input[..k]) + input[k]
  {
    if k == 0 {
      assert input[..0] == [] && input[..1] == [input[0]] && [input[0]][1..] == [];
    } else {
      FlatSplit(input[1..], k - 1);
      assert input[1..][..k - 1] == input[..k][1..] && input[1..][k..] == input[k + 1..];
      assert input[1..][..k] == input[..k + 1][1..];
      AppendAssoc(input[0], Flat(input[..k][1..]), input[k]);
      AppendAssoc(input[0] + Flat(input[..k][1..]), input[k], Flat(input[k + 1..]));
    }
  }

  /** Reads blocks, each marked with nothing but the 47 bytes before it; a read of no bytes is no block. */
  method ReadBlocks(c: Cutter, input: seq<seq<byte>>) returns (blocks: seq<Block>)
    ensures AllMarked(c, Flat(input), blocks) && Base(blocks, |blocks|) == |Flat(input)|
  {
    hide *;
    ghost var s := Flat(input);
    var prev: seq<byte> := [];
    blocks := [];
    ReadStart(c, s, input);
    for k := 0 to |input|
      invariant Base(blocks, |blocks|) == |Flat(input[..k])| <= |s| && AllMarked(c, s, blocks)
      invariant prev == Carried(s, Base(blocks, |blocks|)) && |prev| < WINDOW
    {
      var data := input[k];
      ghost var base := Base(blocks, |blocks|);
      ReadAt(input, k, base);
      if |data| > 0 {
        var hard, easy := Mark(c, prev, data);
        var b := Block(data, hard, easy);
        MarksAreStream(c, s, base, b);
        MarkedPush(c, s, blocks, b);
        CarryIs(s, base, data);
        CarriedSize(s, base + |data|);
        prev := Carry(prev, data);
        blocks := blocks + [b];
      } else {
        assert input[k] == [];
      }
    }
    assert input[..|input|] == input;
  }

  lemma ReadStart(c: Cutter, s: seq<byte>, input: seq<seq<byte>>)
    ensures Base([], 0) == |Flat(input[..0])| == 0 && AllMarked(c, s, []) && Carried(s, 0) == [] && 0 < WINDOW
  {
  }

  lemma CarriedSize(s: seq<byte>, base: nat)
    requires base <= |s|
    ensures |Carried(s, base)| < WINDOW
  {
  }

  lemma ReadAt(input: seq<seq<byte>>, k: nat, base: nat)
    requires k < |input| && base == |Flat(input[..k])|
    ensures var s := Flat(input);
            base + |input[k]| <= |s| && s[base..base + |input[k]|] == input[k]
              && |Flat(input[..k + 1])| == base + |input[k]|
  {
    FlatSplit(input, k);
  }

  /******** The placer ********/

  lemma MarkedMeans(c: Cutter, s: seq<byte>, base: nat, b: Block)
    requires Marked(c, s, base, b)
    ensures base + |b.data| <= |s| && s[base..base + |b.data|] == b.data && |b.hard| == |b.easy| == (|b.data| + 63) / 64
  {
  }

  // How a block's marks judge its byte i in a chunk that starts at start.
  lemma MarkJudges(c: Cutter, s: seq<byte>, base: nat, b: Block, start: nat, i: nat)
    requires Marked(c, s, base, b) && i < |b.data| && start <= base + i
    ensures base + i < |s| && i / 64 < |b.hard| == |b.easy|
    ensures base + i + 1 - start < c.g.min ==> (Cuts(c, s, start, base + i) <==> Bit(b.hard, i))
    ensures c.g.min <= base + i + 1 - start < c.g.max ==> (Cuts(c, s, start, base + i) <==> Bit(b.easy, i))
    ensures c.g.min <= base + i + 1 - start && c.g.max <= base + i + 1 - start ==> Cuts(c, s, start, base + i)
  {
    hide Cutter.Hard, Cutter.Easy, HashAfter, Bit;
  }

  // A range without marks does not end the chunk.
  lemma HardRange(c: Cutter, s: seq<byte>, base: nat, b: Block, start: nat, from: nat, upTo: nat)
    requires Marked(c, s, base, b) && from <= upTo <= |b.data| && start <= base + from
    requires base + upTo - start < c.g.min
    requires forall j :: from <= j < upTo ==> j / 64 < |b.hard| && !Bit(b.hard, j)
    ensures base + upTo <= |s| && Uncut(c, s, start, base + from, base + upTo)
  {
    hide Marked, Bit, Cuts;
    MarkedMeans(c, s, base, b);
    forall i | base + from <= i < base + upTo ensures !Cuts(c, s, start, i) {
      MarkJudges(c, s, base, b, start, i - base);
    }
  }

  lemma EasyRange(c: Cutter, s: seq<byte>, base: nat, b: Block, start: nat, from: nat, upTo: nat)
    requires Marked(c, s, base, b) && from <= upTo <= |b.data| && start <= base + from
    requires c.g.min <= base + from + 1 - start && base + upTo - start < c.g.max
    requires forall j :: from <= j < upTo ==> j / 64 < |b.easy| && !Bit(b.easy, j)
    ensures base + upTo <= |s| && Uncut(c, s, start, base + from, base + upTo)
  {
    hide Marked, Bit, Cuts;
    MarkedMeans(c, s, base, b);
    forall i | base + from <= i < base + upTo ensures !Cuts(c, s, start, i) {
      MarkJudges(c, s, base, b, start, i - base);
    }
  }

  // The first byte of a range that ends the chunk, found by the marks: under the minimum, the hard ones.
  method FirstHard(c: Cutter, b: Block, from: nat, upTo: nat, ghost s: seq<byte>, ghost base: nat, ghost start: nat)
    returns (end: Option<nat>)
    requires Marked(c, s, base, b) && from <= upTo <= |b.data| && start <= base + from <= |s|
    requires base + upTo - start < c.g.min && Uncut(c, s, start, start, base + from)
    ensures end.None? ==> base + upTo <= |s| && Uncut(c, s, start, start, base + upTo)
    ensures end.Some? ==> from <= end.value < upTo && base + end.value < |s|
    ensures end.Some? ==> Uncut(c, s, start, start, base + end.value) && Cuts(c, s, start, base + end.value)
  {
    hide *;
    MarkedMeans(c, s, base, b);
    end := FirstSet(b.hard, from, upTo);
    ghost var last := if end.Some? then end.value else upTo;
    HardRange(c, s, base, b, start, from, last);
    UncutJoin(c, s, start, start, base + from, base + last);
    if end.Some? {
      MarkJudges(c, s, base, b, start, last);
    }
  }

  // From the minimum on, the easy ones.
  method FirstEasy(c: Cutter, b: Block, from: nat, upTo: nat, ghost s: seq<byte>, ghost base: nat, ghost start: nat)
    returns (end: Option<nat>)
    requires Marked(c, s, base, b) && from <= upTo <= |b.data| && start <= base + from <= |s|
    requires c.g.min <= base + from + 1 - start && base + upTo - start < c.g.max
             && Uncut(c, s, start, start, base + from)
    ensures end.None? ==> base + upTo <= |s| && Uncut(c, s, start, start, base + upTo)
    ensures end.Some? ==> from <= end.value < upTo && base + end.value < |s|
    ensures end.Some? ==> Uncut(c, s, start, start, base + end.value) && Cuts(c, s, start, base + end.value)
  {
    hide *;
    MarkedMeans(c, s, base, b);
    end := FirstSet(b.easy, from, upTo);
    ghost var last := if end.Some? then end.value else upTo;
    EasyRange(c, s, base, b, start, from, last);
    UncutJoin(c, s, start, start, base + from, base + last);
    if end.Some? {
      MarkJudges(c, s, base, b, start, last);
    }
  }

  /** Places the cuts of a stream, by the marks of its blocks, in order. */
  class Parallel {
    const c: Cutter
    const blocks: seq<Block>
    // Blocks taken so far.
    var taken: nat
    var cur: Option<Block>
    var pos: nat
    // How long the unfinished chunk is, and its bytes from blocks already consumed.
    var n: nat
    var buf: seq<byte>
    ghost const stream: seq<byte>
    // Bytes of the stream placed so far.
    ghost var at: nat

    ghost predicate Valid()
      reads this
    {
      && c.g.Valid() && taken <= |blocks| && AllMarked(c, stream, blocks) && Base(blocks, |blocks|) == |stream|
      && n <= at <= |stream| && n < c.g.max && |buf| <= n && buf == stream[at - n..at - n + |buf|]
      && Uncut(c, stream, at - n, at - n, at)
      && (cur.None? ==> at == Base(blocks, taken) && |buf| == n)
      && (cur.Some? ==> taken > 0 && cur.value == blocks[taken - 1] && at == Base(blocks, taken - 1) + pos)
      && (cur.Some? ==> pos <= |cur.value.data| && n - |buf| <= pos)
    }

    // Between chunks.
    ghost predicate Ready()
      reads this
    {
      Valid() && n == 0
    }

    constructor (c: Cutter, input: seq<seq<byte>>)
      requires c.g.Valid()
      ensures Ready() && this.c == c && stream == Flat(input) && at == 0
    {
      this.c := c;
      var bs := ReadBlocks(c, input);
      blocks := bs;
      taken, cur, pos, n, buf := 0, None, 0, 0, [];
      stream, at := Flat(input), 0;
    }

    /** Finds where the chunk under way ends in the block, if it does, passing the bytes that do not end it. */
    method Place(b: Block, ghost base: nat) returns (end: Option<nat>)
      requires c.g.Valid() && Marked(c, stream, base, b) && pos <= |b.data| && n <= base + pos <= |stream|
               && n < c.g.max
      requires Uncut(c, stream, base + pos - n, base + pos - n, base + pos)
      modifies `pos, `n
      ensures old(pos) <= pos <= |b.data| && n == old(n) + pos - old(pos) && n < c.g.max
      ensures var start := base + old(pos) - old(n);
              && base + pos <= |stream| && Uncut(c, stream, start, start, base + pos)
              && (end.None? ==> pos == |b.data|)
              && (end.Some? ==> pos <= end.value < |b.data| && base + end.value < |stream|)
              && (end.Some? ==>
                    Uncut(c, stream, start, start, base + end.value) && Cuts(c, stream, start, base + end.value))
    {
      hide *;
      ghost var start := base + pos - n;
      MarkedMeans(c, stream, base, b);
      MinUnderMax(c.g);
      if pos == |b.data| {
        return None;
      }
      // Below the minimum length the hard marks decide.
      if c.g.min - n - 1 > 0 {
        var upTo := if pos + (c.g.min - n - 1) < |b.data| then pos + (c.g.min - n - 1) else |b.data|;
        end := FirstHard(c, b, pos, upTo, stream, base, start);
        if end.Some? {
          return;
        }
        n, pos := n + (upTo - pos), upTo;
        if upTo == |b.data| {
          return;
        }
      }
      // From there to the maximum the easy marks do.
      if c.g.max - n - 1 > 0 {
        var upTo := if pos + (c.g.max - n - 1) < |b.data| then pos + (c.g.max - n - 1) else |b.data|;
        end := FirstEasy(c, b, pos, upTo, stream, base, start);
        if end.Some? {
          return;
        }
        n, pos := n + (upTo - pos), upTo;
        if upTo == |b.data| {
          return;
        }
      }
      // At the maximum the chunk is cut without asking the marks.
      MarkJudges(c, stream, base, b, start, pos);
      end := Some(pos);
    }

    lemma ValidMeans()
      requires Valid()
      ensures c.g.Valid() && taken <= |blocks| && Base(blocks, |blocks|) == |stream|
      ensures n <= at <= |stream| && n < c.g.max && |buf| <= n && buf == stream[at - n..at - n + |buf|]
      ensures Uncut(c, stream, at - n, at - n, at)
      ensures cur.None? ==> at == Base(blocks, taken) && |buf| == n
      ensures cur.Some? ==> taken > 0 && cur.value == blocks[taken - 1] && at == Base(blocks, taken - 1) + pos
      ensures cur.Some? ==> pos <= |cur.value.data| && n - |buf| <= pos
    {
      hide Uncut, Base, AllMarked;
    }

    lemma CurrentMarked()
      requires Valid() && cur.Some?
      ensures taken > 0 && Marked(c, stream, Base(blocks, taken - 1), cur.value)
    {
      hide Uncut, Base, Marked;
    }

    lemma ReadyMeans()
      requires Ready()
      ensures Valid() && n == 0
    {
      hide Valid;
    }

    // Takes the next block.
    method Take()
      requires Valid() && cur.None? && taken < |blocks|
      modifies `taken, `cur, `pos
      ensures Valid() && cur.Some? && taken == old(taken) + 1
    {
      hide AllMarked, Base, Cuts, Uncut, Geometry.Valid;
      cur, taken, pos := Some(blocks[taken]), taken + 1, 0;
    }

    // Looks for the end of the chunk under way in the current block.
    method Scan(b: Block) returns (end: Option<nat>)
      requires Valid() && cur == Some(b)
      modifies `pos, `n, `at
      ensures Valid() && at - n == old(at - n) && (end.None? ==> pos == |b.data|)
      ensures end.Some? ==>
                var last := Base(blocks, taken - 1) + end.value;
                && pos <= end.value < |b.data| && last < |stream|
                && Uncut(c, stream, at - n, at - n, last) && Cuts(c, stream, at - n, last)
    {
      hide Marked, AllMarked, Base, Uncut, Cuts, Geometry.Valid;
      CurrentMarked();
      end := Place(b, Base(blocks, taken - 1));
      at := Base(blocks, taken - 1) + pos;
    }

    // Saves the tail of a consumed block for the unfinished chunk.
    method Keep(b: Block)
      requires Valid() && cur == Some(b) && pos == |b.data|
      modifies `buf, `cur
      ensures Valid() && cur.None?
    {
      hide AllMarked, Base, Uncut, Cuts, Geometry.Valid, Marked;
      CurrentMarked();
      BaseUnfolds(blocks, taken);
      ShareIs(c, stream, Base(blocks, taken - 1), b, at - n, |buf|, |b.data|);
      buf := buf + b.data[|b.data| - (n - |buf|)..];
      cur := None;
    }

    // Ends the chunk under way after byte end of the current block.
    method Emit(b: Block, end: nat) returns (out: seq<byte>)
      requires Valid() && cur == Some(b) && pos <= end < |b.data|
      modifies `buf, `n, `pos, `at
      ensures Ready() && taken > 0 && 0 <= old(at - n) <= at <= |stream|
      ensures at == Base(blocks, taken - 1) + end + 1 && out == stream[old(at - n)..at]
    {
      hide AllMarked, Base, Cuts, Marked;
      CurrentMarked();
      ShareIs(c, stream, Base(blocks, taken - 1), b, at - n, |buf|, end + 1);
      out := buf + b.data[pos - (n - |buf|)..end + 1];
      MarkedMeans(c, stream, Base(blocks, taken - 1), b);
      buf, n := [], 0;
      pos := end + 1;
      at := Base(blocks, taken - 1) + pos;
    }

    // Ends the last chunk with the stream.
    method Drain() returns (chunk: Option<seq<byte>>)
      requires Valid() && cur.None? && taken == |blocks|
      modifies `buf, `n
      ensures Ready() && at == |stream| && 0 <= at - old(n) && old(at) == at
      ensures chunk == if old(n) == 0 then None else Some(stream[at - old(n)..at])
    {
      hide AllMarked, Base, Cuts;
      chunk := if |buf| > 0 then Some(buf) else None;
      buf, n := [], 0;
    }

    /** The next chunk, or none at the end of the stream: the serial chunker's. */
    method Next() returns (chunk: Option<seq<byte>>)
      requires Ready()
      modifies this
      ensures Ready()
      ensures old(at) == |stream| ==> chunk == None && at == old(at)
      ensures old(at) < |stream| ==> at == EndOf(c, stream, old(at)) && chunk == Some(stream[old(at)..at])
    {
      hide *;
      ReadyMeans();
      ghost var start := at;
      while true
        invariant Valid() && at - n == start
        decreases |blocks| - taken, cur.Some?
      {
        ValidMeans();
        if cur.None? {
          if taken == |blocks| {
            EndAtLast(c, stream, start);
            chunk := Drain();
            return;
          }
          Take();
        }
        var b := cur.value;
        var end := Scan(b);
        if end.Some? {
          ValidMeans();
          EndAtCut(c, stream, start, Base(blocks, taken - 1) + end.value);
          var out := Emit(b, end.value);
          return Some(out);
        }
        Keep(b);
      }
    }
  }

  /** Cuts a whole stream with the parallel chunker: the chunks are those the serial one cuts, whatever the
      reads. */
  method CutParallel(c: Cutter, input: seq<seq<byte>>) returns (chunks: seq<seq<byte>>)
    requires c.g.Valid()
    ensures chunks == Chunks(c, Flat(input), 0)
  {
    hide Cuts, EndOf, Flat, Parallel.Valid, Parallel.Ready, Geometry.Valid;
    var p := new Parallel(c, input);
    chunks := [];
    var chunk := p.Next();
    ghost var s, start := Flat(input), 0;
    while chunk.Some?
      invariant p.Ready() && fresh(p) && p.c == c && p.stream == s && start <= |s|
      invariant chunk.None? ==> start == |s|
      invariant chunk.Some? ==> start < |s| && p.at == EndOf(c, s, start) && chunk.value == s[start..p.at]
      invariant chunks + Chunks(c, s, start) == Chunks(c, s, 0)
      decreases |s| - start
    {
      ChunksPush(c, s, start, chunks);
      chunks, start := chunks + [chunk.value], p.at;
      chunk := p.Next();
    }
  }

  // A chunk's bytes are what earlier blocks held of it and the block's share.
  lemma ShareIs(c: Cutter, s: seq<byte>, base: nat, b: Block, start: nat, held: nat, end: nat)
    requires Marked(c, s, base, b) && base <= start + held <= base + end && end <= |b.data|
    ensures base + end <= |s| && s[start..start + held] + b.data[start + held - base..end] == s[start..base + end]
  {
    hide *;
    MarkedMeans(c, s, base, b);
    SliceOfSlice(s, base, base + |b.data|, start + held - base, end);
    SliceJoin(s, start, start + held, base + end);
  }
}
