/** Streams: bytes cut into chunks under an index tree, and a reader that keeps the path to the chunk it read
    last. Content addressing makes a hash stand for one chunk, so an entry holds the child its hash names. */
module Streams {
  import opened Keys
  import opened Basics

  const MAX_DEPTH := 63
  const MAX_SIZE := 0x7fff_ffff_ffff_ffff

  datatype Tree = Data(bytes: seq<byte>) | Index(level: nat, entries: seq<Entry>)

  datatype Entry = Entry(child: Tree, size: nat)

  // The bytes under a tree of a depth, in order.
  ghost function Bytes(t: Tree, depth: nat): seq<byte>
    decreases depth, 0
  {
    if t.Data? then t.bytes else if depth == 0 then [] else BytesOf(t.entries, depth - 1)
  }

  ghost function BytesOf(es: seq<Entry>, depth: nat): seq<byte>
    decreases depth, 1, |es|
  {
    if es == [] then [] else BytesOf(es[..|es| - 1], depth) + Bytes(es[|es| - 1].child, depth)
  }

  // The sum of the entries' sizes.
  function Sum(es: seq<Entry>): nat {
    if es == [] then 0 else Sum(es[..|es| - 1]) + es[|es| - 1].size
  }

  // A node agrees with its parent: its depth, its sizes adding up to want, its children enough.
  predicate NodeOk(t: Tree, depth: nat, want: nat, top: bool) {
    && t.Index? && t.level == depth && |t.entries| >= 1 && (top ==> |t.entries| >= 2)
    && (forall i :: 0 <= i < |t.entries| ==> t.entries[i].size >= 1) && Sum(t.entries) == want
  }

  predicate DataOk(t: Tree, want: nat) {
    t.Data? && |t.bytes| == want
  }

  // A tree that passes every check, all the way down.
  ghost predicate Good(t: Tree, depth: nat, want: nat, top: bool)
    decreases depth
  {
    if depth == 0 then DataOk(t, want)
    else
      NodeOk(t, depth, want, top) && forall i ::
        0 <= i < |t.entries| ==> Good(t.entries[i].child, depth - 1, t.entries[i].size, false)
  }

  lemma {:induction false} SumParts(es: seq<Entry>, i: nat)
    requires i < |es|
    ensures Sum(es[..i + 1]) == Sum(es[..i]) + es[i].size && Sum(es[..i + 1]) <= Sum(es)
    decreases |es|
  {
    assert es[..i + 1][..i] == es[..i];
    if i + 1 < |es| {
      var init := es[..|es| - 1];
      assert init[..i + 1] == es[..i + 1] && init[..i] == es[..i];
      SumParts(init, i);
    } else {
      assert es[..i + 1] == es;
    }
  }

  // Every entry says how many bytes its child holds.
  ghost predicate Sized(es: seq<Entry>, depth: nat) {
    forall i :: 0 <= i < |es| ==> |Bytes(es[i].child, depth)| == es[i].size
  }

  lemma {:induction false} BytesSize(es: seq<Entry>, depth: nat)
    requires Sized(es, depth)
    ensures |BytesOf(es, depth)| == Sum(es)
    decreases |es|
  {
    if es != [] {
      BytesSize(es[..|es| - 1], depth);
    }
  }

  // A good tree holds as many bytes as its parent says.
  lemma {:induction false} GoodSize(t: Tree, depth: nat, want: nat, top: bool)
    requires Good(t, depth, want, top)
    ensures |Bytes(t, depth)| == want && (depth > 0 ==> t.Index? && Sized(t.entries, depth - 1))
    decreases depth
  {
    if depth > 0 {
      forall i | 0 <= i < |t.entries| ensures |Bytes(t.entries[i].child, depth - 1)| == t.entries[i].size {
        GoodSize(t.entries[i].child, depth - 1, t.entries[i].size, false);
      }
      BytesSize(t.entries, depth - 1);
    }
  }

  // The bytes of entry i lie after those of the entries before it.
  lemma {:induction false} BytesAt(es: seq<Entry>, depth: nat, i: nat)
    requires i < |es| && Sized(es, depth)
    ensures Sum(es[..i]) + es[i].size <= |BytesOf(es, depth)|
    ensures BytesOf(es, depth)[Sum(es[..i])..Sum(es[..i]) + es[i].size] == Bytes(es[i].child, depth)
    decreases |es|
  {
    var init, all := es[..|es| - 1], BytesOf(es, depth);
    BytesSize(es, depth);
    BytesSize(init, depth);
    SumParts(es, i);
    if i < |init| {
      assert init[..i] == es[..i];
      BytesAt(init, depth, i);
      SumParts(init, i);
      assert all[..|BytesOf(init, depth)|] == BytesOf(init, depth);
      SliceOfSlice(all, 0, |BytesOf(init, depth)|, Sum(es[..i]), Sum(es[..i]) + es[i].size);
    } else {
      assert es[..i] == init;
    }
  }

  /******** Finding a chunk ********/

  // The entry that holds a position, counted from the first entry's start.
  ghost function Holder(es: seq<Entry>, at: nat): (i: nat)
    requires at < Sum(es)
    ensures i < |es|
    ensures Sum(es[..i]) <= at < Sum(es[..i]) + es[i].size
    decreases |es|
  {
    var init := es[..|es| - 1];
    if at < Sum(init) then
      var i := Holder(init, at);
      assert init[..i] == es[..i];
      i
    else |es| - 1
  }

  /** A descent from the root to byte pos, every node checked: the chunk and its start, or none at a failed
      check. */
  ghost function Find(t: Tree, depth: nat, want: nat, top: bool, start: nat, pos: nat): Option<(seq<byte>, nat)>
    requires start <= pos < start + want
    decreases depth
  {
    if depth == 0 then if DataOk(t, want) then Some((t.bytes, start)) else None
    else if !NodeOk(t, depth, want, top) then None
    else
      var i := Holder(t.entries, pos - start);
      Find(t.entries[i].child, depth - 1, t.entries[i].size, false, start + Sum(t.entries[..i]), pos)
  }

  // In a good tree the chunk found is the stream's bytes around the position.
  lemma {:induction false} FindGood(t: Tree, depth: nat, want: nat, top: bool, start: nat, pos: nat)
    requires Good(t, depth, want, top) && start <= pos < start + want
    ensures Found(Find(t, depth, want, top, start, pos), Bytes(t, depth), start, pos)
    decreases depth
  {
    hide *;
    GoodSize(t, depth, want, top);
    if depth == 0 {
      FindLeaf(t, want, top, start, pos);
    } else {
      GoodNode(t, depth, want, top);
      var es := t.entries;
      var i := Holder(es, pos - start);
      var from := Sum(es[..i]);
      FindGood(es[i].child, depth - 1, es[i].size, false, start + from, pos);
      BytesAt(es, depth - 1, i);
      FindDown(t, depth, want, top, start, pos);
      FoundUp(Find(t, depth, want, top, start, pos), BytesOf(es, depth - 1), start, from, from + es[i].size, pos);
    }
  }

  lemma FindLeaf(t: Tree, want: nat, top: bool, start: nat, pos: nat)
    requires Good(t, 0, want, top) && start <= pos < start + want
    ensures Found(Find(t, 0, want, top, start, pos), Bytes(t, 0), start, pos)
  {
  }

  lemma GoodNode(t: Tree, depth: nat, want: nat, top: bool)
    requires Good(t, depth, want, top) && depth > 0
    ensures NodeOk(t, depth, want, top) && t.Index? && Sum(t.entries) == want
            && Bytes(t, depth) == BytesOf(t.entries, depth - 1)
    ensures forall i :: 0 <= i < |t.entries| ==> Good(t.entries[i].child, depth - 1, t.entries[i].size, false)
  {
  }

  lemma FindDown(t: Tree, depth: nat, want: nat, top: bool, start: nat, pos: nat)
    requires depth > 0 && NodeOk(t, depth, want, top) && start <= pos < start + want
    ensures t.Index? && Sum(t.entries) == want
    ensures var i := Holder(t.entries, pos - start);
            Find(t, depth, want, top, start, pos) == Find(t.entries[i].child, depth - 1, t.entries[i].size, false,
                                                          start + Sum(t.entries[..i]), pos)
  {
    hide Sum, Holder;
  }

  // A chunk and its start, around a position of a stretch of bytes.
  ghost predicate Found(f: Option<(seq<byte>, nat)>, all: seq<byte>, start: nat, pos: nat) {
    && f.Some? && start <= f.value.1 <= pos < f.value.1 + |f.value.0| <= start + |all|
    && f.value.0 == all[f.value.1 - start..f.value.1 - start + |f.value.0|]
  }

  lemma FoundUp(f: Option<(seq<byte>, nat)>, all: seq<byte>, start: nat, a: nat, b: nat, pos: nat)
    requires a <= b <= |all| && Found(f, all[a..b], start + a, pos)
    ensures Found(f, all, start, pos)
  {
    SliceOfSlice(all, a, b, f.value.1 - start - a, f.value.1 - start - a + |f.value.0|);
  }

  lemma {:induction false} HolderUnique(es: seq<Entry>, at: nat, i: nat)
    requires at < Sum(es) && i < |es| && Sum(es[..i]) <= at < Sum(es[..i]) + es[i].size
    ensures Holder(es, at) == i
    decreases |es|
  {
    var init := es[..|es| - 1];
    if i < |init| {
      assert init[..i] == es[..i];
      SumParts(init, i);
      HolderUnique(init, at, i);
    } else {
      assert es[..i] == init;
    }
  }

  /******** The reader ********/

  /** What names a stream: its root, its length and the depth of its index. */
  datatype Ref = Ref(root: Tree, size: nat, depth: nat)

  // The chunk that holds a byte of the stream, found afresh.
  ghost function Look(r: Ref, pos: nat): Option<(seq<byte>, nat)>
    requires pos < r.size
  {
    Find(r.root, r.depth, r.size, true, 0, pos)
  }

  // From a node down, every byte under it is found as from the root.
  ghost predicate Spans(r: Ref, t: Tree, depth: nat, want: nat, top: bool, start: nat) {
    start + want <= r.size && forall pos ::
      start <= pos < start + want ==> Look(r, pos) == Find(t, depth, want, top, start, pos)
  }

  lemma SpansRoot(r: Ref)
    ensures Spans(r, r.root, r.depth, r.size, true, 0)
  {
  }

  lemma SpansChild(r: Ref, t: Tree, depth: nat, want: nat, top: bool, start: nat, i: nat)
    requires Spans(r, t, depth, want, top, start) && depth > 0 && NodeOk(t, depth, want, top) && t.Index?
             && i < |t.entries|
    ensures Spans(r, t.entries[i].child, depth - 1, t.entries[i].size, false, start + Sum(t.entries[..i]))
  {
    hide Find, NodeOk, Holder, Sum, Look;
    var es := t.entries;
    var from := start + Sum(es[..i]);
    SumParts(es, i);
    SumIs(t, depth, want, top);
    forall pos | from <= pos < from + es[i].size
      ensures Look(r, pos) == Find(es[i].child, depth - 1, es[i].size, false, from, pos)
    {
      HolderUnique(es, pos - start, i);
      FindDown(t, depth, want, top, start, pos);
      assert Look(r, pos) == Find(t, depth, want, top, start, pos);
    }
  }

  lemma SumIs(t: Tree, depth: nat, want: nat, top: bool)
    requires NodeOk(t, depth, want, top)
    ensures t.Index? && Sum(t.entries) == want && |t.entries| >= 1 && forall i ::
              0 <= i < |t.entries| ==> t.entries[i].size >= 1
  {
  }

  /** A node kept from the last descent: where its bytes start, and where each entry's end. */
  datatype Held = Held(start: nat, ends: seq<nat>, es: seq<Entry>)
  {
    ghost predicate Valid() {
      |ends| == |es| > 0 && forall i :: 0 <= i < |es| ==> ends[i] == start + Sum(es[..i + 1])
    }

    predicate Holds(pos: nat)
      requires |ends| > 0
    {
      start <= pos < ends[|ends| - 1]
    }
  }

  lemma HeldSpan(n: Held)
    requires n.Valid()
    ensures |n.ends| == |n.es| > 0 && n.ends[|n.ends| - 1] == n.start + Sum(n.es)
  {
    assert n.es[..|n.es|] == n.es;
  }

  // Reads and checks a node.
  method ReadNode(t: Tree, depth: nat, want: nat, top: bool, start: nat) returns (n: Option<Held>)
    ensures n.Some? <==> NodeOk(t, depth, want, top)
    ensures n.Some? ==> t.Index? && n.value.es == t.entries && n.value.start == start && n.value.Valid()
  {
    if t.Data? || t.level != depth || |t.entries| == 0 || (top && |t.entries| < 2) {
      return None;
    }
    var sum, ends, end := 0, [], start;
    var es := t.entries;
    assert es[..0] == [];
    for i := 0 to |es|
      invariant sum == Sum(es[..i]) && end == start + sum && |ends| == i
      invariant forall k :: 0 <= k < i ==> es[k].size >= 1 && ends[k] == start + Sum(es[..k + 1])
    {
      if es[i].size == 0 {
        return None;
      }
      assert es[..i + 1][..i] == es[..i];
      sum, end := sum + es[i].size, end + es[i].size;
      ends := ends + [end];
    }
    assert es[..|es|] == es;
    if sum != want {
      return None;
    }
    n := Some(Held(start, ends, es));
  }

  // The entry of a node that holds a position, and where it starts.
  method ChildAt(n: Held, pos: nat) returns (i: nat, start: nat)
    requires n.Valid() && n.Holds(pos)
    ensures n.start <= pos < n.start + Sum(n.es) && i < |n.es| && i == Holder(n.es, pos - n.start)
            && start == n.start + Sum(n.es[..i])
  {
    hide *;
    HeldSpan(n);
    HoldsMeans(n, pos);
    var high := |n.ends| - 1;
    i := 0;
    while i < high
      invariant 0 <= i <= high < |n.ends| && pos < n.ends[high]
      invariant i > 0 ==> n.ends[i - 1] <= pos
    {
      var mid := (i + high) / 2;
      if n.ends[mid] > pos { high := mid; } else { i := mid + 1; }
    }
    start := if i > 0 then n.ends[i - 1] else n.start;
    HeldAt(n, i);
    HolderUnique(n.es, pos - n.start, i);
  }

  lemma HoldsMeans(n: Held, pos: nat)
    requires n.Valid() && n.Holds(pos)
    ensures |n.ends| > 0 && n.start <= pos < n.ends[|n.ends| - 1]
  {
  }

  lemma HeldAt(n: Held, i: nat)
    requires n.Valid() && i < |n.es|
    ensures |n.ends| == |n.es| && n.ends[i] == n.start + Sum(n.es[..i]) + n.es[i].size
    ensures (if i > 0 then n.ends[i - 1] else n.start) == n.start + Sum(n.es[..i])
  {
    SumParts(n.es, i);
    assert i == 0 ==> n.es[..i] == [];
  }

  // A held node is checked, and everything under it is found through it as from the root.
  ghost predicate OnPath(r: Ref, k: nat, n: Held) {
    && k < r.depth && n.Valid() && NodeOk(Index(r.depth - k, n.es), r.depth - k, Sum(n.es), k == 0)
    && Spans(r, Index(r.depth - k, n.es), r.depth - k, Sum(n.es), k == 0, n.start)
  }

  // A kept chunk is the one found for every position in it.
  ghost predicate Current(r: Ref, cur: Option<(seq<byte>, nat)>) {
    cur.Some? ==>
      && cur.value.1 + |cur.value.0| <= r.size
      && forall pos :: cur.value.1 <= pos < cur.value.1 + |cur.value.0| ==> Look(r, pos) == cur
  }

  datatype Status = Whole | End | Corrupt | NegativeOffset

  class Reader {
    const ref: Ref
    var path: seq<Held>
    var cur: Option<(seq<byte>, nat)>

    ghost predicate Valid()
      reads this
    {
      Current(ref, cur) && forall k :: 0 <= k < |path| ==> OnPath(ref, k, path[k])
    }

    constructor (ref: Ref)
      ensures Valid() && this.ref == ref
    {
      this.ref, path, cur := ref, [], None;
    }

    // Lets go of the nodes that do not hold a position.
    method LetGo(pos: nat)
      requires Valid()
      modifies `path
      ensures Valid() && (path != [] ==> path[|path| - 1].Valid() && path[|path| - 1].Holds(pos))
    {
      hide Current, Spans, NodeOk, Sum;
      while |path| > 0
        invariant Valid()
        decreases |path|
      {
        var n := path[|path| - 1];
        assert OnPath(ref, |path| - 1, n);
        if n.Holds(pos) {
          return;
        }
        path := path[..|path| - 1];
      }
    }

    // Holds on to a node just read.
    method Push(n: Held)
      requires Valid() && OnPath(ref, |path|, n)
      modifies `path
      ensures Valid() && path == old(path) + [n]
    {
      hide Current, OnPath;
      path := path + [n];
    }

    method Keep(b: seq<byte>, start: nat)
      requires Valid() && Current(ref, Some((b, start)))
      modifies `cur
      ensures Valid() && cur == Some((b, start))
    {
      hide Current, OnPath;
      cur := Some((b, start));
    }

    lemma Means()
      requires Valid()
      ensures Current(ref, cur) && forall k :: 0 <= k < |path| ==> OnPath(ref, k, path[k])
    {
      hide Current, OnPath;
    }

    /** The lookup through the kept path gives what a descent from the root gives, refusals included. */
    method ChunkAt(pos: nat) returns (r: Option<(seq<byte>, nat)>)
      requires Valid() && pos < ref.size
      modifies this
      ensures Valid() && r == Look(ref, pos)
    {
      hide *;
      Means();
      CurrentMeans(ref, cur, pos);
      if cur.Some? && cur.value.1 <= pos < cur.value.1 + |cur.value.0| {
        return cur;
      }
      LetGo(pos);
      Means();
      var t, top := ref.root, true;
      var want: nat, start: nat, depth: nat := ref.size, 0, ref.depth;
      SpansRoot(ref);
      if |path| > 0 {
        t, want, start := Under(path[|path| - 1], |path| - 1, pos);
        depth, top := ref.depth - |path|, false;
      }
      while depth > 0
        invariant Valid() && depth + |path| == ref.depth && (top <==> |path| == 0)
        invariant Spans(ref, t, depth, want, top, start) && start <= pos < start + want
      {
        SpansMean(ref, t, depth, want, top, start, pos);
        var n := ReadNode(t, depth, want, top, start);
        if n.None? {
          NodeRefused(t, depth, want, top, start, pos);
          return None;
        }
        OnPathIs(ref, |path|, n.value, t, depth, want, top);
        HoldsIs(n.value, t, depth, want, top, pos);
        Push(n.value);
        t, want, start := Under(n.value, |path| - 1, pos);
        depth, top := depth - 1, false;
      }
      SpansMean(ref, t, 0, want, top, start, pos);
      if t.Index? || |t.bytes| != want {
        LeafRefused(t, want, top, start, pos);
        return None;
      }
      CurrentIs(ref, t, want, top, start);
      LeafFound(t, want, top, start, pos);
      Keep(t.bytes, start);
      r := Some((t.bytes, start));
    }

    /** Reads up to n bytes at an offset. What is read is the stream's bytes there, whatever was read before;
        short of n only at the end of the stream, or where the stream is corrupt. */
    method ReadAt(n: nat, off: int) returns (out: seq<byte>, st: Status)
      requires Valid()
      modifies this
      ensures Valid() && |out| <= n && (st.NegativeOffset? <==> off < 0) && (off < 0 ==> out == [])
      ensures off >= 0 ==> Reads(ref, off, out)
      ensures st.Whole? ==> |out| == n
      ensures st.End? ==> |out| < n && off + |out| >= ref.size
      ensures st.Corrupt? ==> off + |out| < ref.size && Look(ref, off + |out|) == None
      ensures off >= 0 && Good(ref.root, ref.depth, ref.size, true) ==>
                !st.Corrupt? && out == Slice(Bytes(ref.root, ref.depth), off, n)
    {
      out := [];
      if off < 0 {
        return [], NegativeOffset;
      }
      while |out| < n && off + |out| < ref.size
        invariant Valid() && |out| <= n && Reads(ref, off, out)
        decreases n - |out|
      {
        hide *;
        var pos := off + |out|;
        var c := ChunkAt(pos);
        if c.None? {
          if Good(ref.root, ref.depth, ref.size, true) {
            GoodNeverRefused(ref, pos);
            assert false;
          }
          return out, Corrupt;
        }
        LookHolds(ref, pos);
        ReadOn(ref, c, pos);
        var from := pos - c.value.1;
        var take := if |c.value.0| - from < n - |out| then |c.value.0| - from else n - |out|;
        BytesOn(ref, c, pos, take, off, out);
        out := out + c.value.0[from..from + take];
      }
      st := if |out| < n then End else Whole;
      if Good(ref.root, ref.depth, ref.size, true) {
        GoodSlice(ref, off, n, out);
      }
    }

    // The child of a held node to go on into.
    method Under(n: Held, k: nat, pos: nat) returns (t: Tree, want: nat, start: nat)
      requires OnPath(ref, k, n) && n.Holds(pos)
      ensures k < ref.depth && Spans(ref, t, ref.depth - k - 1, want, false, start) && start <= pos < start + want
    {
      hide *;
      OnPathMeans(ref, k, n);
      var i;
      i, start := ChildAt(n, pos);
      SpansChild(ref, Index(ref.depth - k, n.es), ref.depth - k, Sum(n.es), k == 0, n.start, i);
      t, want := n.es[i].child, n.es[i].size;
    }
  }

  lemma OnPathMeans(r: Ref, k: nat, n: Held)
    requires OnPath(r, k, n)
    ensures k < r.depth && n.Valid() && NodeOk(Index(r.depth - k, n.es), r.depth - k, Sum(n.es), k == 0)
    ensures Spans(r, Index(r.depth - k, n.es), r.depth - k, Sum(n.es), k == 0, n.start)
  {
    hide Spans, NodeOk, Held.Valid;
  }

  lemma OnPathIs(r: Ref, k: nat, n: Held, t: Tree, depth: nat, want: nat, top: bool)
    requires depth + k == r.depth && depth > 0 && (top <==> k == 0) && n.Valid() && t.Index? && n.es == t.entries
    requires NodeOk(t, depth, want, top) && Spans(r, t, depth, want, top, n.start)
    ensures OnPath(r, k, n)
  {
    SumIs(t, depth, want, top);
    assert t == Index(depth, n.es);
    hide Spans, NodeOk, Held.Valid;
    assert NodeOk(Index(r.depth - k, n.es), r.depth - k, Sum(n.es), k == 0);
  }

  lemma HoldsIs(n: Held, t: Tree, depth: nat, want: nat, top: bool, pos: nat)
    requires n.Valid() && NodeOk(t, depth, want, top) && t.Index? && n.es == t.entries
             && n.start <= pos < n.start + want
    ensures |n.ends| > 0 && n.Holds(pos)
  {
    SumIs(t, depth, want, top);
    HeldSpan(n);
  }

  lemma CurrentMeans(r: Ref, cur: Option<(seq<byte>, nat)>, pos: nat)
    requires Current(r, cur) && pos < r.size
    ensures cur.Some? && cur.value.1 <= pos < cur.value.1 + |cur.value.0| ==> Look(r, pos) == cur
  {
    hide Look;
  }

  lemma SpansMean(r: Ref, t: Tree, depth: nat, want: nat, top: bool, start: nat, pos: nat)
    requires Spans(r, t, depth, want, top, start) && start <= pos < start + want
    ensures pos < r.size && Look(r, pos) == Find(t, depth, want, top, start, pos)
  {
    hide Look, Find;
  }

  lemma NodeRefused(t: Tree, depth: nat, want: nat, top: bool, start: nat, pos: nat)
    requires depth > 0 && !NodeOk(t, depth, want, top) && start <= pos < start + want
    ensures Find(t, depth, want, top, start, pos) == None
  {
  }

  lemma LeafRefused(t: Tree, want: nat, top: bool, start: nat, pos: nat)
    requires (t.Index? || |t.bytes| != want) && start <= pos < start + want
    ensures Find(t, 0, want, top, start, pos) == None
  {
  }

  lemma LeafFound(t: Tree, want: nat, top: bool, start: nat, pos: nat)
    requires t.Data? && |t.bytes| == want && start <= pos < start + want
    ensures Find(t, 0, want, top, start, pos) == Some((t.bytes, start))
  {
  }

  lemma CurrentIs(r: Ref, t: Tree, want: nat, top: bool, start: nat)
    requires Spans(r, t, 0, want, top, start) && t.Data? && |t.bytes| == want
    ensures Current(r, Some((t.bytes, start)))
  {
    forall pos | start <= pos < start + want ensures pos < r.size && Look(r, pos) == Some((t.bytes, start)) {
      SpansMean(r, t, 0, want, top, start, pos);
      LeafFound(t, want, top, start, pos);
    }
    hide Look, Find;
  }

  // A byte of the stream, as found.
  ghost predicate ByteIs(r: Ref, pos: nat, b: byte)
    requires pos < r.size
  {
    var f := Look(r, pos);
    f.Some? && f.value.1 <= pos < f.value.1 + |f.value.0| && f.value.0[pos - f.value.1] == b
  }

  ghost predicate Reads(r: Ref, off: nat, out: seq<byte>) {
    forall k :: 0 <= k < |out| ==> off + k < r.size && ByteIs(r, off + k, out[k])
  }

  lemma ReadsMeans(r: Ref, off: nat, out: seq<byte>, k: nat)
    requires Reads(r, off, out) && k < |out|
    ensures off + k < r.size && ByteIs(r, off + k, out[k])
  {
    hide ByteIs;
  }

  lemma {:induction false} FindHolds(t: Tree, depth: nat, want: nat, top: bool, start: nat, pos: nat)
    requires start <= pos < start + want && Find(t, depth, want, top, start, pos).Some?
    ensures var f := Find(t, depth, want, top, start, pos).value;
            && start <= f.1 <= pos < f.1 + |f.0| <= start + want
            && forall q :: f.1 <= q < f.1 + |f.0| ==> Find(t, depth, want, top, start, q) == Some(f)
    decreases depth
  {
    hide *;
    if depth == 0 {
      LeafHolds(t, want, top, start, pos);
    } else {
      NodeFound(t, depth, want, top, start, pos);
      FindDown(t, depth, want, top, start, pos);
      var es := t.entries;
      var i := Holder(es, pos - start);
      var from := start + Sum(es[..i]);
      FindHolds(es[i].child, depth - 1, es[i].size, false, from, pos);
      SumParts(es, i);
      var f := Find(t, depth, want, top, start, pos).value;
      forall q | f.1 <= q < f.1 + |f.0| ensures Find(t, depth, want, top, start, q) == Some(f) {
        HolderUnique(es, q - start, i);
        FindDown(t, depth, want, top, start, q);
      }
    }
  }

  lemma LeafHolds(t: Tree, want: nat, top: bool, start: nat, pos: nat)
    requires start <= pos < start + want && Find(t, 0, want, top, start, pos).Some?
    ensures t.Data? && |t.bytes| == want
    ensures forall q :: start <= q < start + want ==> Find(t, 0, want, top, start, q) == Some((t.bytes, start))
  {
  }

  lemma NodeFound(t: Tree, depth: nat, want: nat, top: bool, start: nat, pos: nat)
    requires depth > 0 && start <= pos < start + want && Find(t, depth, want, top, start, pos).Some?
    ensures NodeOk(t, depth, want, top)
  {
  }

  // The chunk found for a position is the one found for every position in it.
  lemma LookHolds(r: Ref, pos: nat)
    requires pos < r.size && Look(r, pos).Some?
    ensures var f := Look(r, pos).value;
            && f.1 <= pos < f.1 + |f.0| <= r.size && forall q :: f.1 <= q < f.1 + |f.0| ==> Look(r, q) == Some(f)
  {
    FindHolds(r.root, r.depth, r.size, true, 0, pos);
    hide Find;
  }

  lemma ReadOn(r: Ref, c: Option<(seq<byte>, nat)>, pos: nat)
    requires pos < r.size && c == Look(r, pos) && c.Some? && c.value.1 <= pos < c.value.1 + |c.value.0|
    ensures 0 <= pos - c.value.1 < |c.value.0|
  {
  }

  lemma BytesOn(r: Ref, c: Option<(seq<byte>, nat)>, pos: nat, take: nat, off: nat, out: seq<byte>)
    requires c.Some? && c.value.1 <= pos < c.value.1 + |c.value.0| <= r.size && pos == off + |out|
             && pos - c.value.1 + take <= |c.value.0|
    requires forall q :: c.value.1 <= q < c.value.1 + |c.value.0| ==> Look(r, q) == c
    requires Reads(r, off, out)
    ensures Reads(r, off, out + c.value.0[pos - c.value.1..pos - c.value.1 + take])
  {
    hide Look;
    var out' := out + c.value.0[pos - c.value.1..pos - c.value.1 + take];
    forall k | 0 <= k < |out'| ensures off + k < r.size && ByteIs(r, off + k, out'[k]) {
      if k >= |out| {
        assert Look(r, off + k) == c;
        assert out'[k] == c.value.0[pos - c.value.1 + (k - |out|)];
      } else {
        assert out'[k] == out[k];
      }
    }
  }

  // Of a good tree, what is read is a slice of its bytes.
  lemma GoodReads(r: Ref, off: nat, out: seq<byte>)
    requires Good(r.root, r.depth, r.size, true) && Reads(r, off, out)
    ensures |Bytes(r.root, r.depth)| == r.size
            && (out != [] ==> off + |out| <= r.size && out == Bytes(r.root, r.depth)[off..off + |out|])
  {
    hide *;
    GoodSize(r.root, r.depth, r.size, true);
    var all := Bytes(r.root, r.depth);
    forall k | 0 <= k < |out| ensures off + k < |all| && out[k] == all[off + k] {
      ReadsMeans(r, off, out, k);
      GoodByte(r, off + k, out[k]);
    }
    if out != [] {
      ReadsMeans(r, off, out, |out| - 1);
      assert out == all[off..off + |out|];
    }
  }

  // The bytes of a string from an offset, at most n of them.
  ghost function Slice(all: seq<byte>, off: nat, n: nat): seq<byte> {
    if off >= |all| then [] else all[off..if off + n < |all| then off + n else |all|]
  }

  lemma GoodSlice(r: Ref, off: nat, n: nat, out: seq<byte>)
    requires Good(r.root, r.depth, r.size, true) && Reads(r, off, out) && |out| <= n
             && (|out| == n || off + |out| >= r.size)
    ensures out == Slice(Bytes(r.root, r.depth), off, n)
  {
    hide Good, Reads, Bytes;
    GoodReads(r, off, out);
  }

  lemma GoodByte(r: Ref, pos: nat, b: byte)
    requires Good(r.root, r.depth, r.size, true) && pos < r.size && ByteIs(r, pos, b)
    ensures |Bytes(r.root, r.depth)| == r.size && b == Bytes(r.root, r.depth)[pos]
  {
    GoodSize(r.root, r.depth, r.size, true);
    FindGood(r.root, r.depth, r.size, true, 0, pos);
    hide Find, Good, Bytes;
  }

  lemma GoodNeverRefused(r: Ref, pos: nat)
    requires Good(r.root, r.depth, r.size, true) && pos < r.size
    ensures Look(r, pos).Some?
  {
    FindGood(r.root, r.depth, r.size, true, 0, pos);
  }

  // What is tested before a stream is read: its limits, and the way to its first byte.
  ghost predicate Opens(ref: Ref) {
    && ref.depth <= MAX_DEPTH && ref.size <= MAX_SIZE
    && if ref.size == 0 then ref.depth == 0 && ref.root == Data([]) else Look(ref, 0).Some?
  }

  method Open(ref: Ref) returns (r: Option<Reader>)
    ensures r.Some? <==> Opens(ref)
    ensures r.Some? ==> fresh(r.value) && r.value.Valid() && r.value.ref == ref
  {
    hide Look, Reader.Valid;
    if ref.depth > MAX_DEPTH || ref.size > MAX_SIZE {
      return None;
    }
    var reader := new Reader(ref);
    if ref.size == 0 {
      return if ref.depth != 0 || ref.root != Data([]) then None else Some(reader);
    }
    var first := reader.ChunkAt(0);
    r := if first.None? then None else Some(reader);
  }

  /** A good tree opens, unless it is too deep or too long. */
  lemma GoodOpens(ref: Ref)
    requires Good(ref.root, ref.depth, ref.size, true)
    ensures Opens(ref) <==> ref.depth <= MAX_DEPTH && ref.size <= MAX_SIZE
  {
    if ref.size > 0 {
      GoodNeverRefused(ref, 0);
    }
  }
}
