/** Maps over canonical trees: what a tree holds, the editor that collects puts and deletes, and the
    flush that writes them. */
module Maps {
  import opened Keys
  import opened Basics
  import opened Nodes
  import opened Trees
  import opened Drawing
  import opened Edits
  import opened Boundary
  import opened Diffs
  import opened Flush

  // The row of leaf entries holds exactly m.
  ghost predicate RowOf(xs: seq<Entry>, m: map<Key, Value>) {
    && GoodRow(0, xs)
    && forall k :: Lookup(xs, k) == if k in m then Some(Leaf(k, m[k])) else None
  }

  // root is the canonical tree of m.
  ghost predicate Holds(rule: SplitRule, root: Node, m: map<Key, Value>) {
    Shrinking(rule) && exists xs :: RowOf(xs, m) && root == Build(rule, xs)
  }

  lemma RowUnique(xs: seq<Entry>, ys: seq<Entry>, m: map<Key, Value>)
    requires RowOf(xs, m) && RowOf(ys, m)
    ensures xs == ys
  {
    SortedUnique(xs, ys);
  }

  // Equal contents make equal trees, and equal trees have equal contents.
  lemma Canonicity(rule: SplitRule, root1: Node, m1: map<Key, Value>, root2: Node, m2: map<Key, Value>)
    requires Holds(rule, root1, m1) && Holds(rule, root2, m2)
    ensures root1 == root2 <==> m1 == m2
  {
    hide GoodRow, Build, Shrinking, Lookup;
    var xs :| RowOf(xs, m1) && root1 == Build(rule, xs);
    var ys :| RowOf(ys, m2) && root2 == Build(rule, ys);
    if m1 == m2 {
      RowUnique(xs, ys, m1);
    }
    if root1 == root2 {
      CanonicalLevel(rule, xs, 0);
      CanonicalLevel(rule, ys, 0);
      assert xs == ys;
      forall k
        ensures k in m1 <==> k in m2
        ensures k in m1 ==> m1[k] == m2[k]
      {
        assert Lookup(xs, k) == if k in m1 then Some(Leaf(k, m1[k])) else None;
        assert Lookup(ys, k) == if k in m2 then Some(Leaf(k, m2[k])) else None;
      }
    }
  }

  /******** What a flush logs ********/

  ghost function KeysOf(chs: seq<Change>): seq<Key> {
    if chs == [] then [] else [chs[0].key] + KeysOf(chs[1..])
  }

  lemma KeysOfPush(ch: Change, chs: seq<Change>)
    ensures KeysOf([ch] + chs) == [ch.key] + KeysOf(chs)
  {
    assert ([ch] + chs)[1..] == chs;
  }

  lemma LeafMerged(run: seq<Entry>, eds: seq<Edit>)
    requires AllLeaf(run) && EditsFit(0, eds)
    ensures AllLeaf(Merged(run, eds))
  {
    MergedFits(0, run, eds);
    assert forall i :: 0 <= i < |Merged(run, eds)| ==> Fits(0, Merged(run, eds)[i]);
  }

  // How one move of a merge shows in the diff.
  lemma DiffMove(run: seq<Entry>, n: nat, w: seq<Entry>, m: seq<Entry>, k: Key)
    requires AllLeaf(run) && AllLeaf(m) && AllLeaf(w) && n <= 1 && n <= |run| && |w| <= 1
    requires (n == 1 ==> run[0].key == k) && (w != [] ==> w[0].key == k)
    requires KeysAbove(Rank(k), run[n..]) && KeysAbove(Rank(k), m)
    ensures AllLeaf(run[n..]) && AllLeaf(w + m)
    ensures KeysOf(DiffOf(run, w + m)) == (if w != run[..n] then [k] else []) + KeysOf(DiffOf(run[n..], m))
  {
    var to := w + m;
    DiffOfUnfolds(run, to);
    assert w != [] ==> to[0] == w[0] && to[1..] == m;
    assert w == [] ==> to == m;
    assert n == 0 ==> run[n..] == run && run[..n] == [];
    assert n == 1 ==> run[..1] == [run[0]] && run == [run[0]] + run[1..];
    var rest := DiffOf(run[n..], m);
    if n == 1 && w == [] {
      assert m != [] ==> Rank(k) < Rank(m[0].key);
      KeysOfPush(Removed(k, run[0].val), rest);
    } else if n == 0 && w != [] {
      assert run != [] ==> Rank(k) < Rank(run[0].key);
      KeysOfPush(Added(k, w[0].val), rest);
    } else if n == 1 {
      if run[0].val != w[0].val {
        KeysOfPush(Modified(k, run[0].val, w[0].val), rest);
      }
    }
  }

  // A flush's log equals the list of keys reported when the two rows are compared, order included.
  lemma {:induction false} LoggedIsDiff(run: seq<Entry>, eds: seq<Edit>)
    requires AllLeaf(run) && EditsFit(0, eds) && Sorted(run) && SortedEdits(eds)
    ensures AllLeaf(Merged(run, eds))
    ensures Logged(run, eds) == KeysOf(DiffOf(run, Merged(run, eds)))
    decreases |run| + |eds|
  {
    LeafMerged(run, eds);
    if run != [] || eds != [] {
      NextBelow(run, eds);
      var mv := Next(run, eds);
      var run', eds' := run[mv.entries..], eds[mv.edits..];
      assert EditsFit(0, eds');
      MergedRange(run', eds', Rank(mv.key), 0.0);
      LeafMerged(run', eds');
      NextLeaf(run, eds);
      assert Merged(run, eds) == mv.written + Merged(run', eds');
      assert Logged(run, eds) == (if mv.written != run[..mv.entries] then [mv.key] else []) + Logged(run', eds');
      hide *;
      LoggedIsDiff(run', eds');
      DiffMove(run, mv.entries, mv.written, Merged(run', eds'), mv.key);
    }
  }

  lemma NextLeaf(run: seq<Entry>, eds: seq<Edit>)
    requires AllLeaf(run) && EditsFit(0, eds) && (run != [] || eds != [])
    ensures var mv := Next(run, eds);
            && AllLeaf(mv.written) && |mv.written| <= 1 && (mv.written != [] ==> mv.written[0].key == mv.key)
            && mv.entries <= 1 && (mv.entries == 1 ==> run[0].key == mv.key) && AllLeaf(run[mv.entries..])
  {
    if eds != [] && eds[0].Put? {
      assert Fits(0, eds[0].e);
    }
  }

  /******** The editor ********/

  const MAX_KEY_SIZE := 4096
  const DEFAULT_MAX_VALUE := 64 * 1024 * 1024

  /** How values are stored: inline up to a limit, else as the stream they are written as. */
  datatype Config = Config(inlineLimit: nat, maxValue: nat, stream: seq<byte> -> Value)
  {
    function Limit(): nat {
      if maxValue == 0 then DEFAULT_MAX_VALUE else maxValue
    }

    function Stored(val: seq<byte>): Value {
      if |val| > inlineLimit then stream(val) else Inline(val)
    }
  }

  datatype EditError = KeyTooLarge | ValueTooLarge

  // A put of bytes, or a delete.
  type Pending = map<Key, Option<seq<byte>>>

  // The contents after the pending edits.
  ghost function Edited(m: map<Key, Value>, p: Pending, c: Config): map<Key, Value> {
    map k | k in m.Keys + p.Keys && (k in p ==> p[k].Some?) :: if k in p then c.Stored(p[k].value) else m[k]
  }

  // The edit list a flush makes of the pending edits under the keys ks.
  ghost predicate EditList(eds: seq<Edit>, ks: seq<Key>, p: Pending, c: Config) {
    |eds| == |ks| && forall i :: 0 <= i < |ks| ==> ks[i] in p && eds[i] == EditFor(ks[i], p[ks[i]], c)
  }

  function EditFor(k: Key, v: Option<seq<byte>>, c: Config): Edit {
    if v.None? then Delete(k) else Put(Leaf(k, c.Stored(v.value)))
  }

  ghost predicate SortedKeys(ks: seq<Key>) {
    forall i, j :: 0 <= i < j < |ks| ==> Rank(ks[i]) < Rank(ks[j])
  }

  // Inserts a key where it belongs.
  method Insert(ks: seq<Key>, k: Key) returns (out: seq<Key>)
    requires SortedKeys(ks) && k !in ks
    ensures SortedKeys(out) && forall x :: x in out <==> x in ks || x == k
  {
    var i := 0;
    var before := true;
    while i < |ks| && before
      invariant 0 <= i <= |ks|
      invariant forall j :: 0 <= j < i ==> Rank(ks[j]) < Rank(k)
      invariant !before ==> i < |ks| && Rank(k) < Rank(ks[i])
      decreases |ks| - i, before
    {
      var c := Compare(ks[i], k);
      if c < 0 { i := i + 1; } else { before := false; }
    }
    out := ks[..i] + [k] + ks[i..];
    assert ks == ks[..i] + ks[i..];
    InsertSorted(ks, k, i);
  }

  lemma InsertSorted(ks: seq<Key>, k: Key, i: nat)
    requires SortedKeys(ks) && i <= |ks|
    requires forall j :: 0 <= j < i ==> Rank(ks[j]) < Rank(k)
    requires i < |ks| ==> Rank(k) < Rank(ks[i])
    ensures SortedKeys(ks[..i] + [k] + ks[i..])
  {
    var out := ks[..i] + [k] + ks[i..];
    assert forall j :: 0 <= j < |out| ==> out[j] == if j < i then ks[j] else if j == i then k else ks[j - 1];
    assert forall j :: i < j < |ks| ==> Rank(ks[i]) < Rank(ks[j]);
  }

  // The keys of a set in ascending order.
  method SortKeys(s: set<Key>) returns (ks: seq<Key>)
    ensures SortedKeys(ks) && forall k :: k in ks <==> k in s
  {
    ks := [];
    var left := s;
    while left != {}
      invariant SortedKeys(ks) && left <= s && forall k :: k in ks <==> k in s && k !in left
      decreases |left|
    {
      var k :| k in left;
      ks := Insert(ks, k);
      left := left - {k};
    }
  }

  lemma EditListSorted(eds: seq<Edit>, ks: seq<Key>, p: Pending, c: Config)
    requires EditList(eds, ks, p, c) && SortedKeys(ks)
    ensures SortedEdits(eds) && EditsFit(0, eds)
  {
    assert forall i :: 0 <= i < |eds| ==> eds[i].At() == ks[i];
  }

  lemma {:induction false} EditListOf(eds: seq<Edit>, ks: seq<Key>, p: Pending, c: Config, k: Key)
    requires EditList(eds, ks, p, c) && SortedKeys(ks)
    ensures EditOf(eds, k) == if k in ks then Some(EditFor(k, p[k], c)) else None
  {
    if eds != [] {
      assert eds[0].At() == ks[0];
      assert ks == [ks[0]] + ks[1..];
      EditListOf(eds[1..], ks[1..], p, c, k);
    }
  }

  // A row of m with the pending edits merged in is a row of the edited contents.
  lemma EditedRow(xs: seq<Entry>, m: map<Key, Value>, eds: seq<Edit>, ks: seq<Key>, p: Pending, c: Config)
    requires RowOf(xs, m) && EditList(eds, ks, p, c) && SortedKeys(ks) && forall k :: k in ks <==> k in p
    ensures SortedEdits(eds) && EditsFit(0, eds)
    ensures GoodRow(0, Merged(xs, eds)) && RowOf(Merged(xs, eds), Edited(m, p, c))
  {
    EditListSorted(eds, ks, p, c);
    var ys, m' := Merged(xs, eds), Edited(m, p, c);
    assert GoodRow(0, ys) by {
      MergedSorted(xs, eds, -1.0);
      MergedFits(0, xs, eds);
    }
    hide GoodRow, Merged, Sorted, SortedEdits, EditsFit, AllFit, Lookup;
    forall k ensures Lookup(ys, k) == if k in m' then Some(Leaf(k, m'[k])) else None {
      MergedRowLookup(xs, m, eds, k);
      EditListOf(eds, ks, p, c, k);
    }
  }

  lemma MergedRowLookup(xs: seq<Entry>, m: map<Key, Value>, eds: seq<Edit>, k: Key)
    requires RowOf(xs, m) && SortedEdits(eds)
    ensures Lookup(Merged(xs, eds), k) == After(if k in m then Some(Leaf(k, m[k])) else None, EditOf(eds, k))
  {
    MergedLookup(xs, eds, k);
  }

  /** A flushed map: its tree, the tree it was edited from, and the keys the flush changed. */
  datatype Flushed = Flushed(root: Node, base: Node, changed: seq<Key>)

  class Editor {
    const r: Rule
    const c: Config
    var root: Node
    var edits: Pending
    // What the tree holds.
    ghost var held: map<Key, Value>

    ghost predicate Valid()
      reads this
    {
      r.Valid() && Holds(AsSplitRule(r), root, held)
    }

    constructor (r: Rule, c: Config, root: Node, ghost held: map<Key, Value>)
      requires r.Valid() && Holds(AsSplitRule(r), root, held)
      ensures Valid() && this.r == r && this.c == c && this.root == root && this.held == held && edits == map[]
    {
      this.r, this.c, this.root, this.held, edits := r, c, root, held, map[];
    }

    method Put(key: Key, val: seq<byte>) returns (err: Option<EditError>)
      requires Valid()
      modifies `edits
      ensures Valid()
      ensures err == if |key| > MAX_KEY_SIZE then Some(KeyTooLarge)
                     else if |val| > c.Limit() then Some(ValueTooLarge) else None
      ensures edits == if err.None? then old(edits)[key := Some(val)] else old(edits)
    {
      if |key| > MAX_KEY_SIZE {
        return Some(KeyTooLarge);
      }
      if |val| > c.Limit() {
        return Some(ValueTooLarge);
      }
      edits := edits[key := Some(val)];
      err := None;
    }

    method Remove(key: Key) returns (err: Option<EditError>)
      requires Valid()
      modifies `edits
      ensures Valid()
      ensures err == if |key| > MAX_KEY_SIZE then Some(KeyTooLarge) else None
      ensures edits == if err.None? then old(edits)[key := None] else old(edits)
    {
      if |key| > MAX_KEY_SIZE {
        return Some(KeyTooLarge);
      }
      edits := edits[key := None];
      err := None;
    }

    /** A flush: the tree returned is canonical for the edited contents, the log is what comparing the two trees
        reports, and the editor goes on from there with no edits pending. */
    method Flush() returns (f: Flushed)
      requires Valid()
      modifies this
      ensures Valid() && f.root == root && f.base == old(root) && edits == map[]
      ensures held == Edited(old(held), old(edits), c)
      ensures Good(f.base) && Good(f.root) && AllLeaf(LeafRow(f.base)) && AllLeaf(LeafRow(f.root))
      ensures f.changed == KeysOf(DiffOf(LeafRow(f.base), LeafRow(f.root)))
    {
      hide *;
      ValidMeans();
      var ks := SortKeys(edits.Keys);
      var eds := EditsOf(ks, edits, c);
      ghost var xs := RowHeld(AsSplitRule(r), root, held);
      EditedRow(xs, held, eds, ks, edits, c);
      ghost var ys := Merged(xs, eds);
      var next, changed := Apply(r, root, eds, xs);
      LogReported(AsSplitRule(r), xs, eds);
      HoldsIs(AsSplitRule(r), next, ys, Edited(held, edits, c));
      f := Flushed(next, root, changed);
      root, held, edits := next, Edited(held, edits, c), map[];
      ValidIs();
    }

    lemma ValidMeans()
      requires Valid()
      ensures r.Valid() && Holds(AsSplitRule(r), root, held)
    {
    }

    lemma ValidIs()
      requires r.Valid() && Holds(AsSplitRule(r), root, held)
      ensures Valid()
    {
    }
  }

  method EditsOf(ks: seq<Key>, p: Pending, c: Config) returns (eds: seq<Edit>)
    requires forall k :: k in ks <==> k in p
    ensures EditList(eds, ks, p, c)
  {
    eds := [];
    for i := 0 to |ks|
      invariant |eds| == i && forall j :: 0 <= j < i ==> eds[j] == EditFor(ks[j], p[ks[j]], c)
    {
      eds := eds + [EditFor(ks[i], p[ks[i]], c)];
    }
  }

  lemma RowHeld(rule: SplitRule, root: Node, m: map<Key, Value>) returns (xs: seq<Entry>)
    requires Holds(rule, root, m)
    ensures RowOf(xs, m) && GoodRow(0, xs) && Shrinking(rule) && root == Build(rule, xs)
  {
    xs :| RowOf(xs, m) && root == Build(rule, xs);
  }

  lemma HoldsIs(rule: SplitRule, root: Node, xs: seq<Entry>, m: map<Key, Value>)
    requires Shrinking(rule) && RowOf(xs, m) && root == Build(rule, xs)
    ensures Holds(rule, root, m)
  {
  }

  // What the log of a flush means between the two canonical trees.
  lemma LogReported(rule: SplitRule, xs: seq<Entry>, eds: seq<Edit>)
    requires Shrinking(rule) && GoodRow(0, xs) && SortedEdits(eds) && EditsFit(0, eds) && GoodRow(0, Merged(xs, eds))
    ensures var a, b := Build(rule, xs), Build(rule, Merged(xs, eds));
            && Good(a) && Good(b) && AllLeaf(LeafRow(a)) && AllLeaf(LeafRow(b))
            && Logged(xs, eds) == KeysOf(DiffOf(LeafRow(a), LeafRow(b)))
  {
    hide *;
    CanonicalLevel(rule, xs, 0);
    CanonicalLevel(rule, Merged(xs, eds), 0);
    RowLeaf(Build(rule, xs));
    RowLeaf(Build(rule, Merged(xs, eds)));
    LoggedIsDiff(xs, eds);
  }
}
