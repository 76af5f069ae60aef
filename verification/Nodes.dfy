/** Nodes of a prolly tree. Content addressing makes a hash stand for exactly one node, so the model
    identifies the two: an inner entry holds the child its hash names, and equal hashes are equal
    nodes. */
module Nodes {
  import opened Keys
  import opened Basics

  const HASH_SIZE := 32

  datatype Value = Inline(bytes: seq<byte>) | Stream(root: seq<byte>, size: nat, depth: nat)

  datatype Entry =
    | Leaf(key: Key, val: Value)
    | Inner(key: Key, child: Node, count: nat)

  datatype Node = Node(level: nat, entries: seq<Entry>)
  {
    function LastKey(): Key
      requires entries != []
    {
      entries[|entries| - 1].key
    }

    // How many key-value pairs the subtree holds.
    function Total(): nat {
      if level == 0 then |entries| else SumCounts(entries)
    }
  }

  function SumCounts(es: seq<Entry>): nat {
    if es == [] then 0
    else SumCounts(es[..|es| - 1]) + (if es[|es| - 1].Inner? then es[|es| - 1].count else 0)
  }

  // n's last key, n itself and its total, as its parent lists them.
  function NameOf(n: Node): Entry
    requires n.entries != []
  {
    Inner(n.LastKey(), n, n.Total())
  }

  function UvarintLen(v: nat): nat {
    if v < 128 then 1 else 1 + UvarintLen(v / 128)
  }

  // How many bytes an entry takes once written.
  function EntrySize(e: Entry): nat {
    var n := UvarintLen(|e.key|) + |e.key|;
    if e.Inner? then n + HASH_SIZE + UvarintLen(e.count)
    else if e.val.Stream? then n + 1 + HASH_SIZE + UvarintLen(e.val.size) + 1
    else n + 1 + UvarintLen(|e.val.bytes|) + |e.val.bytes|
  }

  function SizeOf(es: seq<Entry>): nat {
    if es == [] then 0 else SizeOf(es[..|es| - 1]) + EntrySize(es[|es| - 1])
  }

  ghost predicate Sorted(es: seq<Entry>) {
    forall i, j :: 0 <= i < j < |es| ==> Rank(es[i].key) < Rank(es[j].key)
  }

  // Leaf entries at level 0; above, entries that name a non-empty child one level down.
  ghost predicate Fits(level: nat, e: Entry) {
    if level == 0 then e.Leaf?
    else e.Inner? && e.child.level == level - 1 && e.child.entries != [] && e == NameOf(e.child)
  }

  ghost predicate AllFit(level: nat, es: seq<Entry>) {
    forall i :: 0 <= i < |es| ==> Fits(level, es[i])
  }

  /******** What a run holds ********/

  // The entry a run holds under k.
  ghost function Lookup(es: seq<Entry>, k: Key): (o: Option<Entry>)
    ensures o.Some? ==> o.value.key == k && o.value in es
  {
    if es == [] then None else if es[0].key == k then Some(es[0]) else Lookup(es[1..], k)
  }

  ghost predicate KeysAbove(r: real, es: seq<Entry>) {
    forall i :: 0 <= i < |es| ==> r < Rank(es[i].key)
  }

  lemma {:induction false} LookupBelow(es: seq<Entry>, k: Key)
    requires KeysAbove(Rank(k), es)
    ensures Lookup(es, k) == None
  {
    if es != [] {
      LookupBelow(es[1..], k);
    }
  }

  lemma {:induction false} LookupOf(es: seq<Entry>, i: nat)
    requires Sorted(es) && i < |es|
    ensures Lookup(es, es[i].key) == Some(es[i])
  {
    if i > 0 {
      assert Rank(es[0].key) < Rank(es[i].key);
      LookupOf(es[1..], i - 1);
    }
  }

  // A sorted run is determined by what it holds.
  lemma {:induction false} SortedUnique(a: seq<Entry>, b: seq<Entry>)
    requires Sorted(a) && Sorted(b)
    requires forall k :: Lookup(a, k) == Lookup(b, k)
    ensures a == b
  {
    if a == [] || b == [] {
      assert a != [] ==> Lookup(a, a[0].key) == Lookup(b, a[0].key);
      assert b != [] ==> Lookup(a, b[0].key) == Lookup(b, b[0].key);
    } else {
      assert Lookup(a, a[0].key) == Lookup(b, a[0].key);
      assert Lookup(a, b[0].key) == Lookup(b, b[0].key);
      SortedHead(a, b);
      SortedHead(b, a);
      assert a[0] == b[0];
      forall k ensures Lookup(a[1..], k) == Lookup(b[1..], k) {
        if k == a[0].key {
          LookupBelow(a[1..], k);
          LookupBelow(b[1..], k);
        } else {
          assert Lookup(a, k) == Lookup(b, k);
        }
      }
      SortedUnique(a[1..], b[1..]);
    }
  }

  lemma SortedHead(a: seq<Entry>, b: seq<Entry>)
    requires Sorted(b) && a != [] && b != [] && Lookup(b, a[0].key) == Some(a[0])
    ensures Rank(b[0].key) <= Rank(a[0].key)
  {
    LookupBound(b, a[0].key);
  }

  lemma {:induction false} LookupBound(es: seq<Entry>, k: Key)
    requires Sorted(es) && Lookup(es, k).Some?
    ensures es != [] && Rank(es[0].key) <= Rank(k)
  {
    if es[0].key != k {
      LookupBound(es[1..], k);
      assert Rank(es[0].key) < Rank(es[1].key);
    }
  }
}
