/** Reading one key of a map: a descent from the root that reads one node a level. */
module Lookups {
  import opened Keys
  import opened Basics
  import opened Nodes
  import opened Trees
  import opened Drawing
  import opened Cursors
  import opened Maps
  import Flush

  ghost predicate KeysUnder(es: seq<Entry>, key: Key) {
    forall i :: 0 <= i < |es| ==> Rank(es[i].key) < Rank(key)
  }

  // A key past every key of a level is past every key of the leaves.
  lemma {:induction false} PastLeaves(root: Node, level: nat, key: Key)
    requires Good(root) && level <= root.level && KeysUnder(Row(root, level), key)
    ensures KeysUnder(LeafRow(root), key)
    decreases level
  {
    if level > 0 {
      var es := Row(root, level);
      RowInner(level, es, 0);
      if es != [] {
        ExpandBounds(level, es, Rank(LowKey(es[0])) - 1.0);
      }
      PastLeaves(root, level - 1, key);
    }
  }

  lemma {:induction false} LookupNone(es: seq<Entry>, key: Key)
    requires forall i :: 0 <= i < |es| ==> es[i].key != key
    ensures Lookup(es, key) == None
  {
    if es != [] {
      LookupNone(es[1..], key);
    }
  }

  lemma UnderNone(es: seq<Entry>, key: Key)
    requires KeysUnder(es, key)
    ensures Lookup(es, key) == None
  {
    LookupNone(es, key);
  }

  // A search past the end of the node a key belongs in is past the end of its level.
  lemma PastNode(row: seq<Entry>, n: Node, key: Key, t: nat)
    requires InNode(row, n, key, t) && KeysUnder(n.entries, key)
    ensures KeysUnder(row, key)
  {
    assert t + |n.entries| == |row|;
    forall i | 0 <= i < |row| ensures Rank(row[i].key) < Rank(key) {
      if i >= t {
        assert row[t..t + |n.entries|][i - t] == row[i];
      }
    }
  }

  // A key is in a row exactly where a search of the node it belongs in finds it.
  lemma FoundInNode(row: seq<Entry>, n: Node, key: Key, t: nat, k: nat)
    requires Sorted(row) && InNode(row, n, key, t) && k <= |n.entries|
    requires forall j :: 0 <= j < k ==> Rank(n.entries[j].key) < Rank(key)
    requires forall j :: k <= j < |n.entries| ==> Rank(key) <= Rank(n.entries[j].key)
    ensures Lookup(row, key) == if k < |n.entries| && n.entries[k].key == key then Some(n.entries[k]) else None
  {
    var m := |n.entries|;
    assert forall j :: 0 <= j < m ==> row[t..t + m][j] == row[t + j] == n.entries[j];
    if k < m && n.entries[k].key == key {
      assert row[t + k] == n.entries[k];
      LookupOf(row, t + k);
    } else {
      forall i | 0 <= i < |row| ensures row[i].key != key {
        if t <= i < t + m {
          assert row[i] == n.entries[i - t];
          if i - t > k {
            assert Rank(row[t + k].key) < Rank(row[i].key);
          }
        } else if i >= t + m {
          assert Rank(row[t + m - 1].key) < Rank(row[i].key) && row[t + m - 1] == n.entries[m - 1];
        }
      }
      LookupNone(row, key);
    }
  }

  lemma WholeNode(n: Node, key: Key)
    requires n.entries != []
    ensures InNode(n.entries, n, key, 0)
  {
    assert n.entries[0..|n.entries|] == n.entries;
  }

  lemma SoughtNode(root: Node, level: nat, key: Key, n: Node, rest: seq<Entry>, t: nat)
    requires Good(root) && Sought(root, level, key, n, rest, t) && root.level > 0
    ensures level <= root.level && InNode(Row(root, level), n, key, t) && t <= |Row(root, level)|
            && rest == Row(root, level)[t..]
  {
  }

  lemma NodeSorted(root: Node, level: nat, key: Key, n: Node, t: nat)
    requires Good(root) && level <= root.level && InNode(Row(root, level), n, key, t)
    ensures Sorted(n.entries) && n.entries != [] && AllFit(level, n.entries)
  {
    var row := Row(root, level);
    assert forall j :: 0 <= j < |n.entries| ==> row[t..t + |n.entries|][j] == row[t + j] == n.entries[j];
  }

  lemma RestAt(row: seq<Entry>, n: Node, key: Key, t: nat, k: nat)
    requires InNode(row, n, key, t) && k < |n.entries|
    ensures k < |row[t..]| && row[t..][k] == n.entries[k]
  {
    assert row[t..t + |n.entries|][k] == row[t + k];
  }

  lemma ChildIs(level: nat, es: seq<Entry>, k: nat)
    requires AllFit(level, es) && k < |es| && level > 0
    ensures es[k].Inner? && es[k].child.level == level - 1
  {
    assert Fits(level, es[k]);
  }

  lemma LeafIs(es: seq<Entry>, k: nat)
    requires AllFit(0, es) && k < |es|
    ensures es[k].Leaf?
  {
    assert Fits(0, es[k]);
  }

  /** A key's value, or none. */
  method Get(root: Node, key: Key) returns (v: Option<Value>)
    requires Good(root)
    ensures Lookup(LeafRow(root), key) == if v.None? then None else Some(Leaf(key, v.value))
  {
    hide *;
    if root.level == 0 {
      v := GetLeaf(root, root, key, 0);
      return;
    }
    var n := root;
    ghost var rest, t := root.entries, 0;
    SoughtRoot(root, key);
    while n.level > 0
      invariant n.level <= root.level && Sought(root, n.level, key, n, rest, t)
      decreases n.level
    {
      SoughtNode(root, n.level, key, n, rest, t);
      NodeSorted(root, n.level, key, n, t);
      var k := Search(n, key);
      if k == |n.entries| {
        KeysUnderIs(n.entries, key);
        PastNode(Row(root, n.level), n, key, t);
        PastLeaves(root, n.level, key);
        UnderNone(LeafRow(root), key);
        return None;
      }
      RestAt(Row(root, n.level), n, key, t, k);
      ChildIs(n.level, n.entries, k);
      ghost var t' := SoughtDown(root, n.level, key, n, rest, t, k);
      rest, t := Expand(rest[k..]), t';
      n := n.entries[k].child;
    }
    SoughtNode(root, 0, key, n, rest, t);
    v := GetLeaf(root, n, key, t);
  }

  lemma KeysUnderIs(es: seq<Entry>, key: Key)
    requires forall i :: 0 <= i < |es| ==> Rank(es[i].key) < Rank(key)
    ensures KeysUnder(es, key)
  {
  }

  lemma LeafRowIs(root: Node)
    requires Good(root)
    ensures LeafRow(root) == Row(root, 0) && Sorted(Row(root, 0)) && AllFit(0, Row(root, 0))
            && (root.level == 0 ==> Row(root, 0) == root.entries)
  {
  }

  // The search of the leaf the key belongs in.
  method GetLeaf(root: Node, n: Node, key: Key, ghost t: nat) returns (v: Option<Value>)
    requires Good(root) && (if root.level == 0 then n == root else InNode(Row(root, 0), n, key, t))
    ensures Lookup(LeafRow(root), key) == if v.None? then None else Some(Leaf(key, v.value))
  {
    hide *;
    LeafRowIs(root);
    ghost var at := t;
    if root.level == 0 {
      at := 0;
      if n.entries == [] {
        LookupEmpty(key);
        return None;
      }
      WholeNode(n, key);
    }
    NodeSorted(root, 0, key, n, at);
    var k := Search(n, key);
    FoundInNode(Row(root, 0), n, key, at, k);
    if k == |n.entries| || n.entries[k].key != key {
      return None;
    }
    LeafIs(n.entries, k);
    v := Some(n.entries[k].val);
  }

  lemma LookupEmpty(key: Key)
    ensures Lookup([], key) == None
  {
  }

  /** Of a map's tree, the value the map holds. */
  lemma GetIsMap(rule: SplitRule, root: Node, m: map<Key, Value>, key: Key, v: Option<Value>)
    requires Holds(rule, root, m) && Good(root)
    requires Lookup(LeafRow(root), key) == if v.None? then None else Some(Leaf(key, v.value))
    ensures v == if key in m then Some(m[key]) else None
  {
    hide *;
    var xs := RowHeld(rule, root, m);
    Flush.CanonicalLevel(rule, xs, 0);
    RowAt(xs, m, key);
  }

  lemma RowAt(xs: seq<Entry>, m: map<Key, Value>, key: Key)
    requires RowOf(xs, m)
    ensures Lookup(xs, key) == if key in m then Some(Leaf(key, m[key])) else None
  {
  }
}
