/** Well-formed trees and the rows of entries at each of their levels. */
module Trees {
  import opened Keys
  import opened Nodes
  import opened Basics

  // The lowest key under an entry.
  ghost function LowKey(e: Entry): Key {
    if e.Leaf? || e.child.entries == [] then e.key else LowKey(e.child.entries[0])
  }

  /** A run of entries at a level: sorted, of that level's shape, and above the leaves every child a
      well-formed node whose leaf entries all come after the entry before its own. */
  ghost predicate GoodRow(level: nat, es: seq<Entry>)
    decreases level
  {
    && Sorted(es)
    && AllFit(level, es)
    && (level > 0 ==>
          && (forall i :: 0 <= i < |es| ==> GoodRow(level - 1, es[i].child.entries))
          && (forall i :: 0 < i < |es| ==> Rank(es[i - 1].key) < Rank(LowKey(es[i]))))
  }

  // A root or a node under one: an empty node has level zero.
  ghost predicate Good(n: Node) {
    GoodRow(n.level, n.entries) && (n.level > 0 ==> n.entries != [])
  }

  lemma {:induction false} GoodRowSlice(level: nat, es: seq<Entry>, i: nat, j: nat)
    requires GoodRow(level, es) && i <= j <= |es|
    ensures GoodRow(level, es[i..j])
  {
    var s := es[i..j];
    assert forall k :: 0 <= k < |s| ==> s[k] == es[i + k];
    if level > 0 {
      forall k | 0 < k < |s| ensures Rank(s[k - 1].key) < Rank(LowKey(s[k])) {
        assert s[k - 1] == es[i + k - 1];
        assert s[k] == es[i + k];
      }
    }
  }

  lemma GoodRowEmpty(level: nat)
    ensures GoodRow(level, [])
  {
  }

  lemma GoodRowDrop(level: nat, es: seq<Entry>, i: nat)
    requires GoodRow(level, es) && i <= |es|
    ensures GoodRow(level, es[i..])
  {
    GoodRowSlice(level, es, i, |es|);
    assert es[i..|es|] == es[i..];
  }

  /******** Going down a level ********/

  ghost predicate AllInner(es: seq<Entry>) {
    forall i :: 0 <= i < |es| ==> es[i].Inner?
  }

  ghost function Children(es: seq<Entry>): (ns: seq<Node>)
    requires AllInner(es)
    ensures |ns| == |es| && forall i :: 0 <= i < |ns| ==> ns[i] == es[i].child
  {
    seq(|es|, i requires 0 <= i < |es| => es[i].child)
  }

  // The entries of a row's children, left to right.
  ghost function Expand(es: seq<Entry>): seq<Entry>
    requires AllInner(es)
  {
    if es == [] then [] else es[0].child.entries + Expand(es[1..])
  }

  lemma {:induction false} ExpandAppend(a: seq<Entry>, b: seq<Entry>)
    requires AllInner(a) && AllInner(b)
    ensures Expand(a + b) == Expand(a) + Expand(b)
  {
    if a == [] {
      assert a + b == b;
    } else {
      DropOfAppend(a, b, 1);
      ExpandAppend(a[1..], b);
      AppendAssoc(a[0].child.entries, Expand(a[1..]), Expand(b));
    }
  }

  ghost predicate KeysIn(es: seq<Entry>, low: real, high: real) {
    forall i :: 0 <= i < |es| ==> low < Rank(es[i].key) <= high
  }

  // Nothing under an entry comes after its key.
  lemma {:induction false} LowKeyBelow(level: nat, es: seq<Entry>)
    requires GoodRow(level, es)
    ensures forall i :: 0 <= i < |es| ==> Rank(LowKey(es[i])) <= Rank(es[i].key)
    decreases level
  {
    forall i | 0 <= i < |es|
      ensures Rank(LowKey(es[i])) <= Rank(es[i].key)
    {
      assert Fits(level, es[i]);
      if level > 0 {
        var c := es[i].child;
        LowKeyBelow(level - 1, c.entries);
        assert c.entries[0].key == es[i].key || Rank(c.entries[0].key) < Rank(c.LastKey());
      }
    }
  }

  // The child of an entry spans from the entry's lowest key to its own.
  lemma ChildBounds(level: nat, es: seq<Entry>)
    requires level > 0 && GoodRow(level, es) && es != []
    ensures var c := es[0].child.entries;
            c != [] && LowKey(es[0]) == LowKey(c[0])
            && forall i :: 0 <= i < |c| ==> Rank(LowKey(es[0])) <= Rank(c[i].key) <= Rank(es[0].key)
  {
    assert Fits(level, es[0]);
    var c := es[0].child.entries;
    LowKeyBelow(level - 1, c);
    assert forall i :: 0 < i < |c| ==> Rank(c[0].key) < Rank(c[i].key);
    assert forall i :: 0 <= i < |c| - 1 ==> Rank(c[i].key) < Rank(c[|c| - 1].key);
  }

  lemma {:induction false} ExpandBounds(level: nat, es: seq<Entry>, low: real)
    requires level > 0 && GoodRow(level, es)
    requires es != [] ==> low < Rank(LowKey(es[0]))
    ensures es != [] ==> Expand(es) != [] && LowKey(Expand(es)[0]) == LowKey(es[0])
                         && KeysIn(Expand(es), low, Rank(es[|es| - 1].key))
  {
    if es != [] {
      ChildBounds(level, es);
      if |es| > 1 {
        GoodRowDrop(level, es, 1);
        assert es[1..][0] == es[1];
        ExpandBounds(level, es[1..], Rank(es[0].key));
        assert es[1..][|es| - 2] == es[|es| - 1];
        LowKeyBelow(level, es);
      } else {
        assert Expand(es[1..]) == [];
      }
    }
  }

  lemma {:induction false} GoodRowAppend(level: nat, a: seq<Entry>, b: seq<Entry>, cut: real)
    requires GoodRow(level, a) && GoodRow(level, b)
    requires forall i :: 0 <= i < |a| ==> Rank(a[i].key) <= cut
    requires forall i :: 0 <= i < |b| ==> cut < Rank(b[i].key)
    requires b != [] ==> cut < Rank(LowKey(b[0]))
    ensures GoodRow(level, a + b)
  {
    var s := a + b;
    assert Sorted(s);
    assert AllFit(level, s);
    if level > 0 {
      forall i | 0 <= i < |s| ensures GoodRow(level - 1, s[i].child.entries) {
        assert s[i] == if i < |a| then a[i] else b[i - |a|];
      }
      forall i | 0 < i < |s| ensures Rank(s[i - 1].key) < Rank(LowKey(s[i])) {
        assert i < |a| ==> s[i - 1] == a[i - 1] && s[i] == a[i];
        assert i > |a| ==> s[i - 1] == b[i - 1 - |a|] && s[i] == b[i - |a|];
        assert i == |a| ==> s[i] == b[0];
      }
    }
  }

  // The row below a well-formed row is well formed.
  lemma {:induction false} ExpandGood(level: nat, es: seq<Entry>)
    requires level > 0 && GoodRow(level, es)
    ensures GoodRow(level - 1, Expand(es))
  {
    if es != [] {
      var cut := Rank(es[0].key);
      ChildBounds(level, es);
      GoodRowDrop(level, es, 1);
      ExpandGood(level, es[1..]);
      if |es| > 1 {
        assert es[1..][0] == es[1];
        ExpandBounds(level, es[1..], cut);
      }
      GoodRowAppend(level - 1, es[0].child.entries, Expand(es[1..]), cut);
    }
  }

  /******** Rows of a tree ********/

  // The entries of a tree's level, left to right.
  ghost function Row(root: Node, level: nat): (es: seq<Entry>)
    requires Good(root) && level <= root.level
    ensures GoodRow(level, es)
    decreases root.level - level
  {
    if level == root.level then root.entries
    else
      ExpandGood(level + 1, Row(root, level + 1));
      Expand(Row(root, level + 1))
  }

  ghost function LeafRow(root: Node): (es: seq<Entry>)
    requires Good(root)
    ensures GoodRow(0, es)
  {
    Row(root, 0)
  }
}
