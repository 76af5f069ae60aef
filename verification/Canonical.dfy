/** The canonical tree is well formed, and each of its rows is what the bulk build feeds that level. */
module Canonical {
  import opened Keys
  import opened Basics
  import opened Nodes
  import opened Trees
  import opened Drawing
  import opened Levels

  lemma {:induction false} NamesGood(level: nat, runs: seq<seq<Entry>>)
    requires NoneEmpty(runs) && GoodRow(level, Concat(runs))
    ensures GoodRow(level + 1, Names(NodesOf(level, runs)))
    ensures runs != [] ==> Concat(runs) != []
                           && Rank(Names(NodesOf(level, runs))[|runs| - 1].key) == Rank(LastOf(Concat(runs)).key)
  {
    if runs == [] {
      assert Names(NodesOf(level, runs)) == [];
      GoodRowEmpty(level + 1);
    } else {
      var init, p := runs[..|runs| - 1], runs[|runs| - 1];
      var a := Concat(init);
      assert runs == init + [p] && NoneEmpty(init) && p != [];
      assert Concat(runs) == a + p;
      hide *;
      GoodPrefix(level, a, p);
      NamesGood(level, init);
      NamesPush(level, init, p);
      PushGood(level, Names(NodesOf(level, init)), a, p);
    }
  }

  lemma GoodPrefix(level: nat, a: seq<Entry>, p: seq<Entry>)
    requires GoodRow(level, a + p)
    ensures GoodRow(level, a) && GoodRow(level, p)
  {
    GoodRowSlice(level, a + p, 0, |a|);
    GoodRowDrop(level, a + p, |a|);
    assert (a + p)[0..|a|] == a && (a + p)[|a|..] == p;
  }

  // A node after a row that ends before its lowest key extends the row.
  lemma PushGood(level: nat, names: seq<Entry>, a: seq<Entry>, p: seq<Entry>)
    requires GoodRow(level + 1, names) && GoodRow(level, a + p) && GoodRow(level, p) && p != []
    requires names != [] ==> a != [] && Rank(names[|names| - 1].key) == Rank(LastOf(a).key)
    ensures GoodRow(level + 1, names + [NameOf(Node(level, p))]) && a + p != []
    ensures NameOf(Node(level, p)).key == LastOf(a + p).key
  {
    hide *;
    var e := NameOf(Node(level, p));
    OneGood(level, a, p);
    if names == [] {
      assert names + [e] == [e];
    } else {
      LowAfter(level, a, p);
      SortedBelowLast(level + 1, names);
      GoodRowAppend(level + 1, names, [e], Rank(names[|names| - 1].key));
    }
  }

  lemma OneGood(level: nat, a: seq<Entry>, p: seq<Entry>)
    requires GoodRow(level, p) && p != []
    ensures var e := NameOf(Node(level, p));
            && GoodRow(level + 1, [e]) && LowKey(e) == LowKey(p[0]) && Rank(LowKey(e)) <= Rank(e.key)
            && e.key == LastOf(a + p).key
  {
    var e := NameOf(Node(level, p));
    assert [e][0] == e && Fits(level + 1, e);
    assert LastOf(a + p) == LastOf(p);
    LowKeyBelow(level + 1, [e]);
    assert Rank(LowKey([e][0])) <= Rank([e][0].key);
  }

  lemma SortedBelowLast(level: nat, names: seq<Entry>)
    requires GoodRow(level, names) && names != []
    ensures forall i :: 0 <= i < |names| ==> Rank(names[i].key) <= Rank(names[|names| - 1].key)
  {
    assert forall i :: 0 <= i < |names| - 1 ==> Rank(names[i].key) < Rank(names[|names| - 1].key);
  }

  lemma LowAfter(level: nat, a: seq<Entry>, p: seq<Entry>)
    requires GoodRow(level, a + p) && a != [] && p != []
    ensures Rank(LastOf(a).key) < Rank(LowKey(p[0]))
  {
    var es := a + p;
    assert es[|a| - 1] == LastOf(a) && es[|a|] == p[0];
    if level == 0 {
      assert Fits(0, es[|a|]);
    }
  }

  // A drawn level: its names are a good row over exactly the entries it was drawn from.
  lemma DrawnRow(rule: SplitRule, level: nat, es: seq<Entry>)
    requires GoodRow(level, es)
    ensures var names := Names(DrawNodes(rule, level, es));
            && GoodRow(level + 1, names) && AllInner(names) && Expand(names) == es && Drew(rule, level, names)
            && (forall i :: 0 <= i < |names| ==> names[i].child == DrawNodes(rule, level, es)[i])
  {
    hide GoodRow, Draw;
    var runs := Draw(rule, level, es);
    DrawConserves(rule, level, es);
    NamesGood(level, runs);
    var names := Names(NodesOf(level, runs));
    GoodInner(level, names);
    assert RunsOf(names) == runs by {
      forall i | 0 <= i < |runs| ensures RunsOf(names)[i] == runs[i] {
        assert names[i] == NameOf(Node(level, runs[i]));
      }
    }
    ExpandIsConcat(names);
  }

  // Every level of the bulk build over a good leaf row is a good row.
  lemma {:induction false} LevelGood(rule: SplitRule, xs: seq<Entry>, level: nat)
    requires GoodRow(0, xs)
    ensures GoodRow(level, LevelEntries(rule, xs, level))
  {
    hide *;
    LevelUnfolds(rule, xs, level);
    if level > 0 {
      LevelGood(rule, xs, level - 1);
      LevelUnfolds(rule, xs, level - 1);
      DrawnRow(rule, level - 1, LevelEntries(rule, xs, level - 1));
    }
  }

  // The level the tree stops growing at: the first of one node.
  ghost predicate Top(rule: SplitRule, xs: seq<Entry>, top: nat) {
    |Level(rule, xs, top)| == 1 && forall l :: 0 <= l < top ==> |Level(rule, xs, l)| >= 2
  }

  lemma FindTop(rule: SplitRule, xs: seq<Entry>, level: nat) returns (top: nat)
    requires Shrinking(rule) && xs != []
    requires forall l :: 0 <= l < level ==> |Level(rule, xs, l)| >= 2
    ensures Top(rule, xs, top) && level <= top
    decreases |Level(rule, xs, level)|
  {
    hide *;
    LevelsShrink(rule, xs, 0, level);
    if |Level(rule, xs, level)| == 1 {
      top := level;
      TopIntro(rule, xs, top);
    } else {
      NextShrinks(rule, xs, level);
      top := FindTop(rule, xs, level + 1);
    }
  }

  lemma TopIntro(rule: SplitRule, xs: seq<Entry>, top: nat)
    requires |Level(rule, xs, top)| == 1 && forall l :: 0 <= l < top ==> |Level(rule, xs, l)| >= 2
    ensures Top(rule, xs, top)
  {
  }

  lemma NextShrinks(rule: SplitRule, xs: seq<Entry>, level: nat)
    requires Shrinking(rule) && |Level(rule, xs, level)| >= 2
    ensures |Level(rule, xs, level + 1)| < |Level(rule, xs, level)|
  {
    hide *;
    LevelUnfolds(rule, xs, level + 1);
    DrawNodesCount(rule, level + 1, LevelEntries(rule, xs, level + 1));
    DrawShrinks(rule, level + 1, LevelEntries(rule, xs, level + 1));
  }

  lemma DrawNodesCount(rule: SplitRule, level: nat, xs: seq<Entry>)
    ensures |DrawNodes(rule, level, xs)| == |Draw(rule, level, xs)|
  {
    hide Draw;
  }

  // The canonical tree: one node at its top, holding all that level's entries.
  lemma BuildShape(rule: SplitRule, xs: seq<Entry>, top: nat)
    requires Shrinking(rule) && xs != [] && Top(rule, xs, top)
    ensures Build(rule, xs) == Node(top, LevelEntries(rule, xs, top))
    ensures Level(rule, xs, top) == [Build(rule, xs)]
  {
    TopMeans(rule, xs, top);
    hide *;
    BuildFromLevel(rule, xs, top);
    LevelUnfolds(rule, xs, top);
    SoleNode(rule, top, LevelEntries(rule, xs, top));
    GrowOne(rule, top, Level(rule, xs, top));
  }

  lemma TopMeans(rule: SplitRule, xs: seq<Entry>, top: nat)
    requires Top(rule, xs, top)
    ensures |Level(rule, xs, top)| == 1 && (top > 0 ==> |Level(rule, xs, top - 1)| >= 2)
  {
  }

  lemma GrowOne(rule: SplitRule, level: nat, nodes: seq<Node>)
    requires Shrinking(rule) && |nodes| == 1 && NonEmpty(nodes)
    ensures Grow(rule, level, nodes) == nodes[0] && nodes == [nodes[0]]
  {
  }

  lemma BuildGood(rule: SplitRule, xs: seq<Entry>)
    requires Shrinking(rule) && GoodRow(0, xs)
    ensures Good(Build(rule, xs))
  {
    if xs == [] {
      GoodRowEmpty(0);
    } else {
      var top := FindTop(rule, xs, 0);
      BuildShape(rule, xs, top);
      LevelGood(rule, xs, top);
      if top > 0 {
        TopMeans(rule, xs, top);
        LevelUnfolds(rule, xs, top);
      }
    }
  }

  lemma {:induction false} BuildRows(rule: SplitRule, xs: seq<Entry>, top: nat, level: nat)
    requires Shrinking(rule) && GoodRow(0, xs) && xs != [] && Top(rule, xs, top) && level <= top
    ensures Good(Build(rule, xs)) && Build(rule, xs).level == top
    ensures Row(Build(rule, xs), level) == LevelEntries(rule, xs, level)
    decreases top - level
  {
    hide *;
    BuildGood(rule, xs);
    BuildShape(rule, xs, top);
    if level == top {
      RowAtRoot(Build(rule, xs));
    } else {
      BuildRows(rule, xs, top, level + 1);
      LevelGood(rule, xs, level);
      DrawnRow(rule, level, LevelEntries(rule, xs, level));
      LevelUnfolds(rule, xs, level + 1);
      LevelUnfolds(rule, xs, level);
      RowBelow(Build(rule, xs), level);
    }
  }

  lemma RowAtRoot(root: Node)
    requires Good(root)
    ensures Row(root, root.level) == root.entries
  {
  }

  lemma RowBelow(root: Node, level: nat)
    requires Good(root) && level < root.level
    ensures AllInner(Row(root, level + 1)) && Row(root, level) == Expand(Row(root, level + 1))
  {
    GoodInner(level, Row(root, level + 1));
  }
}
