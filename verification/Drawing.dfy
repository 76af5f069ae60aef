/** How a level is cut into nodes and how levels stack into the canonical tree: the bulk build that
    every incremental edit is measured against. */
module Drawing {
  import opened Keys
  import opened Nodes
  import opened Basics

  /** A split rule: whether a node ends after the entry with key `key` that made it `n` entries and
      took it from `before` to `after` bytes at `level`. */
  datatype SplitRule = SplitRule(ends: (nat, nat, nat, nat, Key) -> bool)

  // No node above the leaves ends at one entry, so every level shrinks.
  ghost predicate Shrinking(rule: SplitRule) {
    forall level: nat, n: nat, before: nat, after: nat, key: Key ::
      level >= 1 && n < 2 ==> !rule.ends(level, n, before, after, key)
  }

  // Whether the node holding p ends after p's last entry.
  predicate Closes(rule: SplitRule, level: nat, p: seq<Entry>)
    requires p != []
  {
    rule.ends(level, |p|, SizeOf(p[..|p| - 1]), SizeOf(p), p[|p| - 1].key)
  }

  /** Nodes drawn so far, and the entries of the node still open. */
  datatype Drawn = Drawn(done: seq<seq<Entry>>, pending: seq<Entry>)

  function Step(rule: SplitRule, level: nat, d: Drawn, e: Entry): Drawn {
    var p := d.pending + [e];
    if Closes(rule, level, p) then Drawn(d.done + [p], []) else Drawn(d.done, p)
  }

  function Feed(rule: SplitRule, level: nat, d: Drawn, xs: seq<Entry>): Drawn {
    if xs == [] then d
    else Step(rule, level, Feed(rule, level, d, xs[..|xs| - 1]), xs[|xs| - 1])
  }

  function Finish(d: Drawn): seq<seq<Entry>> {
    if d.pending == [] then d.done else d.done + [d.pending]
  }

  const START := Drawn([], [])

  // Every node of a level, drawn from nothing.
  function Draw(rule: SplitRule, level: nat, xs: seq<Entry>): seq<seq<Entry>> {
    Finish(Feed(rule, level, START, xs))
  }

  lemma {:induction false} FeedAppend(rule: SplitRule, level: nat, d: Drawn, xs: seq<Entry>, ys: seq<Entry>)
    ensures Feed(rule, level, d, xs + ys) == Feed(rule, level, Feed(rule, level, d, xs), ys)
  {
    if ys == [] {
      assert xs + ys == xs;
    } else {
      assert (xs + ys)[..|xs + ys| - 1] == xs + ys[..|ys| - 1];
      FeedAppend(rule, level, d, xs, ys[..|ys| - 1]);
    }
  }

  // What was drawn before does not affect what is drawn next.
  lemma {:induction false} FeedFrame(rule: SplitRule, level: nat, d: Drawn, xs: seq<Entry>)
    ensures var r := Feed(rule, level, Drawn([], d.pending), xs);
            Feed(rule, level, d, xs) == Drawn(d.done + r.done, r.pending)
  {
    if xs != [] {
      FeedFrame(rule, level, d, xs[..|xs| - 1]);
      var r := Feed(rule, level, Drawn([], d.pending), xs[..|xs| - 1]);
      var p := r.pending + [xs[|xs| - 1]];
      assert (d.done + r.done) + [p] == d.done + (r.done + [p]);
    }
  }

  lemma {:induction false} ConcatAppend(a: seq<seq<Entry>>, b: seq<seq<Entry>>)
    ensures Concat(a + b) == Concat(a) + Concat(b)
  {
    if b == [] {
      assert a + b == a;
    } else {
      assert (a + b)[..|a + b| - 1] == a + b[..|b| - 1];
      ConcatAppend(a, b[..|b| - 1]);
    }
  }

  ghost predicate NoneEmpty(runs: seq<seq<Entry>>) {
    forall i :: 0 <= i < |runs| ==> runs[i] != []
  }

  // The entries a drawing holds, in order.
  function Held(d: Drawn): seq<Entry> {
    Concat(d.done) + d.pending
  }

  lemma StepConserves(rule: SplitRule, level: nat, d: Drawn, e: Entry)
    ensures Held(Step(rule, level, d, e)) == Held(d) + [e]
    ensures NoneEmpty(d.done) ==> NoneEmpty(Step(rule, level, d, e).done)
  {
    var p := d.pending + [e];
    AppendAssoc(Concat(d.done), d.pending, [e]);
    assert (d.done + [p])[..|d.done|] == d.done;
    assert Concat(d.done + [p]) == Concat(d.done) + p;
    assert (Concat(d.done) + p) + [] == Concat(d.done) + p;
  }

  // Drawing loses, adds and reorders nothing, and draws no empty node.
  lemma {:induction false} FeedConserves(rule: SplitRule, level: nat, d: Drawn, xs: seq<Entry>)
    ensures Held(Feed(rule, level, d, xs)) == Held(d) + xs
    ensures NoneEmpty(d.done) ==> NoneEmpty(Feed(rule, level, d, xs).done)
  {
    if xs == [] {
      assert Held(d) + xs == Held(d);
    } else {
      var ys, e := xs[..|xs| - 1], xs[|xs| - 1];
      FeedConserves(rule, level, d, ys);
      StepConserves(rule, level, Feed(rule, level, d, ys), e);
      AppendAssoc(Held(d), ys, [e]);
      assert ys + [e] == xs;
    }
  }

  lemma DrawConserves(rule: SplitRule, level: nat, xs: seq<Entry>)
    ensures Concat(Draw(rule, level, xs)) == xs
    ensures NoneEmpty(Draw(rule, level, xs))
    ensures Draw(rule, level, xs) == [] <==> xs == []
  {
    FeedConserves(rule, level, START, xs);
    var r := Feed(rule, level, START, xs);
    assert Held(START) + xs == xs;
    assert (r.done + [r.pending])[..|r.done|] == r.done;
    assert r.pending == [] ==> Held(r) == Concat(r.done);
  }

  // Fed from nothing, p is exactly one node that the rule ends.
  ghost predicate Closed(rule: SplitRule, level: nat, p: seq<Entry>) {
    p != [] && Feed(rule, level, START, p) == Drawn([p], [])
  }

  ghost predicate AllClosed(rule: SplitRule, level: nat, nodes: seq<seq<Entry>>) {
    forall i :: 0 <= i < |nodes| ==> Closed(rule, level, nodes[i])
  }

  // A node being filled closes or stays open by its own entries alone.
  lemma PendingIsLocal(rule: SplitRule, level: nat, pending: seq<Entry>, e: Entry)
    requires Feed(rule, level, START, pending) == Drawn([], pending)
    ensures var p := pending + [e];
            Feed(rule, level, START, p) == if Closes(rule, level, p) then Drawn([p], []) else Drawn([], p)
  {
    var p := pending + [e];
    assert p[..|p| - 1] == pending;
    assert [] + [p] == [p];
  }

  lemma {:induction false} FeedIsLocal(rule: SplitRule, level: nat, xs: seq<Entry>)
    ensures AllClosed(rule, level, Feed(rule, level, START, xs).done)
    ensures var p := Feed(rule, level, START, xs).pending; Feed(rule, level, START, p) == Drawn([], p)
  {
    if xs != [] {
      var ys, e := xs[..|xs| - 1], xs[|xs| - 1];
      FeedIsLocal(rule, level, ys);
      var r := Feed(rule, level, START, ys);
      PendingIsLocal(rule, level, r.pending, e);
      var r' := Step(rule, level, r, e);
      assert Feed(rule, level, START, xs) == r';
      forall i | 0 <= i < |r'.done|
        ensures Closed(rule, level, r'.done[i])
      {
        if i < |r.done| {
          assert Closed(rule, level, r.done[i]);
        }
      }
    }
  }

  // All nodes of a drawn level but its last are ended by the rule; the last is drawn whole.
  lemma DrawIsLocal(rule: SplitRule, level: nat, xs: seq<Entry>)
    requires xs != []
    ensures var ns := Draw(rule, level, xs);
            ns != [] && AllClosed(rule, level, ns[..|ns| - 1]) && Draw(rule, level, ns[|ns| - 1]) == [ns[|ns| - 1]]
  {
    DrawConserves(rule, level, xs);
    FeedIsLocal(rule, level, xs);
    var r := Feed(rule, level, START, xs);
    var ns := Draw(rule, level, xs);
    if r.pending != [] {
      assert ns[..|ns| - 1] == r.done;
      assert [] + [r.pending] == [r.pending];
    } else {
      assert Closed(rule, level, ns[|ns| - 1]);
    }
  }

  lemma FeedClosedOne(rule: SplitRule, level: nat, built: seq<seq<Entry>>, p: seq<Entry>)
    requires Closed(rule, level, p)
    ensures Feed(rule, level, Drawn(built, []), p) == Drawn(built + [p], [])
  {
    FeedFrame(rule, level, Drawn(built, []), p);
  }

  // Feeding the entries of closed nodes at a boundary draws those nodes again.
  lemma {:induction false} FeedClosed(rule: SplitRule, level: nat, built: seq<seq<Entry>>, nodes: seq<seq<Entry>>)
    requires AllClosed(rule, level, nodes)
    ensures Feed(rule, level, Drawn(built, []), Concat(nodes)) == Drawn(built + nodes, [])
  {
    if nodes == [] {
      assert built + nodes == built;
    } else {
      var init, last := nodes[..|nodes| - 1], nodes[|nodes| - 1];
      FeedClosed(rule, level, built, init);
      FeedAppend(rule, level, Drawn(built, []), Concat(init), last);
      FeedClosedOne(rule, level, built + init, last);
      AppendAssoc(built, init, [last]);
      assert init + [last] == nodes;
    }
  }

  /******** Levels and the canonical tree ********/

  ghost predicate NonEmpty(nodes: seq<Node>) {
    forall i :: 0 <= i < |nodes| ==> nodes[i].entries != []
  }

  ghost function Names(nodes: seq<Node>): (es: seq<Entry>)
    requires NonEmpty(nodes)
    ensures |es| == |nodes|
  {
    seq(|nodes|, i requires 0 <= i < |nodes| => NameOf(nodes[i]))
  }

  ghost function NodesOf(level: nat, runs: seq<seq<Entry>>): (ns: seq<Node>)
    ensures |ns| == |runs|
    ensures NoneEmpty(runs) ==> NonEmpty(ns)
  {
    seq(|runs|, i requires 0 <= i < |runs| => Node(level, runs[i]))
  }

  ghost function DrawNodes(rule: SplitRule, level: nat, xs: seq<Entry>): (ns: seq<Node>)
    ensures NonEmpty(ns) && (ns == [] <==> xs == [])
  {
    DrawConserves(rule, level, xs);
    NodesOf(level, Draw(rule, level, xs))
  }

  // The entries fed to `level` of the tree over the leaf entries xs, and the nodes drawn from them.
  ghost function LevelEntries(rule: SplitRule, xs: seq<Entry>, level: nat): seq<Entry>
    decreases level, 0
  {
    if level == 0 then xs else Names(Level(rule, xs, level - 1))
  }

  ghost function Level(rule: SplitRule, xs: seq<Entry>, level: nat): (ns: seq<Node>)
    ensures NonEmpty(ns)
    decreases level, 1
  {
    DrawNodes(rule, level, LevelEntries(rule, xs, level))
  }

  lemma LevelUnfolds(rule: SplitRule, xs: seq<Entry>, level: nat)
    ensures Level(rule, xs, level) == DrawNodes(rule, level, LevelEntries(rule, xs, level))
    ensures level == 0 ==> LevelEntries(rule, xs, level) == xs
    ensures level > 0 ==> LevelEntries(rule, xs, level) == Names(Level(rule, xs, level - 1))
  {
    hide DrawNodes, Names;
  }

  lemma {:induction false} FeedShrinks(rule: SplitRule, level: nat, xs: seq<Entry>)
    requires Shrinking(rule)
    ensures var r := Feed(rule, level, START, xs);
            (if level >= 1 then 2 else 1) * |r.done| + |r.pending| <= |xs|
  {
    if xs != [] {
      FeedShrinks(rule, level, xs[..|xs| - 1]);
    }
  }

  // Above the leaves n entries draw at most ceil(n/2) nodes, so growth ends.
  lemma DrawShrinks(rule: SplitRule, level: nat, xs: seq<Entry>)
    requires Shrinking(rule)
    ensures |Draw(rule, level, xs)| <= |xs|
    ensures level >= 1 ==> 2 * |Draw(rule, level, xs)| <= |xs| + 1
  {
    FeedShrinks(rule, level, xs);
  }

  ghost function Grow(rule: SplitRule, level: nat, nodes: seq<Node>): Node
    requires Shrinking(rule)
    requires nodes != [] && NonEmpty(nodes)
    decreases |nodes|
  {
    if |nodes| == 1 then nodes[0]
    else
      DrawShrinks(rule, level + 1, Names(nodes));
      Grow(rule, level + 1, DrawNodes(rule, level + 1, Names(nodes)))
  }

  /** The canonical tree over the leaf entries xs: each level drawn from the whole level below, up to
      the first level of one node. */
  ghost function Build(rule: SplitRule, xs: seq<Entry>): Node
    requires Shrinking(rule)
  {
    if xs == [] then Node(0, []) else Grow(rule, 0, Level(rule, xs, 0))
  }

  lemma {:induction false} LevelsShrink(rule: SplitRule, xs: seq<Entry>, low: nat, high: nat)
    requires Shrinking(rule) && low <= high
    ensures |Level(rule, xs, high)| <= |Level(rule, xs, low)|
    ensures xs != [] ==> Level(rule, xs, high) != []
  {
    if high > low {
      LevelsShrink(rule, xs, low, high - 1);
      DrawShrinks(rule, high, LevelEntries(rule, xs, high));
    } else if high > 0 {
      LevelsShrink(rule, xs, 0, high - 1);
    }
  }

  lemma LevelAbove(rule: SplitRule, xs: seq<Entry>, level: nat)
    requires Shrinking(rule) && |Level(rule, xs, level)| >= 2
    ensures Level(rule, xs, level + 1) != []
    ensures Grow(rule, level, Level(rule, xs, level)) == Grow(rule, level + 1, Level(rule, xs, level + 1))
  {
  }

  lemma BuildBase(rule: SplitRule, xs: seq<Entry>)
    requires Shrinking(rule) && xs != []
    ensures Level(rule, xs, 0) != []
    ensures Build(rule, xs) == Grow(rule, 0, Level(rule, xs, 0))
  {
  }

  lemma {:induction false} BuildFromLevel(rule: SplitRule, xs: seq<Entry>, level: nat)
    requires Shrinking(rule) && xs != []
    requires level > 0 ==> |Level(rule, xs, level - 1)| >= 2
    ensures Level(rule, xs, level) != []
    ensures Build(rule, xs) == Grow(rule, level, Level(rule, xs, level))
  {
    hide *;
    if level == 0 {
      BuildBase(rule, xs);
    } else {
      if level > 1 {
        LevelsShrink(rule, xs, level - 2, level - 1);
      }
      BuildFromLevel(rule, xs, level - 1);
      LevelAbove(rule, xs, level - 1);
    }
  }

  // A root with one child gives way to that child, all the way down.
  function Collapse(n: Node): Node
    decreases n.level
  {
    if n.level > 0 && |n.entries| == 1 && n.entries[0].Inner? && n.entries[0].child.level == n.level - 1
    then Collapse(n.entries[0].child) else n
  }

  // A level of one node holds the whole level.
  lemma SoleNode(rule: SplitRule, level: nat, xs: seq<Entry>)
    requires |DrawNodes(rule, level, xs)| == 1
    ensures DrawNodes(rule, level, xs)[0] == Node(level, xs)
  {
    DrawConserves(rule, level, xs);
    var p := Draw(rule, level, xs)[0];
    assert Draw(rule, level, xs) == [p];
    assert Concat([p]) == p;
  }

  lemma CollapseOne(level: nat, lower: seq<Node>)
    requires level > 0 && |lower| == 1 && NonEmpty(lower) && lower[0].level == level - 1
    ensures Collapse(Node(level, Names(lower))) == Collapse(lower[0])
  {
    assert Names(lower)[0] == NameOf(lower[0]);
  }

  lemma CollapseStep(rule: SplitRule, xs: seq<Entry>, level: nat)
    requires |Level(rule, xs, level)| == 1 && level > 0 && |LevelEntries(rule, xs, level)| == 1
    ensures |Level(rule, xs, level - 1)| == 1
    ensures Collapse(Level(rule, xs, level)[0]) == Collapse(Level(rule, xs, level - 1)[0])
  {
    hide *;
    var es, lower := LevelEntries(rule, xs, level), Level(rule, xs, level - 1);
    LevelUnfolds(rule, xs, level);
    LevelUnfolds(rule, xs, level - 1);
    SoleNode(rule, level, es);
    SoleNode(rule, level - 1, LevelEntries(rule, xs, level - 1));
    CollapseOne(level, lower);
  }

  lemma CollapseStop(rule: SplitRule, xs: seq<Entry>, level: nat)
    requires |Level(rule, xs, level)| == 1 && (level == 0 || |LevelEntries(rule, xs, level)| != 1)
    ensures Collapse(Level(rule, xs, level)[0]) == Level(rule, xs, level)[0]
  {
    SoleNode(rule, level, LevelEntries(rule, xs, level));
  }

  lemma {:induction false} CollapseIsBuild(rule: SplitRule, xs: seq<Entry>, level: nat)
    requires Shrinking(rule) && xs != []
    requires |Level(rule, xs, level)| == 1
    ensures Collapse(Level(rule, xs, level)[0]) == Build(rule, xs)
  {
    if level > 0 && |LevelEntries(rule, xs, level)| == 1 {
      CollapseStep(rule, xs, level);
      CollapseIsBuild(rule, xs, level - 1);
    } else {
      if level > 0 {
        LevelsShrink(rule, xs, 0, level - 1);
      }
      BuildFromLevel(rule, xs, level);
      CollapseStop(rule, xs, level);
    }
  }
}
