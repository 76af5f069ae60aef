/** The incremental flush equals the bulk build. Each level's edits become the next level's, and at every level the
    names edited are the names the build of the edited entries would draw. */
module Flush {
  import opened Keys
  import opened Basics
  import opened Nodes
  import opened Trees
  import opened Drawing
  import opened Edits
  import opened Boundary
  import opened Chunkers
  import opened Cursors
  import opened Levels
  import opened Canonical

  ghost predicate AtNode(c: Cursor, names: seq<Entry>, b: nat)
    requires AllInner(names)
    reads c, c.chain, c.parent
  {
    && c.Valid() && !c.end && c.i == 0 && c.parent != null
    && b < |names| && c.parent.rest == names[b..] && c.n == names[b].child
  }

  lemma AtNodeMeans(c: Cursor, names: seq<Entry>, b: nat)
    requires AllInner(names) && GoodRow(c.level + 1, names) && AtNode(c, names, b)
    ensures c.Valid() && !c.end && c.i == 0 && c.parent != null && b < |names| && c.parent.rest == names[b..]
    ensures names[b].Inner? && names[b] == NameOf(c.n) && c.n == names[b].child
    ensures c.n.entries != [] && c.n.LastKey() == names[b].key && c.n.level == c.level
    ensures AllFit(c.level, c.n.entries)
    ensures c.Placed() && AllInner(c.After()) && c.After() == names[b + 1..]
    ensures c in c.chain && c.parent in c.chain
  {
    assert Fits(c.level + 1, names[b]);
    c.ChainMeans();
    DropOne(names, b);
  }

  lemma AtNodeIntro(c: Cursor, names: seq<Entry>, b: nat)
    requires AllInner(names) && b < |names|
    requires c.Valid() && !c.end && c.i == 0 && c.parent != null && c.parent.rest == names[b..]
    ensures AtNode(c, names, b)
  {
  }

  // The edits taken up to a node's last key, or all of them at the level's last node.
  lemma LimitCuts(names: seq<Entry>, eds: seq<Edit>, b: nat, k: nat, limit: Option<Key>)
    requires b < |names| && k <= |eds| && SortedEdits(eds)
    requires limit == if b + 1 < |names| then Some(names[b].key) else None
    ensures var w := Within(eds[k..], limit);
            && k + w <= |eds| && eds[k..][..w] == eds[k..k + w] && eds[k..][w..] == eds[k + w..]
            && EditsAbove(Bound(names, b + 1), eds[k + w..])
            && (b + 1 < |names| ==> EditsUpTo(Bound(names, b + 1), eds[k..k + w]))
            && (b + 1 == |names| ==> k + w == |eds|)
  {
    hide *;
    var left := eds[k..];
    var w := Within(left, limit);
    WithinMeans(left, limit);
    assert left[..w] == eds[k..k + w] && left[w..] == eds[k + w..];
    if b + 1 < |names| {
      BoundIs(names, b);
      UpToIs(Rank(names[b].key), eds[k..k + w]);
      if k + w < |eds| {
        AboveFirst(eds, k + w, Rank(names[b].key));
      } else {
        AboveNone(Rank(names[b].key), eds[k + w..]);
      }
    } else {
      AboveNone(Bound(names, b + 1), eds[k + w..]);
    }
  }

  lemma BoundIs(names: seq<Entry>, b: nat)
    requires b < |names|
    ensures Bound(names, b + 1) == Rank(names[b].key)
  {
  }

  lemma UpToIs(r: real, eds: seq<Edit>)
    requires forall i :: 0 <= i < |eds| ==> Rank(eds[i].At()) <= r
    ensures EditsUpTo(r, eds)
  {
  }

  lemma AboveNone(r: real, eds: seq<Edit>)
    requires eds == []
    ensures EditsAbove(r, eds)
  {
  }

  lemma AboveFirst(eds: seq<Edit>, k: nat, r: real)
    requires SortedEdits(eds) && k < |eds| && r < Rank(eds[k].At())
    ensures EditsAbove(r, eds[k..])
  {
    forall i | 0 <= i < |eds[k..]| ensures r < Rank(eds[k..][i].At()) {
      assert eds[k..][i] == eds[k + i];
      assert i > 0 ==> Rank(eds[k].At()) < Rank(eds[k + i].At());
    }
  }

  // The node an edit was sought to takes it.
  lemma FirstTaken(names: seq<Entry>, eds: seq<Edit>, s: nat, k: nat, limit: Option<Key>)
    requires k < |eds| && SeeksTo(names, eds[k].At(), s)
    requires limit == if s + 1 < |names| then Some(names[s].key) else None
    ensures Within(eds[k..], limit) >= 1
  {
    assert eds[k..][0] == eds[k];
  }

  lemma UpToExtend(names: seq<Entry>, eds: seq<Edit>, k: nat, k1: nat, w: nat, b: nat)
    requires Sorted(names) && b < |names| && k <= k1 && k1 + w <= |eds|
    requires EditsUpTo(Bound(names, b), eds[k..k1]) && EditsUpTo(Bound(names, b + 1), eds[k1..k1 + w])
    ensures EditsUpTo(Bound(names, b + 1), eds[k..k1 + w])
  {
    BoundsRise(names, b, b + 1);
    assert eds[k..k1 + w] == eds[k..k1] + eds[k1..k1 + w];
  }

  lemma FitsDrop(level: nat, eds: seq<Edit>, k: nat)
    requires EditsFit(level, eds) && k <= |eds|
    ensures EditsFit(level, eds[k..])
  {
  }

  ghost function LevelLog(level: nat, log: seq<Key>): seq<Key> {
    if level == 0 then log else []
  }

  lemma LogOn(level: nat, log: seq<Key>, a: seq<Key>, b: seq<Key>)
    ensures log + LevelLog(level, a) + (if level == 0 then b else []) == log + LevelLog(level, a + b)
    ensures log + LevelLog(level, []) == log
  {
  }

  /** A stretch so far: old nodes s to b removed, edits k to k1 used, and what its chunker has drawn
      and logged. */
  ghost predicate InStretch(rule: SplitRule, level: nat, names: seq<Entry>, eds: seq<Edit>, s: nat, b: nat, k: nat,
                            k1: nat,
                            left: seq<Edit>, removed: seq<Entry>, st: Drawn, log: seq<Key>, changed: seq<Key>)
    requires AllInner(names)
  {
    && s <= b <= |names| && k <= k1 <= |eds| && (b == s <==> k1 == k)
    && left == eds[k1..] && removed == names[s..b]
    && EditsAbove(Bound(names, b), eds[k1..])
    && (if b < |names| then EditsUpTo(Bound(names, b), eds[k..k1]) else k1 == |eds|)
    && st == StretchTo(rule, level, names, eds, s, b, k, k1)
    && changed == log + LevelLog(level, StretchLog(names, eds, s, b, k, k1))
  }

  lemma StretchBegins(rule: SplitRule, level: nat, names: seq<Entry>, eds: seq<Edit>, s: nat, k: nat, log: seq<Key>)
    requires AllInner(names) && s < |names| && k <= |eds| && EditsAbove(Bound(names, s), eds[k..])
    ensures InStretch(rule, level, names, eds, s, s, k, k, eds[k..], [], START, log, log)
  {
    StretchStart(rule, level, names, eds, s, k);
    LogOn(level, log, [], []);
    assert names[s..s] == [];
  }

  // Taking one more old node, with the edits that fall in it, carries the stretch on.
  lemma NodeTaken(rule: SplitRule, level: nat, names: seq<Entry>, eds: seq<Edit>, s: nat, b: nat, k: nat, k1: nat,
                  left: seq<Edit>, removed: seq<Entry>, st: Drawn, log: seq<Key>, changed: seq<Key>, limit: Option<Key>)
    requires AllInner(names) && GoodRow(level + 1, names) && Sorted(names) && SortedEdits(eds) && EditsFit(level, eds)
    requires InStretch(rule, level, names, eds, s, b, k, k1, left, removed, st, log, changed)
    requires b < |names| && k < |eds| && SeeksTo(names, eds[k].At(), s)
    requires limit == if b + 1 < |names| then Some(names[b].key) else None
    ensures EditsFit(level, left) && names[b].Inner?
    ensures var w := Within(left, limit);
            InStretch(rule, level, names, eds, s, b + 1, k, k1 + w, left[w..], removed + [names[b]],
                      Feed(rule, level, st, Merged(names[b].child.entries, left[..w])), log,
                      changed + (if level == 0 then Logged(names[b].child.entries, left[..w]) else []))
  {
    hide *;
    StretchHas(rule, level, names, eds, s, b, k, k1, left, removed, st, log, changed);
    var w := Within(left, limit);
    InnerAt(names, b);
    LimitCuts(names, eds, b, k1, limit);
    FitsDrop(level, eds, k1);
    if b == s { FirstTaken(names, eds, s, k, limit); }
    StretchOn(rule, level, names, eds, s, b, k, k1, w);
    LogOn(level, log, StretchLog(names, eds, s, b, k, k1), Logged(names[b].child.entries, eds[k1..k1 + w]));
    if b + 1 < |names| { UpToExtend(names, eds, k, k1, w, b); }
    assert names[s..b + 1] == names[s..b] + [names[b]];
    StretchIs(rule, level, names, eds, s, b + 1, k, k1 + w, log);
  }

  lemma StretchHas(rule: SplitRule, level: nat, names: seq<Entry>, eds: seq<Edit>, s: nat, b: nat, k: nat, k1: nat,
                   left: seq<Edit>, removed: seq<Entry>, st: Drawn, log: seq<Key>, changed: seq<Key>)
    requires AllInner(names) && InStretch(rule, level, names, eds, s, b, k, k1, left, removed, st, log, changed)
    ensures s <= b <= |names| && k <= k1 <= |eds| && (b == s <==> k1 == k)
    ensures left == eds[k1..] && removed == names[s..b]
    ensures EditsAbove(Bound(names, b), eds[k1..])
    ensures if b < |names| then EditsUpTo(Bound(names, b), eds[k..k1]) else k1 == |eds|
    ensures st == StretchTo(rule, level, names, eds, s, b, k, k1)
    ensures changed == log + LevelLog(level, StretchLog(names, eds, s, b, k, k1))
  {
  }

  lemma StretchIs(rule: SplitRule, level: nat, names: seq<Entry>, eds: seq<Edit>, s: nat, b: nat, k: nat, k1: nat,
                  log: seq<Key>)
    requires AllInner(names) && s < b <= |names| && k < k1 <= |eds|
    requires EditsAbove(Bound(names, b), eds[k1..])
    requires if b < |names| then EditsUpTo(Bound(names, b), eds[k..k1]) else k1 == |eds|
    ensures InStretch(rule, level, names, eds, s, b, k, k1, eds[k1..], names[s..b],
                      StretchTo(rule, level, names, eds, s, b, k, k1), log,
                      log + LevelLog(level, StretchLog(names, eds, s, b, k, k1)))
  {
  }

  /** One stretch: re-chunks old nodes from the one holding the first edit left until a new node ends
      where an old one did, and returns the edits it makes a level up. */
  method Stretch(r: Rule, c: Cursor, level: nat, left: seq<Edit>, log: seq<Key>,
                 ghost names: seq<Entry>, ghost eds: seq<Edit>, ghost s: nat, ghost k: nat)
    returns (left': seq<Edit>, up: seq<Edit>, log': seq<Key>, ghost b: nat, ghost k1: nat, ghost done: seq<seq<Entry>>)
    requires r.Valid() && c.level == level
    requires AllInner(names) && GoodRow(level + 1, names) && Sorted(names) && SortedEdits(eds) && EditsFit(level, eds)
    requires AtNode(c, names, s) && k < |eds| && left == eds[k..] && SeeksTo(names, eds[k].At(), s)
    requires EditsAbove(Bound(names, s), eds[k..])
    modifies c.chain
    ensures s < b <= |names| && k < k1 <= |eds| && left' == eds[k1..]
    ensures EditsAbove(Bound(names, b), eds[k1..])
    ensures if b < |names| then EditsUpTo(Bound(names, b), eds[k..k1]) else k1 == |eds|
    ensures Ended(AsSplitRule(r), level, StretchTo(AsSplitRule(r), level, names, eds, s, b, k, k1), done, b == |names|)
    ensures NoneEmpty(done) && up == Replaced(names[s..b], Names(NodesOf(level, done)))
    ensures log' == log + LevelLog(level, StretchLog(names, eds, s, b, k, k1))
  {
    hide *;
    AtNodeMeans(c, names, s);
    ghost var rule := AsSplitRule(r);
    var ch := new Chunker(r, level, false, log);
    StretchBegins(rule, level, names, eds, s, k, log);
    left' := left;
    b, k1 := s, k;
    var removed: seq<Entry> := [];
    var going := true;
    while going
      invariant ch.Valid() && fresh(ch) && fresh(ch.split) && ch.r == r && ch.level == level && !ch.hold
      invariant InStretch(rule, level, names, eds, s, b, k, k1, left', removed, ch.State(), log, ch.changed)
      invariant s <= b <= |names|
      invariant going ==> b < |names| && AtNode(c, names, b)
      invariant !going ==> b > s && (ch.pending == [] || b == |names|)
      decreases |names| - b, going
    {
      AtNodeMeans(c, names, b);
      ghost var was := removed;
      removed := removed + [NameOf(c.n)];
      var last := c.LastNode();
      var limit := if last then None else Some(c.n.LastKey());
      NodeTaken(rule, level, names, eds, s, b, k, k1, left', was, ch.State(), log, ch.changed, limit);
      ghost var w := Within(left', limit);
      left' := Merge(ch, c.n.entries, left', limit);
      b, k1 := b + 1, k1 + w;
      if ch.pending == [] || last {
        going := false;
      } else {
        AtNodeMeans(c, names, b - 1);
        c.NextNode();
        c.NextMeans();
        AtNodeIntro(c, names, b);
      }
    }
    StretchHas(rule, level, names, eds, s, b, k, k1, left', removed, ch.State(), log, ch.changed);
    InnerSlice(names, s, b);
    up, done := CloseStretch(ch, removed, b == |names|);
    log' := ch.changed;
  }

  // Ends the level's last node, if it is still open, and turns the nodes drawn into edits a level up.
  method CloseStretch(ch: Chunker, removed: seq<Entry>, ghost last: bool)
    returns (up: seq<Edit>, ghost done: seq<seq<Entry>>)
    requires ch.Valid() && !ch.hold && (ch.pending == [] || last)
    requires forall i :: 0 <= i < |removed| ==> removed[i].Inner?
    modifies ch
    ensures ch.changed == old(ch.changed)
    ensures Ended(AsSplitRule(ch.r), ch.level, old(ch.State()), done, last)
    ensures NoneEmpty(done) && up == Replaced(removed, Names(NodesOf(ch.level, done)))
  {
    hide *;
    ghost var st := ch.State();
    ChunkerKept(ch);
    if ch.pending != [] {
      ch.End();
      StateMeans(ch);
    }
    done := ch.done;
    EndedIs(AsSplitRule(ch.r), ch.level, st, done, last);
    KeptMeans(ch);
    InnerNames(ch.level, done);
    up := Replace(removed, ch.out);
  }

  lemma ChunkerKept(ch: Chunker)
    requires ch.Valid()
    ensures ch.Kept() && ch.State() == Drawn(ch.done, ch.pending)
  {
  }

  lemma StateMeans(ch: Chunker)
    ensures ch.State() == Drawn(ch.done, ch.pending)
  {
  }

  lemma KeptMeans(ch: Chunker)
    requires ch.Kept() && !ch.hold
    ensures NoneEmpty(ch.done) && ch.out == Names(NodesOf(ch.level, ch.done))
  {
  }

  lemma EndedIs(rule: SplitRule, level: nat, st: Drawn, done: seq<seq<Entry>>, last: bool)
    requires if st.pending == [] then done == st.done else last && done == Finish(st)
    ensures Ended(rule, level, st, done, last)
  {
  }

  lemma InnerSlice(names: seq<Entry>, s: nat, b: nat)
    requires AllInner(names) && s <= b <= |names|
    ensures forall i :: 0 <= i < |names[s..b]| ==> names[s..b][i].Inner?
  {
  }

  lemma InnerNames(level: nat, done: seq<seq<Entry>>)
    requires NoneEmpty(done)
    ensures forall i :: 0 <= i < |Names(NodesOf(level, done))| ==> Names(NodesOf(level, done))[i].Inner?
  {
  }

  /******** One level ********/

  // The nodes of a level are the ones the rule draws from its entries.
  ghost predicate RowDrew(rule: SplitRule, root: Node, level: nat)
    requires Good(root) && level < root.level
  {
    RowBelow(root, level);
    Drew(rule, level, Row(root, level + 1))
  }

  lemma NamesRow(rule: SplitRule, root: Node, level: nat)
    requires Good(root) && level < root.level
    ensures var names := Row(root, level + 1);
            && AllInner(names) && GoodRow(level + 1, names) && Sorted(names) && names != []
            && Row(root, level) == Expand(names) && (RowDrew(rule, root, level) ==> Drew(rule, level, names))
    decreases root.level - level
  {
    RowBelow(root, level);
    GoodInner(level, Row(root, level + 1));
    if level + 1 < root.level {
      NamesRow(rule, root, level + 1);
      ExpandEmpty(level + 2, Row(root, level + 2));
    }
  }

  // The next edit is sought at or past everything settled.
  lemma SeekPast(rule: SplitRule, level: nat, names: seq<Entry>, eds: seq<Edit>, a: nat, k: nat,
                 runs: seq<seq<Entry>>, up: seq<Edit>, log: seq<Key>, s: nat)
    requires AllInner(names) && Sorted(names) && SortedEdits(eds)
    requires Settled(rule, level, names, eds, a, k, runs, up, log)
    requires k < |eds| && SeeksTo(names, eds[k].At(), s)
    ensures a <= s < |names| && EditsAbove(Bound(names, s), eds[k..])
  {
    hide *;
    SettledMeans(rule, level, names, eds, a, k, runs, up, log);
    SeekBound(names, eds, a, k, s);
  }

  lemma SeekBound(names: seq<Entry>, eds: seq<Edit>, a: nat, k: nat, s: nat)
    requires Sorted(names) && SortedEdits(eds) && a <= |names| && k < |eds|
    requires EditsAbove(Bound(names, a), eds[k..]) && (a == |names| ==> k == |eds|)
    requires SeeksTo(names, eds[k].At(), s)
    ensures a <= s < |names| && EditsAbove(Bound(names, s), eds[k..])
  {
    assert eds[k..][0] == eds[k];
    var t := if s < a then s + 1 else a;
    BoundsRise(names, t, a);
    if s == 0 {
      AboveFirst(eds, k, -1.0);
    } else {
      AboveFirst(eds, k, Rank(names[s - 1].key));
    }
  }

  lemma GoodStretch(level: nat, names: seq<Entry>, s: nat, b: nat)
    requires GoodRow(level + 1, names) && s <= b <= |names|
    ensures AllInner(names[s..b]) && GoodRow(level, Expand(names[s..b]))
  {
    GoodRowSlice(level + 1, names, s, b);
    GoodInner(level, names[s..b]);
    ExpandGood(level + 1, names[s..b]);
  }

  /** One level: the edits returned, applied to the names of the old nodes, give the names of the nodes a bulk
      build of the edited row draws. */
  method ApplyLevel(r: Rule, root: Node, level: nat, edits: seq<Edit>, log: seq<Key>)
    returns (up: seq<Edit>, changed: seq<Key>)
    requires r.Valid() && Good(root) && level < root.level && RowDrew(AsSplitRule(r), root, level)
    requires SortedEdits(edits) && EditsFit(level, edits)
    ensures SortedEdits(up) && EditsFit(level + 1, up)
    ensures Names(DrawNodes(AsSplitRule(r), level, Merged(Row(root, level), edits))) == Merged(Row(root, level + 1), up)
    ensures changed == log + (if level == 0 then Logged(Row(root, 0), edits) else [])
  {
    hide *;
    ghost var rule := AsSplitRule(r);
    NamesRow(rule, root, level);
    ghost var names := Row(root, level + 1);
    SettledStart(rule, level, names, edits);
    LogOn(level, log, [], []);
    ghost var a, k, runs, done := 0, 0, [], [];
    ghost var sofar: seq<Key> := [];
    up, changed := [], log;
    var left := edits;
    while left != []
      invariant k <= |edits| && left == edits[k..]
      invariant Settled(rule, level, names, edits, a, k, runs, up, sofar)
      invariant changed == log + LevelLog(level, sofar)
      decreases |left|
    {
      var c;
      ghost var s, b, k1;
      c, s := Seek(root, level, left[0].At());
      SoughtMeansUnder(root, level, left[0].At(), c.parent.rest, s);
      SeekPast(rule, level, names, edits, a, k, runs, up, sofar, s);
      SettledSkip(rule, level, names, edits, a, k, runs, up, sofar, s);
      runs := runs + RunsOf(names[a..s]);
      AtNodeIntro(c, names, s);
      var ups;
      left, ups, changed, b, k1, done := Stretch(r, c, level, left, changed, names, edits, s, k);
      GoodStretch(level, names, s, b);
      SettledStretch(rule, level, names, edits, s, k, runs, up, sofar, b, k1, done);
      ghost var more := StretchLog(names, edits, s, b, k, k1);
      LogJoin(level, log, sofar, more);
      a, k, runs, up, sofar := b, k1, runs + done, up + ups, sofar + more;
    }
    SettledEnd(rule, level, names, edits, a, runs, up, sofar);
    LogIs(level, log, sofar);
  }

  lemma LogIs(level: nat, log: seq<Key>, a: seq<Key>)
    ensures log + LevelLog(level, a) == log + (if level == 0 then a else [])
  {
  }

  lemma LogJoin(level: nat, log: seq<Key>, a: seq<Key>, b: seq<Key>)
    ensures log + LevelLog(level, a) + LevelLog(level, b) == log + LevelLog(level, a + b)
  {
  }

  lemma SoughtMeansUnder(root: Node, level: nat, key: Key, rest: seq<Entry>, s: nat)
    requires Good(root) && SoughtUnder(root, level, key, rest, s)
    ensures level < root.level && SeeksTo(Row(root, level + 1), key, s) && s < |Row(root, level + 1)|
    ensures rest == Row(root, level + 1)[s..]
  {
  }

  /******** The root ********/

  // Feeds every entry of a row, in order.
  method FeedAll(ch: Chunker, es: seq<Entry>)
    requires ch.Valid()
    modifies ch, ch.split
    ensures ch.Valid() && ch.changed == old(ch.changed)
    ensures ch.State() == Feed(AsSplitRule(ch.r), ch.level, old(ch.State()), es)
  {
    hide *;
    ghost var rule := AsSplitRule(ch.r);
    FeedNone(rule, ch.level, ch.State(), es);
    for i := 0 to |es|
      invariant ch.Valid() && ch.changed == old(ch.changed)
      invariant ch.State() == Feed(rule, ch.level, old(ch.State()), es[..i])
    {
      FeedOneMore(rule, ch.level, old(ch.State()), es, i);
      ch.Add(es[i]);
    }
    assert es[..|es|] == es;
  }

  lemma FeedNone(rule: SplitRule, level: nat, d: Drawn, es: seq<Entry>)
    ensures Feed(rule, level, d, es[..0]) == d
  {
  }

  lemma FeedOneMore(rule: SplitRule, level: nat, d: Drawn, es: seq<Entry>, i: nat)
    requires i < |es|
    ensures Feed(rule, level, d, es[..i + 1]) == Step(rule, level, Feed(rule, level, d, es[..i]), es[i])
  {
    assert es[..i + 1][..i] == es[..i];
  }

  // The next level's names, drawn from the names of this one.
  method GrowLevel(r: Rule, level: nat, names: seq<Entry>) returns (up: seq<Entry>)
    requires r.Valid()
    ensures up == Names(DrawNodes(AsSplitRule(r), level, names))
  {
    hide *;
    var next := new Chunker(r, level, false, []);
    FeedAll(next, names);
    ChunkerKept(next);
    next.End();
    StateMeans(next);
    KeptMeans(next);
    DrawNodesAre(AsSplitRule(r), level, names, next.done);
    up := next.out;
  }

  lemma SoleTop(rule: SplitRule, xs: seq<Entry>, level: nat)
    requires |Level(rule, xs, level)| == 1
    ensures Level(rule, xs, level)[0] == Node(level, LevelEntries(rule, xs, level))
    ensures level > 0 ==> LevelEntries(rule, xs, level) == Names(Level(rule, xs, level - 1))
  {
    hide *;
    LevelUnfolds(rule, xs, level);
    SoleNode(rule, level, LevelEntries(rule, xs, level));
  }

  // Descends from a level's only node through single children.
  method CollapseRoot(n: Node, ghost rule: SplitRule, ghost xs: seq<Entry>) returns (top: Node)
    requires |Level(rule, xs, n.level)| == 1 && Level(rule, xs, n.level)[0] == n
    ensures top == Collapse(n)
  {
    hide *;
    top := n;
    while top.level > 0 && |top.entries| == 1
      invariant |Level(rule, xs, top.level)| == 1 && Level(rule, xs, top.level)[0] == top
      invariant Collapse(top) == Collapse(n)
      decreases top.level
    {
      SoleTop(rule, xs, top.level);
      CollapseStep(rule, xs, top.level);
      SoleChild(top, Level(rule, xs, top.level - 1));
      SoleTop(rule, xs, top.level - 1);
      top := top.entries[0].child;
    }
    CollapseEnd(top);
  }

  lemma SoleChild(n: Node, lower: seq<Node>)
    requires NonEmpty(lower) && |lower| == 1 && n.entries == Names(lower)
    ensures n.entries[0].Inner? && n.entries[0].child == lower[0]
  {
  }

  lemma CollapseEnd(n: Node)
    requires !(n.level > 0 && |n.entries| == 1)
    ensures Collapse(n) == n
  {
  }

  lemma {:induction false} LevelEmpty(rule: SplitRule, level: nat)
    ensures Level(rule, [], level) == [] && LevelEntries(rule, [], level) == []
  {
    LevelUnfolds(rule, [], level);
    if level > 0 {
      LevelEmpty(rule, level - 1);
    }
  }

  lemma NamesOne(names: seq<Entry>, nodes: seq<Node>)
    requires NonEmpty(nodes) && names == Names(nodes)
    ensures |names| == |nodes|
    ensures forall i :: 0 <= i < |nodes| ==> names[i].Inner? && names[i].child == nodes[i]
  {
  }

  // From a level of more than one node, draws level after level until one has a single node.
  method GrowRoot(r: Rule, level: nat, nodes: seq<Node>, ghost xs: seq<Entry>) returns (top: Node)
    requires r.Valid() && xs != [] && nodes == Level(AsSplitRule(r), xs, level) && |nodes| >= 2
    ensures Shrinking(AsSplitRule(r)) && top == Build(AsSplitRule(r), xs)
  {
    hide *;
    ghost var rule := AsSplitRule(r);
    RuleShrinks(r);
    var up: seq<Entry> := [];
    NamesNone(nodes);
    for i := 0 to |nodes|
      invariant NonEmpty(nodes[..i]) && up == Names(nodes[..i])
    {
      NamesOneMore(nodes, i);
      up := up + [NameOf(nodes[i])];
    }
    assert nodes[..|nodes|] == nodes;
    var at := level + 1;
    NamesOne(up, nodes);
    while |up| > 1
      invariant at > level && up == Names(Level(rule, xs, at - 1)) && |Level(rule, xs, at - 1)| == |up| >= 1
      invariant if at - 1 > level then |Level(rule, xs, at - 2)| >= 2 else |up| >= 2
      decreases |up|
    {
      LevelUnfolds(rule, xs, at);
      NextShrinks(rule, xs, at - 1);
      LevelsShrink(rule, xs, 0, at);
      up := GrowLevel(r, at, up);
      NamesOne(up, Level(rule, xs, at));
      at := at + 1;
    }
    BuildFromLevel(rule, xs, at - 1);
    GrowOne(rule, at - 1, Level(rule, xs, at - 1));
    NamesOne(up, Level(rule, xs, at - 1));
    top := up[0].child;
  }

  lemma NamesNone(nodes: seq<Node>)
    ensures NonEmpty(nodes[..0]) && Names(nodes[..0]) == []
  {
  }

  lemma NamesOneMore(nodes: seq<Node>, i: nat)
    requires NonEmpty(nodes) && i < |nodes|
    ensures NonEmpty(nodes[..i]) && NonEmpty(nodes[..i + 1]) && nodes[i].entries != []
    ensures Names(nodes[..i + 1]) == Names(nodes[..i]) + [NameOf(nodes[i])]
  {
  }

  /** The top: from the edited row of the root's level to the one node a bulk build ends at, higher or lower than
      the old root. */
  method ApplyRoot(r: Rule, root: Node, edits: seq<Edit>, log: seq<Key>, ghost xs: seq<Entry>)
    returns (top: Node, changed: seq<Key>)
    requires r.Valid() && AllFit(root.level, root.entries) && EditsFit(root.level, edits)
    requires LevelEntries(AsSplitRule(r), xs, root.level) == Merged(root.entries, edits)
    ensures Shrinking(AsSplitRule(r)) && top == Build(AsSplitRule(r), xs)
    ensures changed == log + (if root.level == 0 then Logged(root.entries, edits) else [])
  {
    hide *;
    ghost var rule := AsSplitRule(r);
    RuleShrinks(r);
    var ch := new Chunker(r, root.level, true, log);
    WithinAll(edits);
    assert edits[..|edits|] == edits;
    var _ := Merge(ch, root.entries, edits, None);
    ChunkerKept(ch);
    ch.End();
    StateMeans(ch);
    HeldMeans(ch);
    LevelUnfolds(rule, xs, root.level);
    DrawNodesAre(rule, root.level, Merged(root.entries, edits), ch.done);
    changed := ch.changed;
    if |ch.nodes| == 0 {
      if xs != [] { LevelsShrink(rule, xs, 0, root.level); }
      EmptyBuild(rule, xs);
      top := Node(0, []);
    } else {
      if xs == [] { LevelEmpty(rule, root.level); }
      if |ch.nodes| == 1 {
        SoleTop(rule, xs, root.level);
        CollapseIsBuild(rule, xs, root.level);
        top := CollapseRoot(ch.nodes[0], rule, xs);
      } else {
        top := GrowRoot(r, root.level, ch.nodes, xs);
      }
    }
  }

  lemma WithinAll(eds: seq<Edit>)
    ensures Within(eds, None) == |eds|
  {
  }

  lemma HeldMeans(ch: Chunker)
    requires ch.Kept() && ch.hold
    ensures ch.nodes == NodesOf(ch.level, ch.done)
  {
  }

  lemma EmptyBuild(rule: SplitRule, xs: seq<Entry>)
    requires Shrinking(rule)
    ensures xs == [] ==> Build(rule, xs) == Node(0, [])
  {
  }

  /******** The whole tree ********/

  // Each level of a canonical tree is the one the rule draws, and has more than one node below the root.
  lemma CanonicalLevel(rule: SplitRule, xs: seq<Entry>, level: nat)
    requires Shrinking(rule) && GoodRow(0, xs)
    ensures Good(Build(rule, xs)) && LeafRow(Build(rule, xs)) == xs
    ensures var root := Build(rule, xs);
            && (level <= root.level ==> Row(root, level) == LevelEntries(rule, xs, level))
            && (level == root.level ==> root.entries == LevelEntries(rule, xs, level))
            && (level < root.level ==> RowDrew(rule, root, level) && |Level(rule, xs, level)| >= 2)
  {
    hide *;
    var root := Build(rule, xs);
    BuildGood(rule, xs);
    if xs == [] {
      EmptyBuild(rule, xs);
      RowAtRoot(root);
      LevelEmpty(rule, level);
      LeafIs(root);
    } else {
      var top := FindTop(rule, xs, 0);
      BuildRows(rule, xs, top, 0);
      LevelUnfolds(rule, xs, 0);
      LeafIs(root);
      if level <= top {
        BuildRows(rule, xs, top, level);
        RowAtRoot(root);
        if level < top {
          BuildRows(rule, xs, top, level + 1);
          LevelGood(rule, xs, level);
          DrawnRow(rule, level, LevelEntries(rule, xs, level));
          LevelUnfolds(rule, xs, level);
          LevelUnfolds(rule, xs, level + 1);
          RowDrewIs(rule, root, level);
          TopAt(rule, xs, top, level);
        }
      }
    }
  }

  lemma LeafIs(root: Node)
    requires Good(root)
    ensures LeafRow(root) == Row(root, 0)
  {
  }

  lemma TopAt(rule: SplitRule, xs: seq<Entry>, top: nat, level: nat)
    requires Top(rule, xs, top) && level < top
    ensures |Level(rule, xs, level)| >= 2
  {
  }

  lemma RowDrewIs(rule: SplitRule, root: Node, level: nat)
    requires Good(root) && level < root.level && AllInner(Row(root, level + 1))
             && Drew(rule, level, Row(root, level + 1))
    ensures RowDrew(rule, root, level)
  {
  }

  // Trees whose levels agree from some level up are the same tree.
  lemma SameAbove(rule: SplitRule, xs: seq<Entry>, ys: seq<Entry>, level: nat)
    requires Shrinking(rule) && |Level(rule, xs, level)| >= 2
    requires LevelEntries(rule, xs, level + 1) == LevelEntries(rule, ys, level + 1)
    ensures Build(rule, xs) == Build(rule, ys)
  {
    hide *;
    LevelUnfolds(rule, xs, level + 1);
    LevelUnfolds(rule, ys, level + 1);
    LevelEmpty(rule, level);
    BuildFromLevel(rule, xs, level + 1);
    BuildFromLevel(rule, ys, level + 1);
  }

  /** From the canonical tree of xs to the canonical tree of xs edited, with a log of the keys at which the edits
      made a difference, ascending. */
  method Apply(r: Rule, root: Node, edits: seq<Edit>, ghost xs: seq<Entry>) returns (root': Node, changed: seq<Key>)
    requires r.Valid() && Shrinking(AsSplitRule(r)) && GoodRow(0, xs) && root == Build(AsSplitRule(r), xs)
    requires SortedEdits(edits) && EditsFit(0, edits)
    ensures root' == Build(AsSplitRule(r), Merged(xs, edits))
    ensures changed == Logged(xs, edits)
  {
    hide *;
    ghost var rule := AsSplitRule(r);
    ghost var ys := Merged(xs, edits);
    CanonicalLevel(rule, xs, 0);
    LeafIs(root);
    LevelUnfolds(rule, xs, 0);
    LevelUnfolds(rule, ys, 0);
    var eds := edits;
    var level := 0;
    changed := [];
    while level < root.level
      invariant 0 <= level <= root.level && SortedEdits(eds) && EditsFit(level, eds)
      invariant Merged(Row(root, level), eds) == LevelEntries(rule, ys, level)
      invariant changed == if level == 0 then [] else Logged(xs, edits)
      invariant level == 0 ==> eds == edits
    {
      CanonicalLevel(rule, xs, level);
      CanonicalLevel(rule, xs, level + 1);
      LevelUnfolds(rule, ys, level + 1);
      LevelUnfolds(rule, ys, level);
      ghost var start := level == 0;
      eds, changed := ApplyLevel(r, root, level, eds, changed);
      assert [] + Logged(xs, edits) == Logged(xs, edits);
      assert changed + [] == changed;
      if eds == [] {
        MergedNothing(Row(root, level + 1));
        SameAbove(rule, xs, ys, level);
        return root, changed;
      }
      level := level + 1;
    }
    CanonicalLevel(rule, xs, root.level);
    GoodFits(root);
    root', changed := ApplyRoot(r, root, eds, changed, ys);
    assert [] + Logged(xs, edits) == Logged(xs, edits);
  }

  lemma GoodFits(root: Node)
    requires Good(root)
    ensures AllFit(root.level, root.entries)
  {
  }
}
