/** Re-chunking one level in stretches. `names` is the row above the level: one entry per old node. A
    prefix of it is settled when the new nodes up to there are drawn and the edits a level up that
    turn the old names into theirs are known. */
module Levels {
  import opened Keys
  import opened Basics
  import opened Nodes
  import opened Trees
  import opened Drawing
  import opened Edits

  ghost function RunsOf(names: seq<Entry>): (runs: seq<seq<Entry>>)
    requires AllInner(names)
    ensures |runs| == |names|
  {
    seq(|names|, i requires 0 <= i < |names| => names[i].child.entries)
  }

  lemma {:induction false} ExpandIsConcat(names: seq<Entry>)
    requires AllInner(names)
    ensures Expand(names) == Concat(RunsOf(names))
  {
    if names != [] {
      var init, last := names[..|names| - 1], names[|names| - 1];
      ExpandIsConcat(init);
      assert names == init + [last];
      ExpandAppend(init, [last]);
      assert Expand([last]) == last.child.entries + Expand([last][1..]);
      assert [last][1..] == [];
      assert last.child.entries + [] == last.child.entries;
      assert RunsOf(names)[..|names| - 1] == RunsOf(init);
    }
  }

  // The row names exactly the nodes the rule draws from the entries under it.
  ghost predicate Drew(rule: SplitRule, level: nat, names: seq<Entry>)
    requires AllInner(names)
  {
    Draw(rule, level, Expand(names)) == RunsOf(names)
  }

  lemma ClosedSlice(rule: SplitRule, level: nat, names: seq<Entry>, a: nat, s: nat)
    requires AllInner(names) && a <= s < |names|
    requires AllClosed(rule, level, RunsOf(names)[..|names| - 1])
    ensures AllInner(names[a..s]) && AllClosed(rule, level, RunsOf(names[a..s]))
  {
    var slice := names[a..s];
    assert AllInner(slice);
    hide Closed;
    forall i | 0 <= i < s - a ensures Closed(rule, level, RunsOf(slice)[i]) {
      assert RunsOf(names)[..|names| - 1][a + i] == names[a + i].child.entries;
      assert RunsOf(slice)[i] == names[a + i].child.entries;
    }
  }

  // Old nodes after a boundary are drawn again as they were.
  lemma RedrawClosed(rule: SplitRule, level: nat, names: seq<Entry>, a: nat, s: nat, built: seq<seq<Entry>>)
    requires AllInner(names) && names != [] && Drew(rule, level, names) && a <= s < |names|
    ensures AllInner(names[a..s])
    ensures Feed(rule, level, Drawn(built, []), Expand(names[a..s])) == Drawn(built + RunsOf(names[a..s]), [])
  {
    hide *;
    NamedClosed(rule, level, names);
    ClosedSlice(rule, level, names, a, s);
    ExpandIsConcat(names[a..s]);
    FeedClosed(rule, level, built, RunsOf(names[a..s]));
  }

  lemma NamedClosed(rule: SplitRule, level: nat, names: seq<Entry>)
    requires AllInner(names) && names != [] && Drew(rule, level, names)
    ensures AllClosed(rule, level, RunsOf(names)[..|names| - 1])
    ensures var last := RunsOf(names)[|names| - 1]; Draw(rule, level, last) == [last]
  {
    DrawConserves(rule, level, Expand(names));
    DrawIsLocal(rule, level, Expand(names));
  }

  lemma RedrawLast(rule: SplitRule, level: nat, p: seq<Entry>, built: seq<seq<Entry>>)
    requires Draw(rule, level, p) == [p]
    ensures Finish(Feed(rule, level, Drawn(built, []), p)) == built + [p]
  {
    FeedFrame(rule, level, Drawn(built, []), p);
    var r := Feed(rule, level, START, p);
    if r.pending != [] {
      assert r.done == [] by { assert |r.done + [r.pending]| == 1; }
      assert built + [] == built;
    }
  }

  lemma TailSplit(names: seq<Entry>, a: nat)
    requires AllInner(names) && a < |names|
    ensures names[|names| - 1].Inner?
    ensures var s := |names| - 1; var p := names[s].child.entries;
            && AllInner(names[a..]) && AllInner(names[a..s])
            && Expand(names[a..]) == Expand(names[a..s]) + p
            && RunsOf(names[a..]) == RunsOf(names[a..s]) + [p]
            && RunsOf(names)[s] == p
  {
    var s := |names| - 1;
    assert names[a..] == names[a..s] + [names[s]];
    ExpandAppend(names[a..s], [names[s]]);
    ExpandOne(names[s]);
  }

  // From a boundary on, redrawing unchanged names to the level's end gives the old nodes.
  lemma RedrawRest(rule: SplitRule, level: nat, names: seq<Entry>, a: nat, built: seq<seq<Entry>>)
    requires AllInner(names) && names != [] && Drew(rule, level, names) && a < |names|
    ensures AllInner(names[a..])
    ensures Finish(Feed(rule, level, Drawn(built, []), Expand(names[a..]))) == built + RunsOf(names[a..])
  {
    hide *;
    var s := |names| - 1;
    TailSplit(names, a);
    var p := names[s].child.entries;
    RedrawClosed(rule, level, names, a, s, built);
    NamedClosed(rule, level, names);
    RedrawLast(rule, level, p, built + RunsOf(names[a..s]));
    FeedAppend(rule, level, Drawn(built, []), Expand(names[a..s]), p);
    AppendAssoc(built, RunsOf(names[a..s]), [p]);
  }

  lemma ExpandOne(e: Entry)
    requires e.Inner?
    ensures Expand([e]) == e.child.entries
  {
    assert [e][1..] == [];
    assert e.child.entries + [] == e.child.entries;
  }

  // The names of a row's children are the row itself.
  lemma NamesOfRuns(level: nat, names: seq<Entry>)
    requires AllFit(level + 1, names)
    ensures AllInner(names) && NoneEmpty(RunsOf(names))
    ensures Names(NodesOf(level, RunsOf(names))) == names
  {
    assert forall i :: 0 <= i < |names| ==> Fits(level + 1, names[i]);
    var runs := RunsOf(names);
    forall i | 0 <= i < |names|
      ensures runs[i] != [] && NodesOf(level, runs)[i] == names[i].child
    {
      assert Fits(level + 1, names[i]);
    }
    assert NoneEmpty(runs);
    assert forall i :: 0 <= i < |names| ==> Names(NodesOf(level, runs))[i] == names[i];
  }

  lemma NamesAppend(level: nat, a: seq<seq<Entry>>, b: seq<seq<Entry>>)
    requires NoneEmpty(a) && NoneEmpty(b)
    ensures NoneEmpty(a + b)
    ensures Names(NodesOf(level, a + b)) == Names(NodesOf(level, a)) + Names(NodesOf(level, b))
  {
  }

  /******** Where a stretch lies ********/

  // The key the first a old nodes end at.
  ghost function Bound(names: seq<Entry>, a: nat): real
    requires a <= |names|
  {
    if a == 0 then -1.0 else Rank(names[a - 1].key)
  }

  lemma BoundsRise(names: seq<Entry>, a: nat, b: nat)
    requires Sorted(names) && a <= b <= |names|
    ensures Bound(names, a) <= Bound(names, b)
  {
    if 0 < a < b { assert Rank(names[a - 1].key) < Rank(names[b - 1].key); }
  }

  lemma NamesBounds(names: seq<Entry>, a: nat, b: nat)
    requires Sorted(names) && a <= b <= |names|
    ensures KeysAbove(Bound(names, a), names[a..b]) && KeysUpTo(Bound(names, b), names[a..b])
  {
    var slice := names[a..b];
    forall i | 0 <= i < |slice|
      ensures Bound(names, a) < Rank(slice[i].key) <= Bound(names, b)
    {
      assert slice[i] == names[a + i];
      assert a + i < b - 1 ==> Rank(names[a + i].key) < Rank(names[b - 1].key);
    }
  }

  // A stretch of old nodes, and their entries, lie between its bounds.
  lemma SliceBounds(level: nat, names: seq<Entry>, a: nat, b: nat)
    requires GoodRow(level + 1, names) && a <= b <= |names|
    ensures AllInner(names[a..b])
    ensures KeysAbove(Bound(names, a), names[a..b]) && KeysUpTo(Bound(names, b), names[a..b])
    ensures KeysAbove(Bound(names, a), Expand(names[a..b])) && KeysUpTo(Bound(names, b), Expand(names[a..b]))
  {
    var slice := names[a..b];
    NamesBounds(names, a, b);
    GoodRowSlice(level + 1, names, a, b);
    GoodInner(level, slice);
    if a < b {
      LowBound(level, names, a);
      hide GoodRow, Sorted, LowKey;
      ExpandBounds(level + 1, slice, Bound(names, a));
    }
  }

  lemma GoodInner(level: nat, names: seq<Entry>)
    requires GoodRow(level + 1, names)
    ensures AllInner(names) && AllFit(level + 1, names) && Sorted(names)
  {
    assert forall i :: 0 <= i < |names| ==> Fits(level + 1, names[i]);
  }

  lemma LowBound(level: nat, names: seq<Entry>, a: nat)
    requires GoodRow(level + 1, names) && a < |names|
    ensures Bound(names, a) < Rank(LowKey(names[a]))
  {
  }

  // The nodes a sorted run is cut into have sorted names, in the run's range.
  lemma {:induction false} NamesSorted(level: nat, runs: seq<seq<Entry>>, low: real)
    requires NoneEmpty(runs) && Sorted(Concat(runs)) && KeysAbove(low, Concat(runs))
    ensures var names := Names(NodesOf(level, runs));
            Sorted(names) && AllFit(level + 1, names) && KeysAbove(low, names)
            && (names != [] ==> Concat(runs) != [] && KeysUpTo(Rank(LastOf(Concat(runs)).key), names))
  {
    if runs != [] {
      var init, p := runs[..|runs| - 1], runs[|runs| - 1];
      assert runs == init + [p] && p != [] && NoneEmpty(init);
      var whole := Concat(init) + p;
      assert Concat(runs) == whole;
      hide *;
      CutSorted(Concat(init), p, low);
      NamesSorted(level, init, low);
      NamesPush(level, init, p);
      PushSorted(level, Names(NodesOf(level, init)), Concat(init), p, low);
    }
  }

  lemma CutSorted(a: seq<Entry>, p: seq<Entry>, low: real)
    requires Sorted(a + p) && KeysAbove(low, a + p) && p != []
    ensures Sorted(a) && KeysAbove(low, a) && low < Rank(LastOf(p).key) && LastOf(a + p) == LastOf(p)
    ensures a != [] ==> Rank(LastOf(a).key) < Rank(LastOf(p).key)
  {
    assert forall i :: 0 <= i < |a| ==> a[i] == (a + p)[i];
    assert (a + p)[|a| + |p| - 1] == LastOf(p);
    assert a != [] ==> (a + p)[|a| - 1] == LastOf(a);
  }

  lemma PushSorted(level: nat, names: seq<Entry>, a: seq<Entry>, p: seq<Entry>, low: real)
    requires Sorted(names) && AllFit(level + 1, names) && KeysAbove(low, names)
    requires names != [] ==>
               a != [] && KeysUpTo(Rank(LastOf(a).key), names) && Rank(LastOf(a).key) < Rank(LastOf(p).key)
    requires p != [] && low < Rank(LastOf(p).key) && LastOf(a + p) == LastOf(p)
    ensures var names' := names + [NameOf(Node(level, p))];
            Sorted(names') && AllFit(level + 1, names') && KeysAbove(low, names')
            && a + p != [] && KeysUpTo(Rank(LastOf(a + p).key), names')
  {
    assert NameOf(Node(level, p)).key == LastOf(p).key;
  }

  ghost function LastOf(p: seq<Entry>): Entry {
    if p == [] then Leaf([], Inline([])) else p[|p| - 1]
  }

  lemma NamesPush(level: nat, runs: seq<seq<Entry>>, p: seq<Entry>)
    requires NoneEmpty(runs) && p != []
    ensures NoneEmpty(runs + [p])
    ensures Names(NodesOf(level, runs + [p])) == Names(NodesOf(level, runs)) + [NameOf(Node(level, p))]
  {
  }

  /******** Settling a level ********/

  // What the entries under the first a old nodes and the first k edits are drawn as.
  ghost function DrawnTo(rule: SplitRule, level: nat, names: seq<Entry>, eds: seq<Edit>, a: nat, k: nat): Drawn
    requires AllInner(names) && a <= |names| && k <= |eds|
  {
    Feed(rule, level, START, Merged(Expand(names[..a]), eds[..k]))
  }

  /** The first a old nodes and k edits are settled: `runs` are the new nodes up to there, ended at a
      boundary or at the level's end, and `up` are the edits that turn the old names into the new. */
  ghost predicate Settled(rule: SplitRule, level: nat, names: seq<Entry>, eds: seq<Edit>, a: nat, k: nat,
                          runs: seq<seq<Entry>>, up: seq<Edit>, log: seq<Key>)
    requires AllInner(names)
  {
    && a <= |names| && k <= |eds|
    && EditsAbove(Bound(names, a), eds[k..])
    && (if a < |names|
        then EditsUpTo(Bound(names, a), eds[..k]) && EditsUpTo(Bound(names, a), up)
             && DrawnTo(rule, level, names, eds, a, k) == Drawn(runs, [])
        else k == |eds| && Finish(DrawnTo(rule, level, names, eds, a, k)) == runs)
    && NoneEmpty(runs) && Names(NodesOf(level, runs)) == Merged(names[..a], up)
    && SortedEdits(up) && EditsFit(level + 1, up)
    && log == Logged(Expand(names[..a]), eds[..k])
  }

  lemma SettledStart(rule: SplitRule, level: nat, names: seq<Entry>, eds: seq<Edit>)
    requires AllInner(names) && names != []
    ensures Settled(rule, level, names, eds, 0, 0, [], [], [])
  {
    assert names[..0] == [] && eds[..0] == [] && eds[0..] == eds;
    assert Names(NodesOf(level, [])) == [];
  }

  lemma SettledMeans(rule: SplitRule, level: nat, names: seq<Entry>, eds: seq<Edit>, a: nat, k: nat,
                     runs: seq<seq<Entry>>, up: seq<Edit>, log: seq<Key>)
    requires AllInner(names) && Settled(rule, level, names, eds, a, k, runs, up, log)
    ensures a <= |names| && k <= |eds| && AllInner(names[..a])
    ensures EditsAbove(Bound(names, a), eds[k..])
    ensures a < |names| ==> EditsUpTo(Bound(names, a), eds[..k]) && EditsUpTo(Bound(names, a), up)
    ensures a < |names| ==> Feed(rule, level, START, Merged(Expand(names[..a]), eds[..k])) == Drawn(runs, [])
    ensures a == |names| ==>
              k == |eds| && Finish(Feed(rule, level, START, Merged(Expand(names[..a]), eds[..k]))) == runs
    ensures NoneEmpty(runs) && Names(NodesOf(level, runs)) == Merged(names[..a], up)
    ensures SortedEdits(up) && EditsFit(level + 1, up)
    ensures log == Logged(Expand(names[..a]), eds[..k])
  {
  }

  // Where no edit falls, the old nodes are kept.
  lemma SettledSkip(rule: SplitRule, level: nat, names: seq<Entry>, eds: seq<Edit>, a: nat, k: nat,
                    runs: seq<seq<Entry>>, up: seq<Edit>, log: seq<Key>, s: nat)
    requires GoodRow(level + 1, names) && AllInner(names) && Drew(rule, level, names)
    requires Settled(rule, level, names, eds, a, k, runs, up, log)
    requires a <= s < |names| && EditsAbove(Bound(names, s), eds[k..])
    ensures AllInner(names[a..s])
    ensures Settled(rule, level, names, eds, s, k, runs + RunsOf(names[a..s]), up, log)
  {
    hide *;
    SettledMeans(rule, level, names, eds, a, k, runs, up, log);
    GoodInner(level, names);
    var old1, mid, cut := names[..a], names[a..s], Bound(names, a);
    SliceBounds(level, names, 0, a);
    SliceBounds(level, names, a, s);
    assert names[0..a] == old1 && names[..s] == old1 + mid;
    ExpandAppend(old1, mid);
    MergedCutRest(Expand(old1), Expand(mid), eds[..k], cut);
    FeedAppend(rule, level, START, Merged(Expand(old1), eds[..k]), Expand(mid));
    RedrawClosed(rule, level, names, a, s, runs);
    MergedCutRest(old1, mid, up, cut);
    FitSlice(level + 1, names, a, s);
    NamesOfRuns(level, mid);
    NamesAppend(level, runs, RunsOf(mid));
    BoundsRise(names, a, s);
    UpToRise(cut, Bound(names, s), eds[..k]);
    UpToRise(cut, Bound(names, s), up);
    SettledIntro(rule, level, names, eds, s, k, runs + RunsOf(mid), up, log);
  }

  lemma FitSlice(level: nat, es: seq<Entry>, a: nat, b: nat)
    requires AllFit(level, es) && a <= b <= |es|
    ensures AllFit(level, es[a..b])
  {
  }

  lemma UpToRise(low: real, high: real, eds: seq<Edit>)
    requires low <= high && EditsUpTo(low, eds)
    ensures EditsUpTo(high, eds)
  {
  }

  lemma SettledIntro(rule: SplitRule, level: nat, names: seq<Entry>, eds: seq<Edit>, a: nat, k: nat,
                     runs: seq<seq<Entry>>, up: seq<Edit>, log: seq<Key>)
    requires AllInner(names) && a <= |names| && k <= |eds| && AllInner(names[..a])
    requires EditsAbove(Bound(names, a), eds[k..])
    requires a < |names| ==> EditsUpTo(Bound(names, a), eds[..k]) && EditsUpTo(Bound(names, a), up)
    requires a < |names| ==> Feed(rule, level, START, Merged(Expand(names[..a]), eds[..k])) == Drawn(runs, [])
    requires a == |names| ==>
               k == |eds| && Finish(Feed(rule, level, START, Merged(Expand(names[..a]), eds[..k]))) == runs
    requires NoneEmpty(runs) && Names(NodesOf(level, runs)) == Merged(names[..a], up)
    requires SortedEdits(up) && EditsFit(level + 1, up)
    requires log == Logged(Expand(names[..a]), eds[..k])
    ensures Settled(rule, level, names, eds, a, k, runs, up, log)
  {
  }

  /******** A stretch ********/

  // What a stretch has fed its chunker: old nodes s to b, with edits k to k1 applied.
  ghost function StretchTo(rule: SplitRule, level: nat, names: seq<Entry>, eds: seq<Edit>, s: nat, b: nat, k: nat,
                           k1: nat): Drawn
    requires AllInner(names) && s <= b <= |names| && k <= k1 <= |eds|
  {
    Feed(rule, level, START, Merged(Expand(names[s..b]), eds[k..k1]))
  }

  ghost function StretchLog(names: seq<Entry>, eds: seq<Edit>, s: nat, b: nat, k: nat, k1: nat): seq<Key>
    requires AllInner(names) && s <= b <= |names| && k <= k1 <= |eds|
  {
    Logged(Expand(names[s..b]), eds[k..k1])
  }

  lemma StretchStart(rule: SplitRule, level: nat, names: seq<Entry>, eds: seq<Edit>, s: nat, k: nat)
    requires AllInner(names) && s <= |names| && k <= |eds|
    ensures StretchTo(rule, level, names, eds, s, s, k, k) == START
    ensures StretchLog(names, eds, s, s, k, k) == []
  {
    assert names[s..s] == [] && eds[k..k] == [];
  }

  // Merging one more old node, with the edits that fall in it, extends the stretch.
  lemma StretchOn(rule: SplitRule, level: nat, names: seq<Entry>, eds: seq<Edit>, s: nat, b: nat, k: nat, k1: nat,
                  w: nat)
    requires GoodRow(level + 1, names) && AllInner(names) && s <= b < |names| && k <= k1 && k1 + w <= |eds|
    requires EditsUpTo(Bound(names, b), eds[k..k1]) && EditsAbove(Bound(names, b), eds[k1..])
    ensures StretchTo(rule, level, names, eds, s, b + 1, k, k1 + w)
            == Feed(rule, level, StretchTo(rule, level, names, eds, s, b, k, k1),
                    Merged(names[b].child.entries, eds[k1..k1 + w]))
    ensures StretchLog(names, eds, s, b + 1, k, k1 + w)
            == StretchLog(names, eds, s, b, k, k1) + Logged(names[b].child.entries, eds[k1..k1 + w])
  {
    hide *;
    InnerAt(names, b);
    var p := names[b].child.entries;
    SliceBounds(level, names, s, b);
    SliceBounds(level, names, b, b + 1);
    assert names[s..b + 1] == names[s..b] + names[b..b + 1] && names[b..b + 1] == [names[b]];
    assert eds[k..k1 + w] == eds[k..k1] + eds[k1..k1 + w];
    AboveSlice(Bound(names, b), eds, k1, w);
    ExpandAppend(names[s..b], names[b..b + 1]);
    ExpandOne(names[b]);
    MergedCut(Expand(names[s..b]), p, eds[k..k1], eds[k1..k1 + w], Bound(names, b));
    FeedAppend(rule, level, START, Merged(Expand(names[s..b]), eds[k..k1]), Merged(p, eds[k1..k1 + w]));
    StretchMeans(rule, level, names, eds, s, b, k, k1);
    StretchMeans(rule, level, names, eds, s, b + 1, k, k1 + w);
  }

  lemma StretchMeans(rule: SplitRule, level: nat, names: seq<Entry>, eds: seq<Edit>, s: nat, b: nat, k: nat, k1: nat)
    requires AllInner(names) && s <= b <= |names| && k <= k1 <= |eds|
    ensures AllInner(names[s..b])
    ensures StretchTo(rule, level, names, eds, s, b, k, k1)
            == Feed(rule, level, START, Merged(Expand(names[s..b]), eds[k..k1]))
    ensures StretchLog(names, eds, s, b, k, k1) == Logged(Expand(names[s..b]), eds[k..k1])
  {
  }

  lemma InnerAt(names: seq<Entry>, b: nat)
    requires AllInner(names) && b < |names|
    ensures names[b].Inner?
  {
  }

  lemma AboveSlice(r: real, eds: seq<Edit>, k: nat, w: nat)
    requires k + w <= |eds| && EditsAbove(r, eds[k..])
    ensures EditsAbove(r, eds[k..k + w])
  {
    assert forall i :: 0 <= i < w ==> eds[k..k + w][i] == eds[k..][i];
  }

  // A stretch started at a boundary draws the same whatever was drawn before it.
  lemma StretchJoins(rule: SplitRule, level: nat, m1: seq<Entry>, m2: seq<Entry>, runs: seq<seq<Entry>>,
                     done: seq<seq<Entry>>)
    requires Feed(rule, level, START, m1) == Drawn(runs, [])
    ensures Feed(rule, level, START, m2) == Drawn(done, []) ==>
              Feed(rule, level, START, m1 + m2) == Drawn(runs + done, [])
    ensures Finish(Feed(rule, level, START, m2)) == done ==> Finish(Feed(rule, level, START, m1 + m2)) == runs + done
  {
    FeedAppend(rule, level, START, m1, m2);
    FeedFrame(rule, level, Drawn(runs, []), m2);
    var r := Feed(rule, level, START, m2);
    AppendAssoc(runs, r.done, [r.pending]);
  }

  // The names of the nodes a stretch drew: sorted, and inside the stretch's bounds.
  lemma StretchNames(level: nat, m: seq<Entry>, done: seq<seq<Entry>>, low: real, high: real)
    requires NoneEmpty(done) && Concat(done) == m && Sorted(m) && KeysAbove(low, m)
    ensures var names := Names(NodesOf(level, done));
            && Sorted(names) && AllFit(level + 1, names) && KeysAbove(low, names)
            && (KeysUpTo(high, m) ==> KeysUpTo(high, names))
  {
    NamesSorted(level, done, low);
  }

  ghost predicate Ended(rule: SplitRule, level: nat, d: Drawn, done: seq<seq<Entry>>, last: bool) {
    if last then Finish(d) == done else d == Drawn(done, [])
  }

  lemma EndedHolds(rule: SplitRule, level: nat, m: seq<Entry>, done: seq<seq<Entry>>, last: bool)
    requires Ended(rule, level, Feed(rule, level, START, m), done, last)
    ensures NoneEmpty(done) && Concat(done) == m
  {
    DrawConserves(rule, level, m);
    assert Finish(Drawn(done, [])) == done;
  }

  // A stretch ended at a boundary, or at the level's end, settles the nodes it consumed.
  lemma SettledStretch(rule: SplitRule, level: nat, names: seq<Entry>, eds: seq<Edit>, s: nat, k: nat,
                       runs: seq<seq<Entry>>, up: seq<Edit>, log: seq<Key>, b: nat, k1: nat, done: seq<seq<Entry>>)
    requires GoodRow(level + 1, names) && AllInner(names) && SortedEdits(eds)
    requires Settled(rule, level, names, eds, s, k, runs, up, log)
    requires s < b <= |names| && k <= k1 <= |eds|
    requires EditsAbove(Bound(names, b), eds[k1..])
    requires if b < |names| then EditsUpTo(Bound(names, b), eds[k..k1]) else k1 == |eds|
    requires Ended(rule, level, StretchTo(rule, level, names, eds, s, b, k, k1), done, b == |names|)
    requires GoodRow(level, Expand(names[s..b]))
    ensures NoneEmpty(done)
    ensures Settled(rule, level, names, eds, b, k1, runs + done,
                    up + Replaced(names[s..b], Names(NodesOf(level, done))),
                    log + StretchLog(names, eds, s, b, k, k1))
  {
    hide *;
    SettledMeans(rule, level, names, eds, s, k, runs, up, log);
    StretchMeans(rule, level, names, eds, s, b, k, k1);
    GoodInner(level, names);
    var cut, high := Bound(names, s), Bound(names, b);
    var mid, e2 := names[s..b], eds[k..k1];
    var m1, m2 := Merged(Expand(names[..s]), eds[..k]), Merged(Expand(mid), e2);
    SliceBounds(level, names, 0, s);
    SliceBounds(level, names, s, b);
    assert names[0..s] == names[..s] && names[..b] == names[..s] + mid;
    assert eds[..k1] == eds[..k] + e2;
    // The entries.
    AboveSlice(cut, eds, k, k1 - k);
    ExpandAppend(names[..s], mid);
    MergedCut(Expand(names[..s]), Expand(mid), eds[..k], e2, cut);
    StretchJoins(rule, level, m1, m2, runs, done);
    EndedHolds(rule, level, m2, done, b == |names|);
    EndedMeans(rule, level, Feed(rule, level, START, m2), done, b == |names|);
    // The names.
    GoodSorted(level, Expand(mid));
    SortedEditsSlice(eds, k, k1);
    MergedSorted(Expand(mid), e2, cut);
    MergedRange(Expand(mid), e2, cut, high);
    StretchNames(level, m2, done, cut, high);
    var news := Names(NodesOf(level, done));
    SortedSlice(names, s, b);
    ReplacedMerges(mid, news);
    ReplacedSorted(mid, news, cut);
    ReplacedRange(mid, news, cut, high);
    ReplacedFits(level + 1, mid, news);
    var ups := Replaced(mid, news);
    MergedCut(names[..s], mid, up, ups, cut);
    NamesAppend(level, runs, done);
    EditsJoin(level + 1, up, ups, cut, high);
    BoundsRise(names, s, b);
    UpToRise(cut, high, eds[..k]);
    UpToJoin(high, eds[..k], e2);
    SettledIntro(rule, level, names, eds, b, k1, runs + done, up + ups, log + Logged(Expand(mid), e2));
  }

  lemma EndedMeans(rule: SplitRule, level: nat, d: Drawn, done: seq<seq<Entry>>, last: bool)
    requires Ended(rule, level, d, done, last)
    ensures Finish(d) == done && (!last ==> d == Drawn(done, []))
  {
  }

  lemma GoodSorted(level: nat, es: seq<Entry>)
    requires GoodRow(level, es)
    ensures Sorted(es) && AllFit(level, es)
  {
  }

  lemma SortedSlice(es: seq<Entry>, a: nat, b: nat)
    requires Sorted(es) && a <= b <= |es|
    ensures Sorted(es[a..b])
  {
  }

  lemma SortedEditsSlice(eds: seq<Edit>, a: nat, b: nat)
    requires SortedEdits(eds) && a <= b <= |eds|
    ensures SortedEdits(eds[a..b])
  {
  }

  lemma EditsJoin(level: nat, a: seq<Edit>, b: seq<Edit>, cut: real, high: real)
    requires SortedEdits(a) && SortedEdits(b) && EditsFit(level, a) && EditsFit(level, b)
    requires EditsUpTo(cut, a) && EditsAbove(cut, b)
    ensures SortedEdits(a + b) && EditsFit(level, a + b)
    ensures cut <= high && EditsUpTo(high, b) ==> EditsUpTo(high, a + b)
  {
  }

  lemma UpToJoin(high: real, a: seq<Edit>, b: seq<Edit>)
    requires EditsUpTo(high, a)
    ensures EditsUpTo(high, b) ==> EditsUpTo(high, a + b)
  {
  }

  /** Once every edit is used, the level's edits a level up turn the names of its old nodes into the
      names of the nodes a bulk build draws, and the log holds every key changed. */
  lemma SettledEnd(rule: SplitRule, level: nat, names: seq<Entry>, eds: seq<Edit>, a: nat,
                   runs: seq<seq<Entry>>, up: seq<Edit>, log: seq<Key>)
    requires GoodRow(level + 1, names) && AllInner(names) && names != [] && Drew(rule, level, names)
    requires Settled(rule, level, names, eds, a, |eds|, runs, up, log)
    ensures Names(DrawNodes(rule, level, Merged(Expand(names), eds))) == Merged(names, up)
    ensures SortedEdits(up) && EditsFit(level + 1, up)
    ensures log == Logged(Expand(names), eds)
  {
    hide *;
    SettledMeans(rule, level, names, eds, a, |eds|, runs, up, log);
    assert eds[..|eds|] == eds;
    if a == |names| {
      assert names[..a] == names;
      DrawNodesAre(rule, level, Merged(Expand(names), eds), runs);
    } else {
      GoodInner(level, names);
      var rest, cut := names[a..], Bound(names, a);
      SliceBounds(level, names, 0, a);
      SliceBounds(level, names, a, |names|);
      assert names[a..|names|] == rest && names[0..a] == names[..a];
      TakeDrop(names, a);
      ExpandAppend(names[..a], rest);
      MergedCutRest(Expand(names[..a]), Expand(rest), eds, cut);
      FeedAppend(rule, level, START, Merged(Expand(names[..a]), eds), Expand(rest));
      RedrawRest(rule, level, names, a, runs);
      MergedCutRest(names[..a], rest, up, cut);
      FitSlice(level + 1, names, a, |names|);
      NamesOfRuns(level, rest);
      NamesAppend(level, runs, RunsOf(rest));
      DrawNodesAre(rule, level, Merged(Expand(names), eds), runs + RunsOf(rest));
    }
  }

  lemma DrawNodesAre(rule: SplitRule, level: nat, xs: seq<Entry>, runs: seq<seq<Entry>>)
    requires Finish(Feed(rule, level, START, xs)) == runs
    ensures DrawNodes(rule, level, xs) == NodesOf(level, runs)
  {
  }
}
