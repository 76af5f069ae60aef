/** A chunker's state is always that of drawing the entries it was given so far; merging an old node with its
    edits gives it exactly the edited entries. */
module Chunkers {
  import opened Keys
  import opened Basics
  import opened Nodes
  import opened Drawing
  import opened Edits
  import opened Boundary

  class Chunker {
    const r: Rule
    const level: nat
    const hold: bool
    const split: Splitter
    var pending: seq<Entry>
    var out: seq<Entry>
    var nodes: seq<Node>
    // The keys changed so far, kept at level 0 only.
    var changed: seq<Key>
    // The entries of each node drawn so far.
    ghost var done: seq<seq<Entry>>

    // The nodes drawn are kept, or named in out when they are stored.
    ghost predicate Kept()
      reads this
    {
      && NoneEmpty(done)
      && (hold ==> nodes == NodesOf(level, done))
      && (!hold ==> out == Names(NodesOf(level, done)))
    }

    ghost predicate Valid()
      reads this, split
    {
      && r.Valid() && split.r == r && split.level == level
      && split.size == SizeOf(pending) && split.n == |pending|
      && Kept()
    }

    ghost function State(): Drawn
      reads this
    {
      Drawn(done, pending)
    }

    constructor (r: Rule, level: nat, hold: bool, log: seq<Key>)
      requires r.Valid()
      ensures Valid() && fresh(split) && this.r == r && this.level == level && this.hold == hold
      ensures State() == START && changed == log
    {
      this.r, this.level, this.hold := r, level, hold;
      split := new Splitter(r, level);
      pending, out, nodes, changed, done := [], [], [], log, [];
    }

    method Add(e: Entry)
      requires Valid()
      modifies this, split
      ensures Valid() && changed == old(changed)
      ensures State() == Step(AsSplitRule(r), level, old(State()), e)
    {
      pending := pending + [e];
      assert pending[..|pending| - 1] == old(pending);
      var ends := split.Append(e.key, EntrySize(e));
      if ends {
        End();
      }
    }

    // Ends the drawing: an unfinished node becomes the last one.
    method End()
      requires Kept()
      modifies this
      ensures Kept() && changed == old(changed)
      ensures State() == Drawn(Finish(old(State())), [])
    {
      if pending == [] {
        return;
      }
      var n := Node(level, pending);
      NodesPush(level, done, pending);
      done := done + [pending];
      pending := [];
      if hold {
        nodes := nodes + [n];
      } else {
        out := out + [NameOf(n)];
      }
    }

    method Change(key: Key)
      requires Valid()
      modifies `changed
      ensures Valid()
      ensures changed == old(changed) + (if level == 0 then [key] else [])
    {
      if level == 0 {
        changed := changed + [key];
      }
    }
  }

  lemma NodesPush(level: nat, runs: seq<seq<Entry>>, p: seq<Entry>)
    requires NoneEmpty(runs) && p != []
    ensures NoneEmpty(runs + [p])
    ensures NodesOf(level, runs + [p]) == NodesOf(level, runs) + [Node(level, p)]
    ensures Names(NodesOf(level, runs + [p])) == Names(NodesOf(level, runs)) + [NameOf(Node(level, p))]
  {
  }

  // The edits at the front that fall at or before the limit.
  ghost function Within(eds: seq<Edit>, limit: Option<Key>): (n: nat)
    ensures n <= |eds|
    ensures limit.None? ==> n == |eds|
  {
    if eds == [] || (limit.Some? && Rank(eds[0].At()) > Rank(limit.value)) then 0
    else 1 + Within(eds[1..], limit)
  }

  lemma {:induction false} WithinMeans(eds: seq<Edit>, limit: Option<Key>)
    ensures forall i :: 0 <= i < Within(eds, limit) ==> limit.None? || Rank(eds[i].At()) <= Rank(limit.value)
    ensures Within(eds, limit) < |eds| ==> limit.Some? && Rank(eds[Within(eds, limit)].At()) > Rank(limit.value)
  {
    if eds == [] || (limit.Some? && Rank(eds[0].At()) > Rank(limit.value)) {
    } else {
      WithinMeans(eds[1..], limit);
      var w := Within(eds[1..], limit);
      assert Within(eds, limit) == 1 + w;
      forall i | 0 <= i < 1 + w ensures limit.None? || Rank(eds[i].At()) <= Rank(limit.value) {
        if i > 0 { assert eds[i] == eds[1..][i - 1]; }
      }
      if 1 + w < |eds| { assert eds[1 + w] == eds[1..][w]; }
    }
  }

  // Whether the first edit left is at or before the limit.
  method InLimit(eds: seq<Edit>, limit: Option<Key>) returns (ok: bool)
    ensures ok <==> eds != [] && (limit.None? || Rank(eds[0].At()) <= Rank(limit.value))
  {
    if eds == [] {
      return false;
    }
    if limit.None? {
      return true;
    }
    var c := Compare(eds[0].At(), limit.value);
    ok := c <= 0;
  }

  // The value of a leaf entry; entries above have none.
  function ValueOf(e: Entry): Value {
    if e.Leaf? then e.val else Inline([])
  }

  lemma FeedFew(rule: SplitRule, level: nat, d: Drawn, e: Entry)
    ensures Feed(rule, level, d, []) == d
    ensures Feed(rule, level, d, [e]) == Step(rule, level, d, e)
  {
    assert [e][..0] == [];
  }

  // What one move of the merge leaves to feed and to log.
  lemma MergeStep(rule: SplitRule, level: nat, d: Drawn, run: seq<Entry>, todo: seq<Edit>)
    requires run != [] || todo != []
    ensures var m := Next(run, todo);
            Feed(rule, level, d, Merged(run, todo))
            == Feed(rule, level, Feed(rule, level, d, m.written), Merged(run[m.entries..], todo[m.edits..]))
    ensures var m := Next(run, todo);
            Logged(run, todo) == (if m.written != run[..m.entries] then [m.key] else [])
                                 + Logged(run[m.entries..], todo[m.edits..])
  {
    var m := Next(run, todo);
    FeedAppend(rule, level, d, m.written, Merged(run[m.entries..], todo[m.edits..]));
  }

  // The first edit ed written: fed, and logged when it differs from the entry it replaces.
  function Fed(rule: SplitRule, level: nat, d: Drawn, ed: Edit): Drawn {
    if ed.Put? then Step(rule, level, d, ed.e) else d
  }

  // How each comparison of the first edit and the first entry moves the merge on.
  lemma MergeMove(rule: SplitRule, level: nat, d: Drawn, run: seq<Entry>, todo: seq<Edit>, cmp: int)
    requires run != [] || todo != []
    requires todo == [] ==> cmp > 0
    requires todo != [] && run == [] ==> cmp < 0
    requires todo != [] && run != [] ==>
               && (cmp < 0 <==> Rank(todo[0].At()) < Rank(run[0].key))
               && (cmp > 0 <==> Rank(todo[0].At()) > Rank(run[0].key))
    ensures cmp < 0 ==>
              && Feed(rule, level, d, Merged(run, todo)) == Feed(rule, level, Fed(rule, level, d, todo[0]),
                                                                 Merged(run, todo[1..]))
              && Logged(run, todo) == (if todo[0].Put? then [todo[0].At()] else []) + Logged(run, todo[1..])
    ensures cmp == 0 ==>
              && Feed(rule, level, d, Merged(run, todo)) == Feed(rule, level, Fed(rule, level, d, todo[0]),
                                                                 Merged(run[1..], todo[1..]))
              && Logged(run, todo) == (if todo[0].Delete? || todo[0].e != run[0] then [todo[0].At()] else [])
                 + Logged(run[1..], todo[1..])
    ensures cmp > 0 ==>
              && Feed(rule, level, d, Merged(run, todo)) == Feed(rule, level, Step(rule, level, d, run[0]),
                                                                 Merged(run[1..], todo))
              && Logged(run, todo) == Logged(run[1..], todo)
  {
    hide Merged, Logged, Feed, Step;
    MergeStep(rule, level, d, run, todo);
    var m := Next(run, todo);
    assert m.entries == (if cmp < 0 then 0 else 1) && m.edits == (if cmp > 0 then 0 else 1);
    if cmp > 0 {
      FeedFew(rule, level, d, run[0]);
      assert todo[0..] == todo && run[..1] == [run[0]];
      assert [] + Logged(run[1..], todo) == Logged(run[1..], todo);
    } else {
      FeedFew(rule, level, d, if todo[0].Put? then todo[0].e else Leaf([], Inline([])));
      if cmp < 0 {
        assert run[0..] == run && run[..0] == [];
      } else {
        assert run[..1] == [run[0]];
      }
    }
  }

  // At the leaves, entries under one key differ exactly when their values do.
  lemma ValuesTell(level: nat, eds: seq<Edit>, e: nat, run: seq<Entry>, j: nat)
    requires AllFit(level, run) && EditsFit(level, eds) && e < |eds| && j < |run| && eds[e].At() == run[j].key
    ensures level == 0 && eds[e].Put? ==> (ValueOf(eds[e].e) == ValueOf(run[j]) <==> eds[e].e == run[j])
  {
    if level == 0 && eds[e].Put? {
      assert Fits(0, eds[e].e) && Fits(0, run[j]);
    }
  }

  // An edit reached by the merge: logged when it changes something, and written when it is a put.
  method TakeEdit(c: Chunker, ed: Edit, differs: bool)
    requires c.Valid()
    modifies c, c.split
    ensures c.Valid()
    ensures c.State() == Fed(AsSplitRule(c.r), c.level, old(c.State()), ed)
    ensures c.changed == old(c.changed) + (if c.level == 0 && differs then [ed.At()] else [])
  {
    hide Chunker.Valid, AsSplitRule, Step;
    if differs {
      c.Change(ed.At());
    }
    if ed.Put? {
      c.Add(ed.e);
    }
  }

  lemma LogStep(log: seq<Key>, log': seq<Key>, level: nat, key: seq<Key>, todo: seq<Key>, rest: seq<Key>)
    requires log' == log + (if level == 0 then key else []) && todo == key + rest
    ensures level == 0 ==> log + todo == log' + rest
    ensures level > 0 ==> log' == log
  {
    AppendAssoc(log, key, rest);
  }

  /** Gives c the run as edited up to limit; left is the suffix of the edits whose keys lie past it. */
  method Merge(c: Chunker, run: seq<Entry>, eds: seq<Edit>, limit: Option<Key>) returns (left: seq<Edit>)
    requires c.Valid() && AllFit(c.level, run) && EditsFit(c.level, eds)
    modifies c, c.split
    ensures c.Valid()
    ensures left == eds[Within(eds, limit)..]
    ensures c.State() == Feed(AsSplitRule(c.r), c.level, old(c.State()), Merged(run, eds[..Within(eds, limit)]))
    ensures c.changed == old(c.changed) + (if c.level == 0 then Logged(run, eds[..Within(eds, limit)]) else [])
  {
    hide *;
    var j := 0;
    left := eds;
    ghost var w := Within(eds, limit);
    ghost var e := 0;
    ghost var rule := AsSplitRule(c.r);
    WithinMeans(eds, limit);
    assert run[0..] == run && eds[..w][0..] == eds[..w] && eds[0..] == eds;
    var more := InLimit(left, limit);
    while j < |run| || more
      invariant c.Valid() && j <= |run|
      invariant e <= w && left == eds[e..] && (more <==> e < w)
      invariant Feed(rule, c.level, old(c.State()), Merged(run, eds[..w])) == Feed(rule, c.level, c.State(),
                Merged(run[j..], eds[..w][e..]))
      invariant c.level == 0 ==> old(c.changed) + Logged(run, eds[..w]) == c.changed + Logged(run[j..], eds[..w][e..])
      invariant c.level > 0 ==> c.changed == old(c.changed)
      decreases |run| - j + w - e
    {
      var cmp;
      if !more {
        cmp := 1;
      } else if j == |run| {
        cmp := -1;
      } else {
        cmp := Compare(left[0].At(), run[j].key);
      }
      ghost var log, d := c.changed, c.State();
      if more { DropOne(eds[..w], e); }
      if j < |run| { DropOne(run, j); }
      MergeMove(rule, c.level, d, run[j..], eds[..w][e..], cmp);
      if cmp < 0 {
        TakeEdit(c, left[0], left[0].Put?);
        LogStep(log, c.changed, c.level, if left[0].Put? then [left[0].At()] else [],
                Logged(run[j..], eds[..w][e..]), Logged(run[j..], eds[..w][e + 1..]));
        left, e := left[1..], e + 1;
      } else if cmp == 0 {
        var differs := left[0].Delete? || ValueOf(left[0].e) != ValueOf(run[j]);
        ValuesTell(c.level, eds, e, run, j);
        TakeEdit(c, left[0], differs);
        LogStep(log, c.changed, c.level, if left[0].Delete? || left[0].e != run[j] then [left[0].At()] else [],
                Logged(run[j..], eds[..w][e..]), Logged(run[j + 1..], eds[..w][e + 1..]));
        left, j, e := left[1..], j + 1, e + 1;
      } else {
        c.Add(run[j]);
        j := j + 1;
      }
      more := InLimit(left, limit);
    }
    FinishMerge(rule, c.level, c.State(), run[j..], eds[..w][e..]);
  }

  lemma FinishMerge(rule: SplitRule, level: nat, d: Drawn, run: seq<Entry>, eds: seq<Edit>)
    requires run == [] && eds == []
    ensures Feed(rule, level, d, Merged(run, eds)) == d && Logged(run, eds) == []
  {
  }
}
