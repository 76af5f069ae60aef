/** Writing a stream: the index tree grown one chunk at a time, each level holding the node it is filling. */
module StreamWriter {
  import opened Keys
  import opened Basics
  import opened Boundary
  import opened Streams
  import opened StreamTrees
  import Nodes
  import Cdc

  /** A level of the index: the node being filled, how many entries the level took, its first entry, and the
      splitter's count of the node's bytes. */
  datatype Level = Level(entries: seq<Entry>, total: nat, first: Entry, size: nat)

  // An entry whose child is a good tree of a depth.
  ghost predicate EntryOk(e: Entry, depth: nat) {
    e.size >= 1 && Good(e.child, depth, e.size, false)
  }

  ghost predicate LevelOk(l: Level, depth: nat) {
    && (forall i :: 0 <= i < |l.entries| ==> EntryOk(l.entries[i], depth))
    && l.total >= 1 && l.total >= |l.entries| && EntryOk(l.first, depth) && (l.total == 1 ==> l.entries == [l.first])
  }

  // What a level took is in the node it is filling or under an entry of the level above; a level above holds at
  // most half of it, rounded up once the level is closed.
  ghost predicate Link(levels: seq<Level>, k: nat, closed: nat) {
    && (k + 1 == |levels| ==> levels[k].total == |levels[k].entries|)
    && (k + 1 < |levels| ==>
          && levels[k].total >= |levels[k].entries| + 2
          && 2 * levels[k + 1].total <= levels[k].total - |levels[k].entries| + (if k < closed then 1 else 0)
          && (levels[k + 1].total == 1 ==>
                levels[k + 1].first.child.Index?
                  && |levels[k + 1].first.child.entries| == levels[k].total - |levels[k].entries|))
  }

  ghost predicate LevelsOk(levels: seq<Level>) {
    forall k :: 0 <= k < |levels| ==> LevelOk(levels[k], k)
  }

  ghost predicate Linked(levels: seq<Level>, closed: nat) {
    forall k :: 0 <= k < |levels| ==> Link(levels, k, closed)
  }

  // Linked but for the level just emptied into an entry of n children, still to be taken by the one above.
  ghost predicate LinkedBut(levels: seq<Level>, closed: nat, lv: nat, n: nat) {
    && (forall k :: 0 <= k < |levels| && k + 1 != lv ==> Link(levels, k, closed))
    && (lv > 0 ==>
          && lv <= |levels| && levels[lv - 1].entries == [] && levels[lv - 1].total >= 2
          && 2 * ((if lv < |levels| then levels[lv].total else 0) + 1) <= levels[lv - 1].total
             + (if lv - 1 < closed then 1 else 0)
          && (lv == |levels| ==> n == levels[lv - 1].total))
  }

  ghost predicate EmptyBelow(levels: seq<Level>, lv: nat) {
    forall k :: 0 <= k < lv && k < |levels| ==> levels[k].entries == []
  }

  // The bytes taken so far: the higher levels hold the earlier ones.
  ghost function Content(levels: seq<Level>, k: nat): seq<byte>
    requires k <= |levels|
    decreases |levels| - k
  {
    if k == |levels| then [] else Content(levels, k + 1) + BytesOf(levels[k].entries, k)
  }

  lemma {:induction false} ContentBelow(levels: seq<Level>, lv: nat)
    requires lv <= |levels| && EmptyBelow(levels, lv)
    ensures Content(levels, 0) == Content(levels, lv)
  {
    if lv > 0 {
      ContentBelow(levels, lv - 1);
      assert BytesOf(levels[lv - 1].entries, lv - 1) == [];
    }
  }

  lemma {:induction false} ContentAbove(levels: seq<Level>, levels': seq<Level>, k: nat)
    requires |levels| == |levels'| && k <= |levels| && forall i ::
               k <= i < |levels| ==> levels[i].entries == levels'[i].entries
    ensures Content(levels, k) == Content(levels', k)
    decreases |levels| - k
  {
    if k < |levels| {
      ContentAbove(levels, levels', k + 1);
    }
  }

  lemma BytesPush(es: seq<Entry>, e: Entry, depth: nat)
    ensures BytesOf(es + [e], depth) == BytesOf(es, depth) + Bytes(e.child, depth)
    ensures Sum(es + [e]) == Sum(es) + e.size
  {
    assert (es + [e])[..|es|] == es;
  }

  // Taking an entry appends its bytes, when no lower level holds any.
  lemma ContentTakes(levels: seq<Level>, lv: nat, e: Entry, l: Level)
    requires lv < |levels| && EmptyBelow(levels, lv) && l.entries == levels[lv].entries + [e]
    ensures Content(levels[lv := l], 0) == Content(levels, 0) + Bytes(e.child, lv)
  {
    var levels' := levels[lv := l];
    ContentBelow(levels, lv);
    ContentBelow(levels', lv);
    ContentAbove(levels, levels', lv + 1);
    BytesPush(levels[lv].entries, e, lv);
    AppendAssoc(Content(levels, lv + 1), BytesOf(levels[lv].entries, lv), Bytes(e.child, lv));
  }

  // A new level starts empty.
  lemma {:induction false} ContentGrows(levels: seq<Level>, l: Level, k: nat)
    requires l.entries == [] && k <= |levels|
    ensures Content(levels + [l], k) == Content(levels, k)
    decreases |levels| - k
  {
    var levels' := levels + [l];
    if k == |levels| {
      assert Content(levels', k + 1) == [] && BytesOf(l.entries, k) == [];
    } else {
      ContentGrows(levels, l, k + 1);
    }
  }

  // Emptying a level drops the last bytes taken.
  lemma ContentDrops(levels: seq<Level>, lv: nat, l: Level)
    requires lv < |levels| && EmptyBelow(levels, lv) && l.entries == []
    ensures Content(levels, 0) == Content(levels[lv := l], 0) + BytesOf(levels[lv].entries, lv)
  {
    var levels' := levels[lv := l];
    ContentBelow(levels, lv);
    ContentBelow(levels', lv);
    ContentAbove(levels, levels', lv + 1);
    assert BytesOf(l.entries, lv) == [];
    assert Content(levels', lv) == Content(levels', lv + 1) + [] == Content(levels', lv + 1);
  }

  ghost function Children(t: Tree): nat {
    if t.Index? then |t.entries| else 0
  }

  // The levels after one of them takes an entry, made if it is new.
  function Taking(levels: seq<Level>, lv: nat, e: Entry, size: nat): (r: seq<Level>)
    requires lv <= |levels|
    ensures |r| == if lv == |levels| then lv + 1 else |levels|
    ensures forall k :: 0 <= k < |r| && k != lv ==> r[k] == levels[k]
  {
    if lv == |levels| then levels + [Level([e], 1, e, size)]
    else levels[lv := Level(levels[lv].entries + [e], levels[lv].total + 1, levels[lv].first, size)]
  }

  lemma TakingOk(levels: seq<Level>, lv: nat, e: Entry, size: nat)
    requires LevelsOk(levels) && lv <= |levels| && EntryOk(e, lv)
    ensures LevelsOk(Taking(levels, lv, e, size))
  {
    hide LevelOk, EntryOk;
    if lv == |levels| {
      NewLevelOk(e, lv, size);
    } else {
      assert LevelOk(levels[lv], lv);
      OldLevelOk(levels[lv], lv, e, size);
    }
  }

  lemma NewLevelOk(e: Entry, depth: nat, size: nat)
    requires EntryOk(e, depth)
    ensures LevelOk(Level([e], 1, e, size), depth)
  {
    hide EntryOk;
  }

  lemma OldLevelOk(l: Level, depth: nat, e: Entry, size: nat)
    requires EntryOk(e, depth) && LevelOk(l, depth)
    ensures LevelOk(Level(l.entries + [e], l.total + 1, l.first, size), depth)
  {
    hide EntryOk;
  }

  lemma TakingLinks(levels: seq<Level>, closed: nat, lv: nat, e: Entry, size: nat)
    requires lv <= |levels| && LevelsOk(levels) && LinkedBut(levels, closed, lv, Children(e.child))
             && (lv > 0 ==> e.child.Index?)
    ensures Linked(Taking(levels, lv, e, size), closed)
  {
    hide LevelOk, EntryOk;
    var levels' := Taking(levels, lv, e, size);
    forall k | 0 <= k < |levels'| ensures Link(levels', k, closed) {
      if k < |levels| && k + 1 != lv {
        assert Link(levels, k, closed);
      }
      if lv < |levels| {
        assert LevelOk(levels[lv], lv);
        TotalsOf(levels[lv], lv);
      }
    }
  }

  lemma TotalsOf(l: Level, depth: nat)
    requires LevelOk(l, depth)
    ensures l.total >= 1 && l.total >= |l.entries|
  {
  }

  lemma TakingContent(levels: seq<Level>, lv: nat, e: Entry, size: nat)
    requires lv <= |levels| && EmptyBelow(levels, lv)
    ensures Content(Taking(levels, lv, e, size), 0) == Content(levels, 0) + Bytes(e.child, lv)
            && EmptyBelow(Taking(levels, lv, e, size), lv)
  {
    if lv == |levels| {
      var l := Level([], 0, e, size);
      ContentGrows(levels, l, 0);
      assert EmptyBelow(levels + [l], lv);
      ContentTakes(levels + [l], lv, e, Level([e], 1, e, size));
      assert (levels + [l])[lv := Level([e], 1, e, size)] == Taking(levels, lv, e, size);
    } else {
      ContentTakes(levels, lv, e, Taking(levels, lv, e, size)[lv]);
    }
  }

  // Emptying a level whose node ends, into one entry for the level above.
  function Emptied(levels: seq<Level>, lv: nat): seq<Level>
    requires lv < |levels|
  {
    levels[lv := levels[lv].(entries := [], size := 0)]
  }

  // An open level is emptied of two entries or more; one is closed with whatever it has.
  lemma EmptiedOk(levels: seq<Level>, closed: nat, closed': nat, lv: nat)
    requires lv < |levels| && LevelsOk(levels) && Linked(levels, closed) && EmptyBelow(levels, lv) && closed <= lv
    requires (closed' == closed && |levels[lv].entries| >= 2)
             || (closed' == lv + 1 && |levels[lv].entries| >= 1 && levels[lv].total >= 2)
    ensures LevelsOk(Emptied(levels, lv)) && EmptyBelow(Emptied(levels, lv), lv + 1)
    ensures LinkedBut(Emptied(levels, lv), closed', lv + 1, |levels[lv].entries|)
  {
    hide EntryOk;
    assert LevelOk(levels[lv], lv) && Link(levels, lv, closed);
    var levels' := Emptied(levels, lv);
    forall k | 0 <= k < |levels'| ensures LevelOk(levels'[k], k) {
      assert LevelOk(levels[k], k);
    }
    hide LevelOk;
    forall k | 0 <= k < |levels'| && k + 1 != lv + 1 ensures Link(levels', k, closed') {
      assert Link(levels, k, closed);
    }
  }

  // The node a level was filling is good.
  lemma NodeGood(es: seq<Entry>, lv: nat)
    requires es != [] && forall i :: 0 <= i < |es| ==> EntryOk(es[i], lv)
    ensures EntryOk(Entry(Index(lv + 1, es), Sum(es)), lv + 1) && Bytes(Index(lv + 1, es), lv + 1) == BytesOf(es, lv)
  {
    SumParts(es, 0);
    assert es[..0] == [] && es[0].size >= 1;
  }

  lemma EntriesOk(levels: seq<Level>, lv: nat)
    requires lv < |levels| && LevelsOk(levels)
    ensures forall i :: 0 <= i < |levels[lv].entries| ==> EntryOk(levels[lv].entries[i], lv)
  {
    hide EntryOk;
    assert LevelOk(levels[lv], lv);
  }

  // Each level holds at most half of the one below.
  lemma {:induction false} Halves(levels: seq<Level>, closed: nat, lv: nat, n: nat, k: nat)
    requires k < lv <= |levels| && LevelsOk(levels) && LinkedBut(levels, closed, lv, n)
    ensures levels[0].total - 1 >= Pow2(k) * (levels[k].total - 1)
  {
    hide LevelOk;
    if k > 0 {
      Halves(levels, closed, lv, n, k - 1);
      assert Link(levels, k - 1, closed);
      assert LevelOk(levels[k], k);
      TotalsOf(levels[k], k);
      MulMono(Pow2(k - 1), levels[k].total - 1, levels[k - 1].total - 1);
    }
  }

  lemma MulMono(p: nat, a: nat, b: int)
    requires 2 * a <= b
    ensures p * b >= 2 * p * a
  {
    assert p * b - 2 * p * a == p * (b - 2 * a);
  }

  /******** Levels and the rows they took ********/

  // A level against the whole row it took: the node it is filling is the one its row leaves open, and the row above,
  // with what is on its way there, lists the nodes that ended, or all of them once the level is closed.
  ghost predicate RowAt(p: Pen, l: Level, row: seq<Entry>, above: seq<Entry>, k: nat, closed: bool) {
    && row != [] && l.total == |row| && l.first == row[0]
    && var d := Feed(p, k + 1, row);
       if closed then l.entries == [] && above == NodeEntries(k + 1, All(d))
       else l.entries == d.open && l.size == d.size && above == NodeEntries(k + 1, d.done)
  }

  // The row a level took, nothing for one not there yet.
  ghost function RowOf(rows: seq<seq<Entry>>, k: nat): seq<Entry> {
    if k < |rows| then rows[k] else []
  }

  // Every level stands against its row, with an entry on its way to level lv.
  ghost predicate RowsAre(p: Pen, levels: seq<Level>, rows: seq<seq<Entry>>, closed: nat, lv: nat, way: seq<Entry>) {
    && |rows| == |levels|
    && forall k ::
       0 <= k < |levels| ==>
         RowAt(p, levels[k], rows[k], RowOf(rows, k + 1) + (if k + 1 == lv then way else []), k, k < closed)
  }

  // The rows after one of them takes an entry.
  ghost function RowTaking(rows: seq<seq<Entry>>, lv: nat, e: Entry): (r: seq<seq<Entry>>)
    requires lv <= |rows|
    ensures |r| == (if lv == |rows| then lv + 1 else |rows|) && r[..lv] == rows[..lv] && r[lv] == RowOf(rows, lv) + [e]
    ensures forall k :: 0 <= k < |r| && k != lv ==> r[k] == rows[k]
  {
    if lv == |rows| then rows + [[e]] else rows[lv := rows[lv] + [e]]
  }

  // What a level held before it takes an entry.
  ghost predicate Before(p: Pen, levels: seq<Level>, rows: seq<seq<Entry>>, lv: nat, d: Drawn) {
    && lv <= |rows| == |levels| && d == Feed(p, lv + 1, RowOf(rows, lv))
    && (lv < |levels| ==>
          && levels[lv].entries == d.open && levels[lv].size == d.size && levels[lv].total == |rows[lv]|
             && rows[lv] != []
          && levels[lv].first == rows[lv][0] && RowOf(rows, lv + 1) == NodeEntries(lv + 1, d.done))
    && (lv == |levels| ==> d == Drawn([], [], 0))
  }

  lemma BeforeTaking(p: Pen, levels: seq<Level>, rows: seq<seq<Entry>>, closed: nat, lv: nat, e: Entry)
    requires RowsAre(p, levels, rows, closed, lv, [e]) && closed <= lv <= |levels|
    ensures Before(p, levels, rows, lv, Feed(p, lv + 1, RowOf(rows, lv)))
  {
    hide Feed, NodeEntries, All;
    if lv < |levels| {
      assert RowAt(p, levels[lv], rows[lv], RowOf(rows, lv + 1) + [], lv, false);
      assert RowOf(rows, lv + 1) + [] == RowOf(rows, lv + 1);
    } else {
      FeedNone(p, lv + 1);
    }
  }

  lemma FeedNone(p: Pen, level: nat)
    ensures Feed(p, level, []) == Drawn([], [], 0)
  {
  }

  // Other levels do not notice.
  lemma OthersStand(p: Pen, levels: seq<Level>, rows: seq<seq<Entry>>, closed: nat, lv: nat, e: Entry,
                    levels': seq<Level>, k: nat)
    requires RowsAre(p, levels, rows, closed, lv, [e]) && lv <= |levels| && k < |levels'| && k != lv
    requires |levels'| == (if lv == |levels| then lv + 1 else |levels|) && levels'[k] == levels[k]
    ensures k < |rows| && RowAt(p, levels'[k], rows[k], RowOf(RowTaking(rows, lv, e), k + 1), k, k < closed)
  {
    hide RowAt;
    var above := RowOf(rows, k + 1);
    assert RowAt(p, levels[k], rows[k], above + (if k + 1 == lv then [e] else []), k, k < closed);
    assert above + [] == above;
  }

  // A level that takes an entry its node goes on after stands against its longer row.
  lemma TakenStands(p: Pen, levels: seq<Level>, rows: seq<seq<Entry>>, closed: nat, lv: nat, e: Entry, size: nat)
    requires RowsAre(p, levels, rows, closed, lv, [e]) && closed <= lv <= |levels|
    requires var d := Feed(p, lv + 1, RowOf(rows, lv)); !EndsHere(p, lv + 1, d, e) && size == d.size + EntryBytes(e)
    ensures RowsAre(p, Taking(levels, lv, e, size), RowTaking(rows, lv, e), closed, 0, [])
  {
    hide *;
    RowsLen(p, levels, rows, closed, lv, [e]);
    var levels', rows' := Taking(levels, lv, e, size), RowTaking(rows, lv, e);
    BeforeTaking(p, levels, rows, closed, lv, e);
    forall k | 0 <= k < |levels'| ensures RowAt(p, levels'[k], rows'[k], RowOf(rows', k + 1) + [], k, k < closed) {
      assert RowOf(rows', k + 1) + [] == RowOf(rows', k + 1);
      if k != lv {
        OthersStand(p, levels, rows, closed, lv, e, levels', k);
      } else {
        TakenAt(p, levels, rows, lv, e, size);
      }
    }
    RowsIs(p, levels', rows', closed, 0, []);
  }

  lemma RowsLen(p: Pen, levels: seq<Level>, rows: seq<seq<Entry>>, closed: nat, lv: nat, way: seq<Entry>)
    requires RowsAre(p, levels, rows, closed, lv, way)
    ensures |rows| == |levels|
  {
  }

  lemma RowsIs(p: Pen, levels: seq<Level>, rows: seq<seq<Entry>>, closed: nat, lv: nat, way: seq<Entry>)
    requires |rows| == |levels|
    requires forall k ::
               0 <= k < |levels| ==>
                 RowAt(p, levels[k], rows[k], RowOf(rows, k + 1) + (if k + 1 == lv then way else []), k, k < closed)
    ensures RowsAre(p, levels, rows, closed, lv, way)
  {
    hide RowAt;
  }

  lemma RowsMean(p: Pen, levels: seq<Level>, rows: seq<seq<Entry>>, closed: nat, lv: nat, way: seq<Entry>, k: nat)
    requires RowsAre(p, levels, rows, closed, lv, way) && k < |levels|
    ensures |rows| == |levels| && RowAt(p, levels[k], rows[k], RowOf(rows, k + 1) + (if k + 1 == lv then way else []),
            k, k < closed)
  {
    hide RowAt;
  }

  lemma EmptiedElse(levels: seq<Level>, lv: nat)
    requires lv < |levels|
    ensures |Emptied(levels, lv)| == |levels| && forall k ::
              0 <= k < |levels| && k != lv ==> Emptied(levels, lv)[k] == levels[k]
  {
  }

  lemma TakenAt(p: Pen, levels: seq<Level>, rows: seq<seq<Entry>>, lv: nat, e: Entry, size: nat)
    requires var d := Feed(p, lv + 1, RowOf(rows, lv));
             Before(p, levels, rows, lv, d) && !EndsHere(p, lv + 1, d, e) && size == d.size + EntryBytes(e)
    ensures var rows' := RowTaking(rows, lv, e);
            RowAt(p, Taking(levels, lv, e, size)[lv], rows'[lv], RowOf(rows', lv + 1), lv, false)
  {
    hide Feed, All, EntryBytes, EndsHere;
    FeedPush(p, lv + 1, RowOf(rows, lv), e);
  }

  // A level that takes an entry its node ends after is emptied, and the node is on its way up.
  lemma EndedStands(p: Pen, levels: seq<Level>, rows: seq<seq<Entry>>, closed: nat, lv: nat, e: Entry, size: nat)
    requires RowsAre(p, levels, rows, closed, lv, [e]) && closed <= lv <= |levels|
    requires var d := Feed(p, lv + 1, RowOf(rows, lv)); EndsHere(p, lv + 1, d, e)
    ensures var levels' := Taking(levels, lv, e, size);
            RowsAre(p, Emptied(levels', lv), RowTaking(rows, lv, e), closed, lv + 1,
                    [NodeEntry(lv + 1, levels'[lv].entries)])
  {
    hide *;
    RowsLen(p, levels, rows, closed, lv, [e]);
    EmptiedElse(Taking(levels, lv, e, size), lv);
    var levels', rows' := Emptied(Taking(levels, lv, e, size), lv), RowTaking(rows, lv, e);
    var way := [NodeEntry(lv + 1, Taking(levels, lv, e, size)[lv].entries)];
    BeforeTaking(p, levels, rows, closed, lv, e);
    forall k | 0 <= k < |levels'|
      ensures RowAt(p, levels'[k], rows'[k], RowOf(rows', k + 1) + (if k + 1 == lv + 1 then way else []), k, k < closed)
    {
      assert RowOf(rows', k + 1) + [] == RowOf(rows', k + 1);
      if k != lv {
        OthersStand(p, levels, rows, closed, lv, e, levels', k);
      } else {
        EndedAt(p, levels, rows, lv, e, size);
      }
    }
    RowsIs(p, levels', rows', closed, lv + 1, way);
  }

  lemma EndedAt(p: Pen, levels: seq<Level>, rows: seq<seq<Entry>>, lv: nat, e: Entry, size: nat)
    requires var d := Feed(p, lv + 1, RowOf(rows, lv)); Before(p, levels, rows, lv, d) && EndsHere(p, lv + 1, d, e)
    ensures var rows' := RowTaking(rows, lv, e);
            var levels' := Taking(levels, lv, e, size);
            RowAt(p, Emptied(levels', lv)[lv], rows'[lv],
                  RowOf(rows', lv + 1) + [NodeEntry(lv + 1, levels'[lv].entries)], lv, false)
  {
    hide Feed, All, EndsHere, NodeEntry, NodeEntries;
    var d := Feed(p, lv + 1, RowOf(rows, lv));
    FeedPush(p, lv + 1, RowOf(rows, lv), e);
    NodeEntriesPush(lv + 1, d.done, d.open + [e]);
    NoNodes(lv + 1);
  }

  lemma NoNodes(level: nat)
    ensures NodeEntries(level, []) == []
  {
  }

  // A level closed with its node unfinished sends it up as well.
  lemma ClosedStands(p: Pen, levels: seq<Level>, rows: seq<seq<Entry>>, lv: nat)
    requires RowsAre(p, levels, rows, lv, 0, []) && lv < |levels| && levels[lv].entries != []
    ensures RowsAre(p, Emptied(levels, lv), rows, lv + 1, lv + 1, [NodeEntry(lv + 1, levels[lv].entries)])
  {
    hide Feed, NodeEntries, NodeEntry;
    var way := [NodeEntry(lv + 1, levels[lv].entries)];
    forall k | 0 <= k < |levels|
      ensures RowAt(p, Emptied(levels, lv)[k], rows[k], RowOf(rows, k + 1) + (if k + 1 == lv + 1 then way else []), k,
              k < lv + 1)
    {
      assert RowAt(p, levels[k], rows[k], RowOf(rows, k + 1) + [], k, k < lv);
      assert RowOf(rows, k + 1) + [] == RowOf(rows, k + 1);
      if k == lv {
        var d := Feed(p, lv + 1, rows[lv]);
        NodeEntriesPush(lv + 1, d.done, d.open);
      }
    }
  }

  // A level with nothing unfinished is closed as it is.
  lemma EmptyStands(p: Pen, levels: seq<Level>, rows: seq<seq<Entry>>, lv: nat)
    requires RowsAre(p, levels, rows, lv, 0, []) && lv < |levels| && levels[lv].entries == []
    ensures RowsAre(p, levels, rows, lv + 1, 0, [])
  {
    hide *;
    RowsLen(p, levels, rows, lv, 0, []);
    forall k | 0 <= k < |levels| ensures RowAt(p, levels[k], rows[k], RowOf(rows, k + 1) + [], k, k < lv + 1) {
      RowsMean(p, levels, rows, lv, 0, [], k);
      if k == lv {
        EmptyCloses(p, levels[k], rows[k], RowOf(rows, k + 1) + [], k);
      }
    }
    RowsIs(p, levels, rows, lv + 1, 0, []);
  }

  lemma EmptyCloses(p: Pen, l: Level, row: seq<Entry>, above: seq<Entry>, k: nat)
    requires RowAt(p, l, row, above, k, false) && l.entries == []
    ensures RowAt(p, l, row, above, k, true)
  {
    hide Feed, NodeEntries;
  }

  // The row above a closed level is the whole of what its row draws, so the root over both is the same.
  lemma TopClimbs(p: Pen, levels: seq<Level>, rows: seq<seq<Entry>>, lv: nat)
    requires RowsAre(p, levels, rows, lv + 1, 0, []) && lv + 1 < |levels| && |rows[lv]| >= 2
    ensures rows[lv] != [] && rows[lv + 1] != [] && Top(p, lv, rows[lv]) == Top(p, lv + 1, rows[lv + 1])
  {
    hide Feed, NodeEntries, All;
    assert RowAt(p, levels[lv], rows[lv], RowOf(rows, lv + 1) + [], lv, true);
    assert RowOf(rows, lv + 1) + [] == rows[lv + 1];
    assert Above(p, lv, rows[lv]) == rows[lv + 1];
  }

  lemma TopEnds(p: Pen, levels: seq<Level>, rows: seq<seq<Entry>>, closed: nat, lv: nat)
    requires RowsAre(p, levels, rows, closed, 0, []) && lv < |levels| && levels[lv].total == 1
    ensures rows[lv] != [] && Top(p, lv, rows[lv]) == Ref(levels[lv].first.child, levels[lv].first.size, lv)
  {
    hide Feed, NodeEntries, All;
    assert RowAt(p, levels[lv], rows[lv], RowOf(rows, lv + 1) + [], lv, lv < closed);
  }

  lemma RowsSome(p: Pen, levels: seq<Level>, rows: seq<seq<Entry>>, closed: nat, lv: nat, way: seq<Entry>)
    requires RowsAre(p, levels, rows, closed, lv, way)
    ensures |rows| == |levels| && forall k :: 0 <= k < |rows| ==> rows[k] != [] && levels[k].total == |rows[k]|
  {
    hide Feed, NodeEntries, All;
    forall k | 0 <= k < |rows| ensures rows[k] != [] && levels[k].total == |rows[k]| {
      assert RowAt(p, levels[k], rows[k], RowOf(rows, k + 1) + (if k + 1 == lv then way else []), k, k < closed);
    }
  }

  // The builder's test of an entry is the row's.
  lemma TestIs(p: Pen, levels: seq<Level>, rows: seq<seq<Entry>>, closed: nat, lv: nat, e: Entry, l: Level)
    requires RowsAre(p, levels, rows, closed, lv, [e]) && closed <= lv <= |levels|
    requires l == if lv == |levels| then Level([], 0, e, 0) else levels[lv]
    ensures var d := Feed(p, lv + 1, RowOf(rows, lv));
            && l.size == d.size
            && (EndsHere(p, lv + 1, d, e) <==>
                  Ends(p.rule, lv + 1, |l.entries| + 1, l.size, l.size + EntryBytes(e), p.hash(e.child)))
  {
    hide *;
    BeforeTaking(p, levels, rows, closed, lv, e);
    var d := Feed(p, lv + 1, RowOf(rows, lv));
    BeforeMeans(p, levels, rows, lv, d, e, l);
    EndsHereIs(p, lv + 1, d, e);
  }

  lemma BeforeMeans(p: Pen, levels: seq<Level>, rows: seq<seq<Entry>>, lv: nat, d: Drawn, e: Entry, l: Level)
    requires Before(p, levels, rows, lv, d) && l == if lv == |levels| then Level([], 0, e, 0) else levels[lv]
    ensures l.entries == d.open && l.size == d.size
  {
    hide Feed, NodeEntries;
  }

  lemma EndsHereIs(p: Pen, level: nat, d: Drawn, e: Entry)
    ensures EndsHere(p, level, d, e) <==>
              Ends(p.rule, level, |d.open| + 1, d.size, d.size + EntryBytes(e), p.hash(e.child))
  {
    hide Ends, EntryBytes;
  }

  lemma NoWay(p: Pen, levels: seq<Level>, rows: seq<seq<Entry>>, closed: nat, lv: nat, way: seq<Entry>)
    requires RowsAre(p, levels, rows, closed, 0, [])
    ensures RowsAre(p, levels, rows, closed, 0, way)
  {
    hide RowAt;
  }

  /** The builder: levels[k] is index level k + 1. */
  class Builder {
    const r: Rule
    const hash: Tree -> Key
    var levels: seq<Level>
    ghost var rows: seq<seq<Entry>>

    ghost function Drawing(): Pen {
      Pen(r, hash)
    }

    // Every level stands against its row.
    ghost predicate Standing(closed: nat)
      reads this
    {
      RowsAre(Drawing(), levels, rows, closed, 0, [])
    }

    // How far closed levels reach is only counted once the stream is over.
    ghost predicate Valid(closed: nat)
      reads this
    {
      r.Valid() && |levels| <= MAX_DEPTH && LevelsOk(levels) && Linked(levels, closed)
    }

    constructor (r: Rule, hash: Tree -> Key)
      requires r.Valid()
      ensures Valid(0) && Standing(0) && this.r == r && this.hash == hash && levels == [] && rows == []
    {
      this.r, this.hash, levels, rows := r, hash, [], [];
    }

    /** Adds an entry at a level; a node that ends is stored and handed up a level. */
    method Add(lv: nat, e: Entry, ghost closed: nat) returns (ok: bool)
      requires r.Valid() && LevelsOk(levels) && lv <= |levels| <= MAX_DEPTH && closed <= lv && EmptyBelow(levels, lv)
               && EntryOk(e, lv)
      requires LinkedBut(levels, closed, lv, Children(e.child)) && (lv > 0 ==> e.child.Index?)
      requires RowsAre(Drawing(), levels, rows, closed, lv, [e])
      modifies `levels, `rows
      ensures ok ==>
                Standing(closed) && lv < |rows| && old(|rows|) >= lv && rows[..lv] == old(rows)[..lv]
                  && rows[lv] == RowOf(old(rows), lv) + [e]
      ensures ok ==> Valid(closed) && lv < |levels| && EmptyBelow(levels, lv)
      ensures ok ==> Content(levels, 0) == old(Content(levels, 0)) + Bytes(e.child, lv)
      ensures ok ==>
                levels[0].total == (if old(levels) == [] then 0 else old(levels[0].total)) + if lv == 0 then 1 else 0
      ensures !ok ==> |levels| > 0 && levels[0].total > Pow2(62)
      ensures !ok ==>
                levels[0].total == (if old(levels) == [] then 0 else old(levels[0].total)) + if lv == 0 then 1 else 0
      decreases MAX_DEPTH + 1 - lv
    {
      hide *;
      if lv + 1 > MAX_DEPTH {
        DepthIs();
        Halves(levels, closed, lv, Children(e.child), 62);
        LinkedButMeans(levels, closed, lv, Children(e.child));
        AtLeast(Pow2(62), levels[62].total - 1);
        return false;
      }
      var l := if lv == |levels| then Level([], 0, e, 0) else levels[lv];
      var n, size := |l.entries| + 1, l.size + 32 + Nodes.UvarintLen(e.size);
      EntryBytesIs(e);
      var ends := Ends(r, lv + 1, n, l.size, size, hash(e.child));
      RowsSome(Drawing(), levels, rows, closed, lv, [e]);
      TestIs(Drawing(), levels, rows, closed, lv, e, l);
      PenIs();
      TakingOk(levels, lv, e, size);
      TakingLinks(levels, closed, lv, e, size);
      TakingContent(levels, lv, e, size);
      TakingAt(levels, lv, e, size);
      ghost var rows0 := rows;
      if !ends {
        TakenStands(Drawing(), levels, rows, closed, lv, e, size);
      } else {
        EndedStands(Drawing(), levels, rows, closed, lv, e, size);
      }
      levels, rows := Taking(levels, lv, e, size), RowTaking(rows, lv, e);
      ValidIs(closed);
      if !ends {
        StandingIs(closed);
        return true;
      }
      EndsTwo(r, lv + 1, n, l.size, size, hash(e.child));
      ok := Emit(lv, closed, closed);
      if ok {
        EmptyLess(levels, lv);
        RowsKept(rows0, RowTaking(rows0, lv, e), rows, lv);
      }
    }

    /** Closes a level's unfinished node into one entry of the level above. */
    method Emit(lv: nat, ghost closed: nat, ghost closed': nat) returns (ok: bool)
      requires Valid(closed) && lv < |levels| && lv + 1 <= MAX_DEPTH && EmptyBelow(levels, lv) && closed <= lv
      requires (closed' == closed && |levels[lv].entries| >= 2)
               || (closed' == lv + 1 && |levels[lv].entries| >= 1 && levels[lv].total >= 2)
      requires RowsAre(Drawing(), Emptied(levels, lv), rows, closed', lv + 1, [NodeEntry(lv + 1, levels[lv].entries)])
      modifies `levels, `rows
      ensures ok ==> Standing(closed') && |rows| > lv + 1 && old(|rows|) > lv && rows[..lv + 1] == old(rows)[..lv + 1]
      ensures ok ==>
                Valid(closed') && lv + 1 < |levels| && EmptyBelow(levels, lv + 1)
                  && Content(levels, 0) == old(Content(levels, 0))
      ensures levels != [] && levels[0].total == old(levels[0].total)
      ensures !ok ==> levels[0].total > Pow2(62)
      decreases MAX_DEPTH + 1 - lv, 0
    {
      hide *;
      ValidMeans(closed);
      var es := levels[lv].entries;
      EntriesOk(levels, lv);
      NodeGood(es, lv);
      EmptiedOk(levels, closed, closed', lv);
      EmptiedAt(levels, lv);
      ContentDrops(levels, lv, levels[lv].(entries := [], size := 0));
      var node := Index(lv + 1, es);
      ChildrenOf(node);
      NodeEntryIs(lv + 1, es);
      RowsSome(Drawing(), Emptied(levels, lv), rows, closed', lv + 1, [NodeEntry(lv + 1, es)]);
      levels := Emptied(levels, lv);
      ok := Add(lv + 1, Entry(node, Sum(es)), closed');
    }

    /** Closes every level; the root is the one tree left, and it holds every chunk added. */
    method Finish() returns (ref: Option<Ref>)
      requires Valid(0) && Standing(0)
      modifies `levels, `rows
      ensures ref.Some? ==> ref.value == Rooted(Drawing(), old(rows))
      ensures ref.Some? ==> Good(ref.value.root, ref.value.depth, ref.value.size, true) && ref.value.depth < MAX_DEPTH
      ensures ref.Some? ==> Bytes(ref.value.root, ref.value.depth) == old(Content(levels, 0))
      ensures ref.None? ==> old(levels) != [] && old(levels[0].total) > Pow2(62)
    {
      hide *;
      DepthIs();
      if |levels| == 0 {
        EmptyStream(levels);
        StandingMeans(0);
        RowsSome(Drawing(), levels, rows, 0, 0, []);
        RootedIs(Drawing(), rows);
        return Some(Ref(Data([]), 0, 0));
      }
      ghost var all, count := Content(levels, 0), levels[0].total;
      var lv := 0;
      EmptyNone(levels);
      ValidMeans(0);
      StandingMeans(0);
      RowsSome(Drawing(), levels, rows, 0, 0, []);
      RootedIs(Drawing(), rows);
      ghost var top := Rooted(Drawing(), rows);
      while true
        invariant Standing(lv) && lv < |rows| && rows[lv] != [] && Top(Drawing(), lv, rows[lv]) == top
        invariant lv < |levels| <= MAX_DEPTH && Valid(lv) && EmptyBelow(levels, lv) && Content(levels, 0) == all
                  && levels[0].total == count
        decreases MAX_DEPTH - lv
      {
        ValidMeans(lv);
        StandingMeans(lv);
        var l := levels[lv];
        RowsSome(Drawing(), levels, rows, lv, 0, []);
        if l.total == 1 {
          TopIs(levels, lv);
          TopEnds(Drawing(), levels, rows, lv, lv);
          return Some(Ref(l.first.child, l.first.size, lv));
        }
        AtLeastTwo(levels, lv);
        if |l.entries| > 0 {
          ClosedStands(Drawing(), levels, rows, lv);
          ghost var rows0 := rows;
          var ok := Emit(lv, lv, lv + 1);
          if !ok {
            return None;
          }
          ValidMeans(lv + 1);
          StandingMeans(lv + 1);
          RowStays(rows0, rows, lv);
          RowsSome(Drawing(), levels, rows, lv + 1, 0, []);
        } else {
          NotTop(levels, lv);
          LinkedMore(levels, lv);
          EmptyMore(levels, lv);
          ValidIs(lv + 1);
          EmptyStands(Drawing(), levels, rows, lv);
          StandingIs(lv + 1);
          RowsSome(Drawing(), levels, rows, lv + 1, 0, []);
        }
        TopClimbs(Drawing(), levels, rows, lv);
        lv := lv + 1;
      }
    }

    lemma PenIs()
      ensures Drawing().rule == r && Drawing().hash == hash
    {
    }

    lemma StandingIs(closed: nat)
      requires RowsAre(Drawing(), levels, rows, closed, 0, [])
      ensures Standing(closed)
    {
    }

    lemma StandingMeans(closed: nat)
      requires Standing(closed)
      ensures RowsAre(Drawing(), levels, rows, closed, 0, [])
    {
    }

    lemma ValidIs(closed: nat)
      requires r.Valid() && |levels| <= MAX_DEPTH && LevelsOk(levels) && Linked(levels, closed)
      ensures Valid(closed)
    {
      hide LevelsOk, Linked;
    }

    lemma ValidMeans(closed: nat)
      requires Valid(closed)
      ensures r.Valid() && |levels| <= MAX_DEPTH && LevelsOk(levels) && Linked(levels, closed)
    {
      hide LevelsOk, Linked;
    }
  }

  lemma DepthIs()
    ensures MAX_DEPTH == 63
  {
  }

  lemma EntryBytesIs(e: Entry)
    ensures EntryBytes(e) == 32 + Nodes.UvarintLen(e.size)
  {
  }

  lemma NodeEntryIs(level: nat, es: seq<Entry>)
    ensures NodeEntry(level, es) == Entry(Index(level, es), Sum(es))
  {
  }

  lemma RowsKept(a: seq<seq<Entry>>, b: seq<seq<Entry>>, c: seq<seq<Entry>>, lv: nat)
    requires lv <= |a| && lv < |b| && lv < |c| && b[..lv] == a[..lv] && c[..lv + 1] == b[..lv + 1]
    ensures c[..lv] == a[..lv] && c[lv] == b[lv]
  {
    assert c[..lv + 1][..lv] == c[..lv] && b[..lv + 1][..lv] == b[..lv];
    assert c[..lv + 1][lv] == c[lv] && b[..lv + 1][lv] == b[lv];
  }

  lemma RowStays(a: seq<seq<Entry>>, b: seq<seq<Entry>>, lv: nat)
    requires lv < |a| && lv < |b| && b[..lv + 1] == a[..lv + 1]
    ensures b[lv] == a[lv]
  {
    assert b[..lv + 1][lv] == b[lv] && a[..lv + 1][lv] == a[lv];
  }

  // The root over the chunks of the lowest row.
  ghost function Rooted(p: Pen, rows: seq<seq<Entry>>): Ref {
    if rows == [] || rows[0] == [] then Ref(Data([]), 0, 0) else Top(p, 0, rows[0])
  }

  lemma RootedIs(p: Pen, rows: seq<seq<Entry>>)
    ensures Rooted(p, rows) == if rows == [] || rows[0] == [] then Ref(Data([]), 0, 0) else Top(p, 0, rows[0])
  {
  }

  lemma LinkedButMeans(levels: seq<Level>, closed: nat, lv: nat, n: nat)
    requires LinkedBut(levels, closed, lv, n) && lv > 0
    ensures lv <= |levels| && levels[lv - 1].total >= 2
  {
    hide Link;
  }

  lemma TakingAt(levels: seq<Level>, lv: nat, e: Entry, size: nat)
    requires lv <= |levels|
    ensures var levels' := Taking(levels, lv, e, size);
            && |levels'| > lv && |levels'[lv].entries| == (if lv == |levels| then 0 else |levels[lv].entries|) + 1
            && levels'[0].total == (if levels == [] then 0 else levels[0].total) + if lv == 0 then 1 else 0
  {
  }

  lemma EmptiedAt(levels: seq<Level>, lv: nat)
    requires lv < |levels|
    ensures |Emptied(levels, lv)| == |levels| && Emptied(levels, lv)[0].total == levels[0].total
    ensures Emptied(levels, lv) == levels[lv := levels[lv].(entries := [], size := 0)]
  {
  }

  lemma ChildrenOf(t: Tree)
    ensures t.Index? ==> Children(t) == |t.entries|
  {
  }

  // Above the data a node never ends at one entry.
  lemma EndsTwo(r: Rule, level: nat, n: nat, before: nat, after: nat, key: Key)
    requires level >= 1 && Ends(r, level, n, before, after, key)
    ensures n >= 2
  {
  }

  lemma AtLeast(p: nat, a: int)
    requires a >= 1
    ensures p * a >= p
  {
    assert p * a - p == p * (a - 1);
  }

  lemma EmptyLess(levels: seq<Level>, lv: nat)
    requires EmptyBelow(levels, lv + 1)
    ensures EmptyBelow(levels, lv)
  {
  }

  lemma EmptyStream(levels: seq<Level>)
    requires levels == []
    ensures Good(Data([]), 0, 0, true) && Bytes(Data([]), 0) == Content(levels, 0)
  {
  }

  lemma EmptyNone(levels: seq<Level>)
    ensures EmptyBelow(levels, 0)
  {
  }

  lemma EmptyMore(levels: seq<Level>, lv: nat)
    requires EmptyBelow(levels, lv) && lv < |levels| && levels[lv].entries == []
    ensures EmptyBelow(levels, lv + 1)
  {
  }

  lemma AtLeastTwo(levels: seq<Level>, lv: nat)
    requires LevelsOk(levels) && lv < |levels| && levels[lv].total != 1
    ensures levels[lv].total >= 2
  {
    hide EntryOk;
    assert LevelOk(levels[lv], lv);
  }

  lemma NotTop(levels: seq<Level>, lv: nat)
    requires Linked(levels, lv) && lv < |levels| && levels[lv].entries == [] && levels[lv].total >= 2
    ensures lv + 1 < |levels|
  {
    assert Link(levels, lv, lv);
  }

  lemma LinkedMore(levels: seq<Level>, closed: nat)
    requires Linked(levels, closed)
    ensures Linked(levels, closed + 1)
  {
    var more := closed + 1;
    forall k | 0 <= k < |levels| ensures Link(levels, k, more) {
      assert Link(levels, k, closed);
    }
  }

  // A level that took one entry is the last, and the entry is the whole stream: data, or a node of two or more.
  lemma TopIs(levels: seq<Level>, lv: nat)
    requires lv < |levels| && LevelsOk(levels) && Linked(levels, lv) && EmptyBelow(levels, lv) && levels[lv].total == 1
    ensures var e := levels[lv].first; Good(e.child, lv, e.size, true) && Bytes(e.child, lv) == Content(levels, 0)
  {
    var l := levels[lv];
    assert LevelOk(l, lv) && Link(levels, lv, lv);
    ContentBelow(levels, lv);
    BytesPush([], l.first, lv);
    assert [] + [l.first] == [l.first] && Content(levels, lv + 1) == [];
    if lv > 0 {
      assert Link(levels, lv - 1, lv) && LevelOk(levels[lv - 1], lv - 1);
      AtLeastTwo(levels, lv - 1);
    }
    hide Link, LevelOk, Content;
  }

  /** Stores everything the reads yield and returns what names it; none only past more chunks than an index 63
      levels deep can hold. */
  method Write(c: Cdc.Cutter, r: Rule, hash: Tree -> Key, input: seq<seq<byte>>) returns (ref: Option<Ref>)
    requires c.g.Valid() && r.Valid()
    ensures ref.Some? ==> Good(ref.value.root, ref.value.depth, ref.value.size, true)
    ensures ref.Some? ==> Bytes(ref.value.root, ref.value.depth) == Flat(input)
    ensures ref.Some? ==> (Opens(ref.value) <==> |Flat(input)| <= MAX_SIZE)
    ensures ref.None? ==> |Flat(input)| > Pow2(62)
    // The reference is a function of the bytes alone, however the input was split into reads.
    ensures ref.Some? ==> ref.value == StreamOf(c, Pen(r, hash), Flat(input))
  {
    hide *;
    var b := new Builder(r, hash);
    var cut := new Cdc.Chunker(c, input);
    ghost var s := Flat(input);
    Started(s);
    RowsStart(c, s);
    var chunk := cut.Next();
    ghost var at := 0;
    while chunk.Some?
      invariant b.Valid(0) && fresh(b) && cut.Valid() && fresh(cut) && fresh(cut.win) && cut.c == c && cut.stream == s
                && at <= |s|
      invariant b.Standing(0) && b.r == r && b.hash == hash && InRow(c, s, at, b.rows)
      invariant Content(b.levels, 0) == s[..at] && (b.levels != [] ==> b.levels[0].total <= at)
      invariant chunk.None? ==> at == |s|
      invariant chunk.Some? ==> at < cut.at <= |s| && chunk.value == s[at..cut.at] && cut.at == Cdc.EndOf(c, s, at)
      decreases |s| - at
    {
      b.ValidMeans(0);
      b.StandingMeans(0);
      NoWay(b.Drawing(), b.levels, b.rows, 0, 0, [ChunkEntry(chunk.value)]);
      ChunkEntryIs(chunk.value);
      ghost var rows := b.rows;
      OpenAll(b.levels, chunk.value);
      SliceJoin(s, 0, at, cut.at);
      var ok := b.Add(0, Entry(Data(chunk.value), |chunk.value|), 0);
      if ok {
        RowFirst(b.rows);
        RowGrows(c, s, at, rows, b.rows);
      }
      at := cut.at;
      if !ok {
        return None;
      }
      EndRange(c, s, at);
      chunk := cut.Next();
    }
    assert s[..|s|] == s;
    b.PenIs();
    RowEnds(c, Pen(r, hash), s, b.rows);
    ref := b.Finish();
    if ref.Some? {
      GoodOpens(ref.value);
      GoodSize(ref.value.root, ref.value.depth, ref.value.size, true);
    }
  }

  // The lowest row lists the chunks cut so far.
  ghost predicate InRow(c: Cdc.Cutter, s: seq<byte>, at: nat, rows: seq<seq<Entry>>)
    requires at <= |s|
  {
    ChunkRow(Cdc.Chunks(c, s, 0)) == RowOf(rows, 0) + ChunkRow(Cdc.Chunks(c, s, at))
  }

  lemma RowsStart(c: Cdc.Cutter, s: seq<byte>)
    ensures InRow(c, s, 0, [])
  {
    hide ChunkRow, Cdc.Chunks;
  }

  lemma RowGrows(c: Cdc.Cutter, s: seq<byte>, at: nat, rows: seq<seq<Entry>>, rows': seq<seq<Entry>>)
    requires at < |s| && InRow(c, s, at, rows)
    requires at < Cdc.EndOf(c, s, at) <= |s|
             && RowOf(rows', 0) == RowOf(rows, 0) + [ChunkEntry(s[at..Cdc.EndOf(c, s, at)])]
    ensures InRow(c, s, Cdc.EndOf(c, s, at), rows')
  {
    var end := Cdc.EndOf(c, s, at);
    ChunkRowSplit(s[at..end], Cdc.Chunks(c, s, end));
    AppendAssoc(RowOf(rows, 0), [ChunkEntry(s[at..end])], ChunkRow(Cdc.Chunks(c, s, end)));
  }

  lemma RowEnds(c: Cdc.Cutter, p: Pen, s: seq<byte>, rows: seq<seq<Entry>>)
    requires InRow(c, s, |s|, rows) && c.g.Valid()
    ensures Rooted(p, rows) == StreamOf(c, p, s)
  {
    assert ChunkRow(Cdc.Chunks(c, s, |s|)) == [];
    assert RowOf(rows, 0) + [] == RowOf(rows, 0);
    hide Cdc.Chunks, ChunkRow, Top;
  }

  lemma RowFirst(rows: seq<seq<Entry>>)
    ensures |rows| > 0 ==> RowOf(rows, 0) == rows[0]
  {
  }

  lemma ChunkEntryIs(chunk: seq<byte>)
    ensures ChunkEntry(chunk) == Entry(Data(chunk), |chunk|)
  {
  }

  lemma Started(s: seq<byte>)
    ensures Content([], 0) == s[..0]
  {
  }

  lemma EndRange(c: Cdc.Cutter, s: seq<byte>, at: nat)
    requires at <= |s|
    ensures at <= Cdc.EndOf(c, s, at) <= |s| && (at < |s| ==> at < Cdc.EndOf(c, s, at))
  {
  }

  // Every level is open to take a chunk.
  lemma OpenAll(levels: seq<Level>, bytes: seq<byte>)
    requires LevelsOk(levels) && Linked(levels, 0) && bytes != []
    ensures EmptyBelow(levels, 0) && LinkedBut(levels, 0, 0, Children(Data(bytes)))
            && EntryOk(Entry(Data(bytes), |bytes|), 0)
    ensures Bytes(Data(bytes), 0) == bytes
  {
    hide LevelsOk, Link;
  }
}
