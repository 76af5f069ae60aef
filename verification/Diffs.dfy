/** The diff of two trees: two cursors walked in key order, climbing past every subtree both share. */
module Diffs {
  import opened Keys
  import opened Nodes
  import opened Basics
  import opened Trees
  import opened Cursors

  datatype Change =
    | Removed(key: Key, from: Value)
    | Added(key: Key, to: Value)
    | Modified(key: Key, from: Value, to: Value)

  ghost predicate AllLeaf(es: seq<Entry>) {
    forall i :: 0 <= i < |es| ==> es[i].Leaf?
  }

  // The changes from one row of leaf entries to another, in key order.
  ghost function DiffOf(from: seq<Entry>, to: seq<Entry>): seq<Change>
    requires AllLeaf(from) && AllLeaf(to)
    decreases |from| + |to|
  {
    if from == [] && to == [] then []
    else if to == [] || (from != [] && Rank(from[0].key) < Rank(to[0].key)) then
      [Removed(from[0].key, from[0].val)] + DiffOf(from[1..], to)
    else if from == [] || Rank(to[0].key) < Rank(from[0].key) then
      [Added(to[0].key, to[0].val)] + DiffOf(from, to[1..])
    else if from[0].val != to[0].val then
      [Modified(to[0].key, from[0].val, to[0].val)] + DiffOf(from[1..], to[1..])
    else DiffOf(from[1..], to[1..])
  }

  // What both rows share at the front makes no change.
  lemma {:induction false} DiffOfCommon(common: seq<Entry>, from: seq<Entry>, to: seq<Entry>)
    requires AllLeaf(common) && AllLeaf(from) && AllLeaf(to)
    ensures DiffOf(common + from, common + to) == DiffOf(from, to)
  {
    if common == [] {
      assert common + from == from && common + to == to;
    } else {
      DropOfAppend(common, from, 1);
      DropOfAppend(common, to, 1);
      DiffOfCommon(common[1..], from, to);
    }
  }

  // What two cursors in the same node, over rows that share pc, have in common.
  lemma ClimbedPast(n: Node, i: nat, pc: seq<Entry>, left: seq<Entry>)
    requires i <= |n.entries| && pc != [] && AllInner(pc) && AllInner(left)
    ensures AllInner((pc + left)[1..]) && AllInner(pc[1..])
    ensures From(n, i, (pc + left)[1..]) == From(n, i, pc[1..]) + Expand(left)
  {
    DropOfAppend(pc, left, 1);
    ExpandAppend(pc[1..], left);
    AppendAssoc(n.entries[i..], Expand(pc[1..]), Expand(left));
  }

  lemma AllInnerAppend(a: seq<Entry>, b: seq<Entry>)
    requires AllInner(a + b)
    ensures AllInner(a)
  {
    assert forall k :: 0 <= k < |a| ==> a[k] == (a + b)[k];
  }

  lemma FromNonEmpty(n: Node, i: nat, after: seq<Entry>)
    requires i < |n.entries| && AllInner(after)
    ensures From(n, i, after) != []
  {
  }

  // Same key and same child, or at the leaves same key and same value.
  predicate EqualItems(level: nat, x: Entry, y: Entry) {
    x.key == y.key && (if level > 0 then x.Inner? && y.Inner? && x.child == y.child
                       else x.Leaf? && y.Leaf? && x.val == y.val)
  }

  lemma EqualItemsMeans(level: nat, x: Entry, y: Entry)
    requires Fits(level, x) && Fits(level, y)
    ensures EqualItems(level, x, y) <==> x == y
  {
  }

  lemma HeadsFit(a: Cursor)
    requires a.Valid() && a.rest != []
    ensures Fits(a.level, a.rest[0]) && a.InRange() && a.n.entries[a.i] == a.rest[0]
    ensures Sorted(a.n.entries)
  {
    a.InRangeMeans();
  }

  // Cursors on the same entry of the same node are at the same position.
  lemma SamePosition(n: Node, i: nat, j: nat)
    requires Sorted(n.entries) && i < |n.entries| && j < |n.entries|
    requires n.entries[i].key == n.entries[j].key
    ensures i == j
  {
  }

  // Both cursors are on the same entry, under the same parent entry.
  ghost predicate Shared(a: Cursor, b: Cursor)
    reads a, b
  {
    a.rest != [] && b.rest != [] && a.rest[0] == b.rest[0]
  }

  lemma SharedMeans(a: Cursor, b: Cursor)
    ensures Shared(a, b) <==> a.rest != [] && b.rest != [] && a.rest[0] == b.rest[0]
  {
  }

  lemma SkippedOn(start: seq<Entry>, common: seq<Entry>, mid: seq<Entry>, more: seq<Entry>, left: seq<Entry>)
    requires start == common + mid && mid == more + left
    ensures start == common + more + left
  {
    AppendAssoc(common, more, left);
  }

  /** Drops a common prefix from what both cursors have left. It is some common prefix, and afterwards the two
      differ at once or one is done. */
  method SkipCommon(a: Cursor, b: Cursor) returns (ghost common: seq<Entry>)
    requires a.Valid() && b.Valid() && a.level == b.level && a.chain !! b.chain
    modifies a.chain, b.chain
    ensures a.Valid() && b.Valid() && !Shared(a, b)
    ensures old(a.rest) == common + a.rest && old(b.rest) == common + b.rest
    decreases a.chain, 2
  {
    hide *;
    common := [];
    var parentsAreNew := true;
    var go := SameItem(a, b);
    while go
      invariant a.Valid() && b.Valid() && (go <==> Shared(a, b))
      invariant old(a.rest) == common + a.rest && old(b.rest) == common + b.rest
      decreases |a.rest|
    {
      ghost var ra, rb := a.rest, b.rest;
      ghost var more;
      more, parentsAreNew := SkipSome(a, b, parentsAreNew);
      SkippedOn(old(a.rest), common, ra, more, a.rest);
      SkippedOn(old(b.rest), common, rb, more, b.rest);
      common := common + more;
      go := SameItem(a, b);
    }
  }

  method SameItem(a: Cursor, b: Cursor) returns (same: bool)
    requires a.Valid() && b.Valid() && a.level == b.level
    ensures same <==> Shared(a, b)
  {
    a.InRangeMeans();
    b.InRangeMeans();
    same := a.InRange() && b.InRange();
    if same {
      HeadsFit(a);
      HeadsFit(b);
      EqualItemsMeans(a.level, a.rest[0], b.rest[0]);
      same := EqualItems(a.level, a.n.entries[a.i], b.n.entries[b.i]);
    }
  }

  // One turn of the loop: a whole shared subtree, or one shared entry.
  method SkipSome(a: Cursor, b: Cursor, tryParents: bool) returns (ghost common: seq<Entry>, parentsAreNew: bool)
    requires a.Valid() && b.Valid() && a.level == b.level && a.chain !! b.chain && Shared(a, b)
    modifies a.chain, b.chain
    ensures a.Valid() && b.Valid() && common != []
    ensures old(a.rest) == common + a.rest && old(b.rest) == common + b.rest
    decreases a.chain, 1
  {
    hide *;
    a.ChainMeans();
    b.ChainMeans();
    SharedMeans(a, b);
    HeadsFit(a);
    HeadsFit(b);
    if tryParents && a.parent != null && b.parent != null {
      var climb := SameItem(a.parent, b.parent);
      if climb {
        common := SkipCommonParents(a, b);
        parentsAreNew := true;
        return;
      }
    }
    parentsAreNew := a.i == |a.n.entries| - 1 || b.i == |b.n.entries| - 1;
    common := [a.rest[0]];
    a.Advance();
    b.Advance();
  }

  // The same, a level up: whole shared subtrees are dropped from both.
  method SkipCommonParents(a: Cursor, b: Cursor) returns (ghost common: seq<Entry>)
    requires a.Valid() && b.Valid() && a.level == b.level && a.chain !! b.chain && Shared(a, b)
    requires a.parent != null && b.parent != null && Shared(a.parent, b.parent)
    modifies a.chain, b.chain
    ensures a.Valid() && b.Valid() && common != []
    ensures old(a.rest) == common + a.rest && old(b.rest) == common + b.rest
    decreases a.chain, 0
  {
    hide *;
    a.ChainMeans();
    b.ChainMeans();
    SharedMeans(a, b);
    SharedMeans(a.parent, b.parent);
    HeadsFit(a);
    HeadsFit(b);
    a.PlaceMeans();
    b.PlaceMeans();
    SamePosition(a.n, a.i, b.i);
    ghost var n, i := a.n, a.i;
    ghost var pc := SkipCommon(a.parent, b.parent);
    SharedMeans(a.parent, b.parent);
    a.LinkUp();
    b.LinkUp();
    a.Follow();
    b.Follow();
    ghost var pa, pb := a.parent.rest, b.parent.rest;
    AllInnerAppend(pc, pa);
    ClimbedPast(n, i, pc, pa);
    ClimbedPast(n, i, pc, pb);
    common := From(n, i, pc[1..]);
    FromNonEmpty(n, i, pc[1..]);
  }

  /******** What a diff reports ********/

  // How one key's entry differs between two rows.
  ghost function ChangeOf(k: Key, f: Option<Entry>, t: Option<Entry>): Option<Change>
    requires (f.Some? ==> f.value.Leaf?) && (t.Some? ==> t.value.Leaf?)
  {
    if f == t then None
    else if t.None? then Some(Removed(k, f.value.val))
    else if f.None? then Some(Added(k, t.value.val))
    else if f.value.val == t.value.val then None
    else Some(Modified(k, f.value.val, t.value.val))
  }

  ghost function Reported(chs: seq<Change>, k: Key): Option<Change> {
    if chs == [] then None else if chs[0].key == k then Some(chs[0]) else Reported(chs[1..], k)
  }

  ghost predicate Ascending(chs: seq<Change>) {
    forall i, j :: 0 <= i < j < |chs| ==> Rank(chs[i].key) < Rank(chs[j].key)
  }

  ghost predicate ChangesAbove(r: real, chs: seq<Change>) {
    forall i :: 0 <= i < |chs| ==> r < Rank(chs[i].key)
  }

  // One step of the zip: entries used on each side, and the change they make.
  ghost predicate ZipStep(from: seq<Entry>, to: seq<Entry>, nf: nat, nt: nat, ch: seq<Change>, k: Key)
    requires AllLeaf(from) && AllLeaf(to)
  {
    && nf <= 1 && nt <= 1 && nf + nt > 0 && nf <= |from| && nt <= |to| && |ch| <= 1
    && (nf == 1 ==> from[0].key == k) && (nt == 1 ==> to[0].key == k)
    && (nf == 0 ==> KeysAbove(Rank(k), from)) && (nt == 0 ==> KeysAbove(Rank(k), to))
    && KeysAbove(Rank(k), from[nf..]) && KeysAbove(Rank(k), to[nt..])
    && Sorted(from[nf..]) && Sorted(to[nt..])
    && ChangeOf(k, if nf == 1 then Some(from[0]) else None, if nt == 1 then Some(to[0]) else None)
       == (if ch == [] then None else Some(ch[0]))
    && (ch != [] ==> ch[0].key == k)
    && DiffOf(from, to) == ch + DiffOf(from[nf..], to[nt..])
  }

  lemma ZipNext(from: seq<Entry>, to: seq<Entry>) returns (nf: nat, nt: nat, ch: seq<Change>, k: Key)
    requires AllLeaf(from) && AllLeaf(to) && Sorted(from) && Sorted(to) && (from != [] || to != [])
    ensures ZipStep(from, to, nf, nt, ch, k)
  {
    if to == [] || (from != [] && Rank(from[0].key) < Rank(to[0].key)) {
      nf, nt, k := 1, 0, from[0].key;
      ch := [Removed(k, from[0].val)];
    } else if from == [] || Rank(to[0].key) < Rank(from[0].key) {
      nf, nt, k := 0, 1, to[0].key;
      ch := [Added(k, to[0].val)];
    } else {
      nf, nt, k := 1, 1, to[0].key;
      ch := if from[0].val != to[0].val then [Modified(k, from[0].val, to[0].val)] else [];
    }
  }

  // The changes come in strictly ascending key order.
  lemma {:induction false} DiffAscending(from: seq<Entry>, to: seq<Entry>, r: real)
    requires AllLeaf(from) && AllLeaf(to) && Sorted(from) && Sorted(to)
    requires KeysAbove(r, from) && KeysAbove(r, to)
    ensures Ascending(DiffOf(from, to)) && ChangesAbove(r, DiffOf(from, to))
    decreases |from| + |to|
  {
    hide *;
    if from != [] || to != [] {
      var nf, nt, ch, k := ZipNext(from, to);
      ZipBounds(from, to, nf, nt, ch, k, r);
      DiffAscending(from[nf..], to[nt..], Rank(k));
      AscendingPush(ch, DiffOf(from[nf..], to[nt..]), k, r);
    } else {
      DiffOfUnfolds(from, to);
      AscendingNone(r);
    }
  }

  lemma ZipBounds(from: seq<Entry>, to: seq<Entry>, nf: nat, nt: nat, ch: seq<Change>, k: Key, r: real)
    requires AllLeaf(from) && AllLeaf(to) && ZipStep(from, to, nf, nt, ch, k)
    requires KeysAbove(r, from) && KeysAbove(r, to)
    ensures nf <= |from| && nt <= |to| && nf + nt > 0 && AllLeaf(from[nf..]) && AllLeaf(to[nt..])
    ensures Sorted(from[nf..]) && Sorted(to[nt..])
    ensures KeysAbove(Rank(k), from[nf..]) && KeysAbove(Rank(k), to[nt..])
    ensures r < Rank(k) && |ch| <= 1 && (ch != [] ==> ch[0].key == k)
    ensures DiffOf(from, to) == ch + DiffOf(from[nf..], to[nt..])
  {
    hide DiffOf, Sorted;
  }

  lemma AscendingNone(r: real)
    ensures Ascending([]) && ChangesAbove(r, [])
  {
  }

  lemma AscendingPush(ch: seq<Change>, chs: seq<Change>, k: Key, r: real)
    requires |ch| <= 1 && (ch != [] ==> ch[0].key == k) && r < Rank(k)
    requires Ascending(chs) && ChangesAbove(Rank(k), chs)
    ensures Ascending(ch + chs) && ChangesAbove(r, ch + chs)
  {
  }

  // Each key is reported exactly when its value differs, with the kind and the values it differs by.
  lemma {:induction false} DiffReports(from: seq<Entry>, to: seq<Entry>, k: Key)
    requires AllLeaf(from) && AllLeaf(to) && Sorted(from) && Sorted(to)
    ensures Reported(DiffOf(from, to), k) == ChangeOf(k, Lookup(from, k), Lookup(to, k))
    decreases |from| + |to|
  {
    if from != [] || to != [] {
      var nf, nt, ch, key := ZipNext(from, to);
      DiffReports(from[nf..], to[nt..], k);
      ReportedPush(ch, DiffOf(from[nf..], to[nt..]), k);
      if k == key {
        LookupBelow(from[nf..], k);
        LookupBelow(to[nt..], k);
      }
    }
  }

  lemma ReportedPush(ch: seq<Change>, chs: seq<Change>, k: Key)
    requires |ch| <= 1
    ensures Reported(ch + chs, k) == if ch != [] && ch[0].key == k then Some(ch[0]) else Reported(chs, k)
  {
    if ch == [] {
      assert ch + chs == chs;
    } else {
      assert (ch + chs)[1..] == chs;
    }
  }

  /******** The iterator ********/

  lemma CursorLeaf(c: Cursor)
    requires c.Valid() && c.level == 0
    ensures AllLeaf(c.rest) && Sorted(c.rest)
  {
    assert forall i :: 0 <= i < |c.rest| ==> Fits(0, c.rest[i]);
  }

  class DiffIter {
    const from: Cursor?
    const to: Cursor?
    // Every cursor the diff moves.
    ghost const repr: set<Cursor>

    ghost predicate Valid()
      reads repr
    {
      && (from == null <==> to == null)
      && (from != null && to != null ==>
            repr == from.chain + {from} + to.chain + {to} && from.Valid() && to.Valid() && from.level == 0
              && to.level == 0 && from.chain !! to.chain)
    }

    // The changes still to come.
    ghost function Left(): seq<Change>
      requires Valid()
      reads repr
    {
      if from == null || to == null then []
      else
        CursorLeaf(from); CursorLeaf(to);
        DiffOf(from.rest, to.rest)
    }

    constructor (from: Cursor?, to: Cursor?)
      requires from == null <==> to == null
      requires from != null && to != null ==>
                 from.Valid() && to.Valid() && from.level == 0 && to.level == 0 && from.chain !! to.chain
      ensures Valid() && this.from == from && this.to == to
      ensures from == null || to == null ==> repr == {}
      ensures from != null && to != null ==> repr == from.chain + {from} + to.chain + {to}
    {
      this.from, this.to := from, to;
      repr := if from == null || to == null then {} else from.chain + {from} + to.chain + {to};
    }

    lemma Means()
      requires Valid() && from != null
      ensures to != null && from.Valid() && to.Valid() && from.level == 0 && to.level == 0
      ensures from in from.chain && to in to.chain && from.chain !! to.chain
      ensures repr == from.chain + to.chain
      ensures AllLeaf(from.rest) && AllLeaf(to.rest) && Left() == DiffOf(from.rest, to.rest)
      ensures from.InRange() <==> from.rest != []
      ensures from.rest != [] ==> from.i < |from.n.entries| && from.rest[0] == from.n.entries[from.i]
      ensures to.InRange() <==> to.rest != []
      ensures to.rest != [] ==> to.i < |to.n.entries| && to.rest[0] == to.n.entries[to.i]
    {
      from.ChainMeans();
      to.ChainMeans();
      CursorLeaf(from);
      CursorLeaf(to);
      from.InRangeMeans();
      to.InRangeMeans();
    }

    lemma NullMeans()
      requires Valid() && from == null
      ensures Left() == []
    {
    }

    lemma ValidIntro()
      requires from != null && to != null && from in from.chain && to in to.chain && repr == from.chain + to.chain
      requires from.Valid() && to.Valid() && from.level == 0 && to.level == 0 && from.chain !! to.chain
      ensures Valid()
    {
    }

    // The next change, or none at the end.
    method Next() returns (ch: Option<Change>)
      requires Valid()
      modifies repr
      ensures Valid()
      ensures old(Left()) == [] ==> ch == None && Left() == []
      ensures old(Left()) != [] ==> ch == Some(old(Left())[0]) && Left() == old(Left())[1..]
    {
      hide *;
      if from == null {
        NullMeans();
        return None;
      }
      var more := true;
      ch := None;
      while more
        invariant Valid()
        invariant more ==> ch == None && Left() == old(Left())
        invariant !more ==> old(Left()) == [] ==> ch == None && Left() == []
        invariant !more ==> old(Left()) != [] ==> ch == Some(old(Left())[0]) && Left() == old(Left())[1..]
        decreases more, |from.rest|
      {
        more, ch := Turn();
      }
    }

    // One turn of the loop: a change, the end, or equal entries passed with all they share after them.
    method Turn() returns (more: bool, ch: Option<Change>)
      requires Valid() && from != null
      modifies repr
      ensures Valid()
      ensures more ==> ch == None && Left() == old(Left()) && |from.rest| < |old(from.rest)|
      ensures !more && old(Left()) == [] ==> ch == None && Left() == []
      ensures !more && old(Left()) != [] ==> ch == Some(old(Left())[0]) && Left() == old(Left())[1..]
    {
      hide *;
      Means();
      var fv, tv := from.InRange(), to.InRange();
      if !fv && !tv {
        DiffOfUnfolds(from.rest, to.rest);
        return false, None;
      }
      var cmp := 0;
      if !tv {
        cmp := -1;
      } else if !fv {
        cmp := 1;
      } else {
        cmp := Compare(from.n.entries[from.i].key, to.n.entries[to.i].key);
      }
      DiffOfUnfolds(from.rest, to.rest);
      if cmp < 0 {
        var e := from.n.entries[from.i];
        from.Advance();
        ch := Some(Removed(e.key, e.val));
        more := false;
      } else if cmp > 0 {
        var e := to.n.entries[to.i];
        to.Advance();
        ch := Some(Added(e.key, e.val));
        more := false;
      } else {
        var f, t := from.n.entries[from.i], to.n.entries[to.i];
        from.Advance();
        to.Advance();
        if f.val != t.val {
          ch := Some(Modified(t.key, f.val, t.val));
          more := false;
        } else {
          ghost var rf, rt := from.rest, to.rest;
          ValidIntro();
          Means();
          ghost var common := SkipCommon(from, to);
          ValidIntro();
          Means();
          AllLeafAppend(common, from.rest);
          DiffOfCommon(common, from.rest, to.rest);
          more, ch := true, None;
        }
      }
      ValidIntro();
      Means();
    }
  }

  lemma AllLeafAppend(a: seq<Entry>, b: seq<Entry>)
    requires AllLeaf(a + b)
    ensures AllLeaf(a)
  {
    assert forall i :: 0 <= i < |a| ==> a[i] == (a + b)[i];
  }

  lemma DiffOfUnfolds(from: seq<Entry>, to: seq<Entry>)
    requires AllLeaf(from) && AllLeaf(to)
    ensures from != [] ==> from[0].Leaf? && AllLeaf(from[1..])
    ensures to != [] ==> to[0].Leaf? && AllLeaf(to[1..])
    ensures from == [] && to == [] ==> DiffOf(from, to) == []
    ensures from != [] && (to == [] || Rank(from[0].key) < Rank(to[0].key)) ==>
              DiffOf(from, to) == [Removed(from[0].key, from[0].val)] + DiffOf(from[1..], to)
    ensures to != [] && (from == [] || Rank(to[0].key) < Rank(from[0].key)) ==>
              DiffOf(from, to) == [Added(to[0].key, to[0].val)] + DiffOf(from, to[1..])
    ensures from != [] && to != [] && from[0].key == to[0].key ==>
              DiffOf(from, to) ==
              (if from[0].val != to[0].val then [Modified(to[0].key, from[0].val, to[0].val)] else [])
              + DiffOf(from[1..], to[1..])
  {
  }

  lemma RowLeaf(root: Node)
    requires Good(root)
    ensures AllLeaf(LeafRow(root)) && Sorted(LeafRow(root))
  {
    assert forall i :: 0 <= i < |LeafRow(root)| ==> Fits(0, LeafRow(root)[i]);
  }

  /** An iterator whose remaining changes are all those between the two trees; none when the roots are equal. */
  method Diff(from: Node, to: Node) returns (d: DiffIter)
    requires Good(from) && Good(to)
    ensures fresh(d) && fresh(d.repr) && d.Valid()
    ensures AllLeaf(LeafRow(from)) && AllLeaf(LeafRow(to))
    ensures d.Left() == DiffOf(LeafRow(from), LeafRow(to))
  {
    RowLeaf(from);
    RowLeaf(to);
    if from == to {
      d := new DiffIter(null, null);
      assert LeafRow(from) + [] == LeafRow(from);
      DiffOfCommon(LeafRow(from), [], []);
      return;
    }
    hide *;
    var f := SeekFirst(from);
    var t := SeekFirst(to);
    d := new DiffIter(f, t);
    d.Means();
  }
}
