/** Edits to a sorted run of entries: what merging them in means, and the edits one level up that
    turn the names of the old nodes into the names of the new ones. */
module Edits {
  import opened Keys
  import opened Nodes
  import opened Basics

  datatype Edit = Put(e: Entry) | Delete(k: Key)
  {
    function At(): Key {
      if Put? then e.key else k
    }

    function Written(): seq<Entry> {
      if Put? then [e] else []
    }
  }

  ghost predicate SortedEdits(eds: seq<Edit>) {
    forall i, j :: 0 <= i < j < |eds| ==> Rank(eds[i].At()) < Rank(eds[j].At())
  }

  ghost predicate EditsFit(level: nat, eds: seq<Edit>) {
    forall i :: 0 <= i < |eds| && eds[i].Put? ==> Fits(level, eds[i].e)
  }

  /** One step of the merge: entries and edits used, the key they share, and what is written. */
  datatype Move = Move(entries: nat, edits: nat, key: Key, written: seq<Entry>)

  ghost function Next(run: seq<Entry>, eds: seq<Edit>): (m: Move)
    requires run != [] || eds != []
    ensures m.entries <= |run| && m.edits <= |eds| && m.entries + m.edits > 0
  {
    if eds == [] || (run != [] && Rank(run[0].key) < Rank(eds[0].At())) then Move(1, 0, run[0].key, [run[0]])
    else Move(if run != [] && run[0].key == eds[0].At() then 1 else 0, 1, eds[0].At(), eds[0].Written())
  }

  // The entries of run with the edits applied, in key order.
  ghost function Merged(run: seq<Entry>, eds: seq<Edit>): seq<Entry>
    decreases |run| + |eds|
  {
    if run == [] && eds == [] then []
    else var m := Next(run, eds); m.written + Merged(run[m.entries..], eds[m.edits..])
  }

  lemma {:induction false} MergedNothing(run: seq<Entry>)
    ensures Merged(run, []) == run
  {
    if run != [] {
      MergedNothing(run[1..]);
    }
  }

  ghost predicate EditsBefore(eds: seq<Edit>, es: seq<Entry>) {
    forall i, j :: 0 <= i < |eds| && 0 <= j < |es| ==> Rank(eds[i].At()) < Rank(es[j].key)
  }

  ghost predicate BeforeEdits(es: seq<Entry>, eds: seq<Edit>) {
    forall i, j :: 0 <= i < |es| && 0 <= j < |eds| ==> Rank(es[i].key) < Rank(eds[j].At())
  }

  lemma NextAppend(run1: seq<Entry>, run2: seq<Entry>, ed1: seq<Edit>, ed2: seq<Edit>)
    requires EditsBefore(ed1, run2) && BeforeEdits(run1, ed2)
    requires run1 != [] || ed1 != []
    ensures Next(run1 + run2, ed1 + ed2) == Next(run1, ed1)
  {
  }

  // Edits split where the run splits.
  lemma {:induction false} MergedAppend(run1: seq<Entry>, run2: seq<Entry>, ed1: seq<Edit>, ed2: seq<Edit>)
    requires EditsBefore(ed1, run2) && BeforeEdits(run1, ed2)
    ensures Merged(run1 + run2, ed1 + ed2) == Merged(run1, ed1) + Merged(run2, ed2)
    decreases |run1| + |ed1|
  {
    if run1 == [] && ed1 == [] {
      assert run1 + run2 == run2 && ed1 + ed2 == ed2;
    } else {
      var m := Next(run1, ed1);
      NextAppend(run1, run2, ed1, ed2);
      var run1', ed1' := run1[m.entries..], ed1[m.edits..];
      MergedAppend(run1', run2, ed1', ed2);
      DropOfAppend(run1, run2, m.entries);
      DropOfAppend(ed1, ed2, m.edits);
      AppendAssoc(m.written, Merged(run1', ed1'), Merged(run2, ed2));
    }
  }

  ghost predicate EditsAbove(r: real, eds: seq<Edit>) {
    forall i :: 0 <= i < |eds| ==> r < Rank(eds[i].At())
  }

  lemma NextBelow(run: seq<Entry>, eds: seq<Edit>)
    requires Sorted(run) && SortedEdits(eds) && (run != [] || eds != [])
    ensures var m := Next(run, eds); 
            && Sorted(run[m.entries..]) && SortedEdits(eds[m.edits..])
            && KeysAbove(Rank(m.key), run[m.entries..]) && EditsAbove(Rank(m.key), eds[m.edits..])
    ensures var m := Next(run, eds); |m.written| <= 1 && forall e :: e in m.written ==> e.key == m.key
  {
  }

  lemma SortedPush(w: seq<Entry>, es: seq<Entry>, k: Key)
    requires |w| <= 1 && (w != [] ==> w[0].key == k)
    requires Sorted(es) && KeysAbove(Rank(k), es)
    ensures Sorted(w + es)
  {
  }

  lemma {:induction false} MergedSorted(run: seq<Entry>, eds: seq<Edit>, r: real)
    requires Sorted(run) && SortedEdits(eds)
    requires KeysAbove(r, run) && EditsAbove(r, eds)
    ensures Sorted(Merged(run, eds)) && KeysAbove(r, Merged(run, eds))
    decreases |run| + |eds|
  {
    if run != [] || eds != [] {
      var m := Next(run, eds);
      NextBelow(run, eds);
      MergedSorted(run[m.entries..], eds[m.edits..], Rank(m.key));
      SortedPush(m.written, Merged(run[m.entries..], eds[m.edits..]), m.key);
    }
  }

  // The edit that names k.
  ghost function EditOf(eds: seq<Edit>, k: Key): (o: Option<Edit>)
    ensures o.Some? ==> o.value.At() == k
  {
    if eds == [] then None else if eds[0].At() == k then Some(eds[0]) else EditOf(eds[1..], k)
  }

  lemma {:induction false} EditOfBelow(eds: seq<Edit>, k: Key)
    requires EditsAbove(Rank(k), eds)
    ensures EditOf(eds, k) == None
  {
    if eds != [] {
      EditOfBelow(eds[1..], k);
    }
  }

  lemma LookupPush(w: seq<Entry>, es: seq<Entry>, k: Key)
    requires |w| <= 1
    ensures Lookup(w + es, k) == if w != [] && w[0].key == k then Some(w[0]) else Lookup(es, k)
  {
    if w == [] {
      assert w + es == es;
    } else {
      assert (w + es)[1..] == es;
    }
  }

  // What a run holds under k after an edit.
  ghost function After(was: Option<Entry>, ed: Option<Edit>): Option<Entry> {
    if ed.None? then was else if ed.value.Put? then Some(ed.value.e) else None
  }

  // The merged run holds, under every key, what the key's edit leaves there.
  lemma {:induction false} MergedLookup(run: seq<Entry>, eds: seq<Edit>, k: Key)
    requires Sorted(run) && SortedEdits(eds)
    ensures Lookup(Merged(run, eds), k) == After(Lookup(run, k), EditOf(eds, k))
    decreases |run| + |eds|
  {
    if run != [] || eds != [] {
      NextBelow(run, eds);
      var m := Next(run, eds);
      var run', eds' := run[m.entries..], eds[m.edits..];
      if k == m.key {
        LookupBelow(run', k);
        EditOfBelow(eds', k);
      }
      hide Sorted, SortedEdits, KeysAbove, EditsAbove;
      MergedLookup(run', eds', k);
      LookupPush(m.written, Merged(run', eds'), k);
    }
  }

  lemma {:induction false} MergedFits(level: nat, run: seq<Entry>, eds: seq<Edit>)
    requires AllFit(level, run) && EditsFit(level, eds)
    ensures AllFit(level, Merged(run, eds))
    decreases |run| + |eds|
  {
    if run != [] || eds != [] {
      var m := Next(run, eds);
      MergedFits(level, run[m.entries..], eds[m.edits..]);
    }
  }

  /******** What a merge logs ********/

  // Keys at which applying the edits makes a difference, ascending.
  ghost function Logged(run: seq<Entry>, eds: seq<Edit>): seq<Key>
    decreases |run| + |eds|
  {
    if run == [] && eds == [] then []
    else
      var m := Next(run, eds);
      (if m.written != run[..m.entries] then [m.key] else []) + Logged(run[m.entries..], eds[m.edits..])
  }

  lemma {:induction false} LoggedNothing(run: seq<Entry>)
    ensures Logged(run, []) == []
  {
    if run != [] {
      LoggedNothing(run[1..]);
    }
  }

  lemma {:induction false} LoggedAppend(run1: seq<Entry>, run2: seq<Entry>, ed1: seq<Edit>, ed2: seq<Edit>)
    requires EditsBefore(ed1, run2) && BeforeEdits(run1, ed2)
    ensures Logged(run1 + run2, ed1 + ed2) == Logged(run1, ed1) + Logged(run2, ed2)
    decreases |run1| + |ed1|
  {
    if run1 == [] && ed1 == [] {
      assert run1 + run2 == run2 && ed1 + ed2 == ed2;
    } else {
      var m := Next(run1, ed1);
      NextAppend(run1, run2, ed1, ed2);
      var run1', ed1' := run1[m.entries..], ed1[m.edits..];
      LoggedAppend(run1', run2, ed1', ed2);
      DropOfAppend(run1, run2, m.entries);
      TakeOfAppend(run1, run2, m.entries);
      DropOfAppend(ed1, ed2, m.edits);
      AppendAssoc(if m.written != run1[..m.entries] then [m.key] else [], Logged(run1', ed1'), Logged(run2, ed2));
    }
  }

  /******** Cutting runs and edits at a key ********/

  ghost predicate KeysUpTo(r: real, es: seq<Entry>) {
    forall i :: 0 <= i < |es| ==> Rank(es[i].key) <= r
  }

  ghost predicate EditsUpTo(r: real, eds: seq<Edit>) {
    forall i :: 0 <= i < |eds| ==> Rank(eds[i].At()) <= r
  }

  // A run and its edits cut at one place merge, and log, on either side of it.
  lemma MergedCut(run1: seq<Entry>, run2: seq<Entry>, ed1: seq<Edit>, ed2: seq<Edit>, cut: real)
    requires KeysUpTo(cut, run1) && KeysAbove(cut, run2) && EditsUpTo(cut, ed1) && EditsAbove(cut, ed2)
    ensures Merged(run1 + run2, ed1 + ed2) == Merged(run1, ed1) + Merged(run2, ed2)
    ensures Logged(run1 + run2, ed1 + ed2) == Logged(run1, ed1) + Logged(run2, ed2)
  {
    MergedAppend(run1, run2, ed1, ed2);
    LoggedAppend(run1, run2, ed1, ed2);
  }

  // With no edits past the cut, the run past it is kept as it is.
  lemma MergedCutRest(run1: seq<Entry>, run2: seq<Entry>, eds: seq<Edit>, cut: real)
    requires KeysUpTo(cut, run1) && KeysAbove(cut, run2) && EditsUpTo(cut, eds)
    ensures Merged(run1 + run2, eds) == Merged(run1, eds) + run2
    ensures Logged(run1 + run2, eds) == Logged(run1, eds)
  {
    MergedCut(run1, run2, eds, [], cut);
    MergedNothing(run2);
    LoggedNothing(run2);
    assert eds + [] == eds;
    assert Logged(run1, eds) + [] == Logged(run1, eds);
  }

  lemma {:induction false} MergedRange(run: seq<Entry>, eds: seq<Edit>, low: real, high: real)
    requires KeysAbove(low, run) && EditsAbove(low, eds)
    ensures KeysAbove(low, Merged(run, eds))
    ensures KeysUpTo(high, run) && EditsUpTo(high, eds) ==> KeysUpTo(high, Merged(run, eds))
    decreases |run| + |eds|
  {
    if run != [] || eds != [] {
      var m := Next(run, eds);
      MergedRange(run[m.entries..], eds[m.edits..], low, high);
    }
  }

  /******** Edits a level up ********/

  /** One step of pairing the nodes removed with the nodes added: how many of each, their key, and the
      edit they make, if any. */
  datatype Swap = Swap(removed: nat, added: nat, key: Key, edit: seq<Edit>)

  ghost function NextSwap(removed: seq<Entry>, added: seq<Entry>): (s: Swap)
    requires removed != [] || added != []
    ensures s.removed <= |removed| && s.added <= |added| && s.removed + s.added > 0
  {
    if added == [] || (removed != [] && Rank(removed[0].key) < Rank(added[0].key)) then
      Swap(1, 0, removed[0].key, [Delete(removed[0].key)])
    else if removed == [] || Rank(removed[0].key) > Rank(added[0].key) then
      Swap(0, 1, added[0].key, [Put(added[0])])
    else Swap(1, 1, added[0].key, if removed[0] != added[0] then [Put(added[0])] else [])
  }

  // The edits that turn the entries removed into the entries added, both in key order.
  ghost function Replaced(removed: seq<Entry>, added: seq<Entry>): seq<Edit>
    decreases |removed| + |added|
  {
    if removed == [] && added == [] then []
    else var s := NextSwap(removed, added); s.edit + Replaced(removed[s.removed..], added[s.added..])
  }

  lemma ReplacedUnfolds(removed: seq<Entry>, added: seq<Entry>)
    ensures removed == [] && added == [] ==> Replaced(removed, added) == []
    ensures removed != [] || added != [] ==>
              var s := NextSwap(removed, added);
              Replaced(removed, added) == s.edit + Replaced(removed[s.removed..], added[s.added..])
  {
  }

  lemma SwapBelow(removed: seq<Entry>, added: seq<Entry>)
    requires Sorted(removed) && Sorted(added) && (removed != [] || added != [])
    ensures var s := NextSwap(removed, added);
            && Sorted(removed[s.removed..]) && Sorted(added[s.added..])
            && KeysAbove(Rank(s.key), removed[s.removed..]) && KeysAbove(Rank(s.key), added[s.added..])
    ensures var s := NextSwap(removed, added);
            |s.edit| <= 1 && (s.edit != [] ==> s.edit[0].At() == s.key)
    ensures var s := NextSwap(removed, added);
            && s.removed <= 1 && s.added <= 1
            && (s.removed == 1 ==> removed[0].key == s.key) && (s.added == 1 ==> added[0].key == s.key)
    ensures var s := NextSwap(removed, added);
            if s.edit == [] then s.removed == 1 && s.added == 1 && removed[0] == added[0]
            else s.edit[0].Written() == added[..s.added]
  {
  }

  lemma EditsPush(ed: seq<Edit>, eds: seq<Edit>, k: Key)
    requires |ed| <= 1 && (ed != [] ==> ed[0].At() == k)
    requires SortedEdits(eds) && EditsAbove(Rank(k), eds)
    ensures SortedEdits(ed + eds)
  {
  }

  lemma {:induction false} ReplacedSorted(removed: seq<Entry>, added: seq<Entry>, r: real)
    requires Sorted(removed) && Sorted(added) && KeysAbove(r, removed) && KeysAbove(r, added)
    ensures SortedEdits(Replaced(removed, added)) && EditsAbove(r, Replaced(removed, added))
    decreases |removed| + |added|
  {
    if removed != [] || added != [] {
      SwapBelow(removed, added);
      var s := NextSwap(removed, added);
      ReplacedSorted(removed[s.removed..], added[s.added..], Rank(s.key));
      EditsPush(s.edit, Replaced(removed[s.removed..], added[s.added..]), s.key);
    }
  }

  // An edit ahead of every entry, or on the first, writes its own entry first.
  lemma MergedFirstEdit(run: seq<Entry>, ed: Edit, eds: seq<Edit>, n: nat)
    requires n <= 1 && n <= |run|
    requires if n == 1 then run[0].key == ed.At() else KeysAbove(Rank(ed.At()), run)
    ensures Merged(run, [ed] + eds) == ed.Written() + Merged(run[n..], eds)
  {
    assert ([ed] + eds)[1..] == eds;
    assert n == 0 ==> run[n..] == run;
    assert Next(run, [ed] + eds) == Move(n, 1, ed.At(), ed.Written());
  }

  lemma MergedFirstEntry(run: seq<Entry>, eds: seq<Edit>)
    requires run != [] && EditsAbove(Rank(run[0].key), eds)
    ensures Merged(run, eds) == [run[0]] + Merged(run[1..], eds)
  {
    assert eds[0..] == eds;
    assert Next(run, eds) == Move(1, 0, run[0].key, [run[0]]);
  }

  // Applied to the entries removed, the edits give exactly the entries added.
  lemma {:induction false} ReplacedMerges(removed: seq<Entry>, added: seq<Entry>)
    requires Sorted(removed) && Sorted(added)
    ensures Merged(removed, Replaced(removed, added)) == added
    decreases |removed| + |added|
  {
    hide *;
    ReplacedUnfolds(removed, added);
    MergedNothing([]);
    if removed != [] || added != [] {
      SwapBelow(removed, added);
      var s := NextSwap(removed, added);
      var rest, more := removed[s.removed..], added[s.added..];
      ReplacedMerges(rest, more);
      ReplacedSorted(rest, more, Rank(s.key));
      TakeDrop(added, s.added);
      if s.edit == [] {
        MergedFirstEntry(removed, Replaced(rest, more));
        assert s.edit + Replaced(rest, more) == Replaced(rest, more);
        assert added[..1] == [added[0]];
      } else {
        MergedFirstEdit(removed, s.edit[0], Replaced(rest, more), s.removed);
        assert s.edit == [s.edit[0]];
      }
    }
  }

  lemma {:induction false} ReplacedRange(removed: seq<Entry>, added: seq<Entry>, low: real, high: real)
    requires KeysAbove(low, removed) && KeysAbove(low, added)
    ensures EditsAbove(low, Replaced(removed, added))
    ensures KeysUpTo(high, removed) && KeysUpTo(high, added) ==> EditsUpTo(high, Replaced(removed, added))
    decreases |removed| + |added|
  {
    hide *;
    ReplacedUnfolds(removed, added);
    if removed != [] || added != [] {
      var s := NextSwap(removed, added);
      SwapRange(removed, added, low, high);
      ReplacedRange(removed[s.removed..], added[s.added..], low, high);
      EditsRange(s.edit, Replaced(removed[s.removed..], added[s.added..]), low, high);
    } else {
      EditsRange([], [], low, high);
    }
  }

  lemma SwapRange(removed: seq<Entry>, added: seq<Entry>, low: real, high: real)
    requires KeysAbove(low, removed) && KeysAbove(low, added) && (removed != [] || added != [])
    ensures var s := NextSwap(removed, added);
            && KeysAbove(low, removed[s.removed..]) && KeysAbove(low, added[s.added..])
            && (forall i :: 0 <= i < |s.edit| ==> low < Rank(s.edit[i].At()))
    ensures KeysUpTo(high, removed) && KeysUpTo(high, added) ==>
              var s := NextSwap(removed, added);
              && KeysUpTo(high, removed[s.removed..]) && KeysUpTo(high, added[s.added..])
              && (forall i :: 0 <= i < |s.edit| ==> Rank(s.edit[i].At()) <= high)
  {
  }

  lemma EditsRange(a: seq<Edit>, b: seq<Edit>, low: real, high: real)
    ensures (forall i :: 0 <= i < |a| ==> low < Rank(a[i].At())) && EditsAbove(low, b) ==> EditsAbove(low, a + b)
    ensures (forall i :: 0 <= i < |a| ==> Rank(a[i].At()) <= high) && EditsUpTo(high, b) ==> EditsUpTo(high, a + b)
    ensures EditsAbove(low, []) && EditsUpTo(high, [])
  {
  }

  lemma {:induction false} ReplacedFits(level: nat, removed: seq<Entry>, added: seq<Entry>)
    requires AllFit(level, added)
    ensures EditsFit(level, Replaced(removed, added))
    decreases |removed| + |added|
  {
    if removed != [] || added != [] {
      var s := NextSwap(removed, added);
      ReplacedFits(level, removed[s.removed..], added[s.added..]);
    }
  }

  /** The least edits that take one list of names to another: applied to removed they give added, and none of
      them sets a name to what it already is. */
  method Replace(removed: seq<Entry>, added: seq<Entry>) returns (out: seq<Edit>)
    requires forall i :: 0 <= i < |removed| ==> removed[i].Inner?
    requires forall i :: 0 <= i < |added| ==> added[i].Inner?
    ensures out == Replaced(removed, added)
  {
    hide *;
    out := [];
    var i, j := 0, 0;
    assert removed[0..] == removed && added[0..] == added;
    while i < |removed| || j < |added|
      invariant i <= |removed| && j <= |added|
      invariant Replaced(removed, added) == out + Replaced(removed[i..], added[j..])
      decreases |removed| - i + |added| - j
    {
      var cmp := 0;
      if j == |added| {
        cmp := -1;
      } else if i == |removed| {
        cmp := 1;
      } else {
        cmp := Compare(removed[i].key, added[j].key);
      }
      SwapIs(removed, added, i, j, cmp, out);
      if cmp < 0 {
        out := out + [Delete(removed[i].key)];
        i := i + 1;
      } else if cmp > 0 {
        out := out + [Put(added[j])];
        j := j + 1;
      } else {
        if removed[i].child != added[j].child || removed[i].count != added[j].count {
          out := out + [Put(added[j])];
        }
        i, j := i + 1, j + 1;
      }
    }
    ReplacedUnfolds([], []);
    assert removed[i..] == [] && added[j..] == [];
  }

  // What each comparison makes of the lists still to pair.
  lemma SwapIs(removed: seq<Entry>, added: seq<Entry>, i: nat, j: nat, cmp: int, out: seq<Edit>)
    requires i <= |removed| && j <= |added| && (i < |removed| || j < |added|)
    requires j == |added| ==> cmp < 0
    requires j < |added| && i == |removed| ==> cmp > 0
    requires i < |removed| && j < |added| ==>
               && (cmp < 0 <==> Rank(removed[i].key) < Rank(added[j].key))
               && (cmp > 0 <==> Rank(removed[i].key) > Rank(added[j].key))
    ensures cmp < 0 ==> out + Replaced(removed[i..], added[j..])
                        == out + [Delete(removed[i].key)] + Replaced(removed[i + 1..], added[j..])
    ensures cmp > 0 ==> out + Replaced(removed[i..], added[j..])
                        == out + [Put(added[j])] + Replaced(removed[i..], added[j + 1..])
    ensures cmp == 0 ==> out + Replaced(removed[i..], added[j..])
                         == out + (if removed[i] != added[j] then [Put(added[j])] else [])
                            + Replaced(removed[i + 1..], added[j + 1..])
  {
    var rs, ads := removed[i..], added[j..];
    ReplacedUnfolds(rs, ads);
    var s := NextSwap(rs, ads);
    assert s.removed == (if cmp <= 0 then 1 else 0) && s.added == (if cmp >= 0 then 1 else 0);
    DropTwice(removed, i, s.removed);
    DropTwice(added, j, s.added);
    AppendAssoc(out, s.edit, Replaced(removed[i + s.removed..], added[j + s.added..]));
  }
}
