/** The three-way merge of map-shaped objects: both sides' diffs from the base are zipped in key order, and the
    model decides where they meet. The result is what a table says of each key alone. */
module ObjectMerge {
  import opened Keys
  import opened Basics
  import opened Nodes
  import opened Trees
  import opened Boundary
  import opened Diffs
  import opened Maps
  import NamespaceMerge

  type Act = NamespaceMerge.Act
  type Sides = NamespaceMerge.Sides

  /** What a person is left to settle; none located is at the key itself. */
  datatype Conflict = Conflict(location: Option<seq<byte>>, reason: string)

  datatype Decision = Decision(value: seq<byte>, put: bool, conflicts: seq<Conflict>)

  /** A change with its values read. */
  datatype ByteChange = ByteChange(key: Key, from: Option<seq<byte>>, to: Option<seq<byte>>)

  /** A model's shape: how its map is stored and read, which records are its own, and its decider, which may fail. */
  datatype Spec = Spec(r: Rule, c: Config, load: Value -> Option<seq<byte>>, check: (Key, seq<byte>) -> bool,
                       decide: (Key, ByteChange, ByteChange) -> Option<Decision>)
  {
    // Whether a record may be written.
    predicate CanPut(k: Key, v: seq<byte>) {
      check(k, v) && |k| <= MAX_KEY_SIZE && |v| <= c.Limit()
    }

    function Bytes(v: Option<Value>): Option<seq<byte>> {
      if v.None? then None else load(v.value)
    }

    predicate Readable(v: Option<Value>) {
      v.Some? ==> load(v.value).Some?
    }
  }

  /******** The table ********/

  /** What becomes of a key: the edit made to it, if any, and the conflicts raised; or the merge fails. */
  datatype Fate = Fate(edit: Option<Option<seq<byte>>>, conflicts: seq<Conflict>) | Error

  function Located(k: Key, cs: seq<Conflict>): (r: seq<Conflict>)
    ensures |r| == |cs|
  {
    seq(|cs|, i requires 0 <= i < |cs| => if cs[i].location.None? then cs[i].(location := Some(k)) else cs[i])
  }

  function Written(s: Spec, k: Key, v: seq<byte>, cs: seq<Conflict>): Fate {
    if s.CanPut(k, v) then Fate(Some(Some(v)), cs) else Error
  }

  function BothFate(s: Spec, k: Key, b: Option<seq<byte>>, o: Option<seq<byte>>, t: Option<seq<byte>>): Fate {
    match s.decide(k, ByteChange(k, b, o), ByteChange(k, b, t))
    case None => Error
    case Some(d) =>
      if d.put then Written(s, k, d.value, Located(k, d.conflicts)) else Fate(None, Located(k, d.conflicts))
  }

  function FateOf(s: Spec, k: Key, b: Option<Value>, o: Option<Value>, t: Option<Value>): Fate {
    if ((o != b || t != b) && !s.Readable(b)) || (o != b && !s.Readable(o)) || (t != b && !s.Readable(t)) then Error
    else if t == b then Fate(None, [])
    else if o != b then BothFate(s, k, s.Bytes(b), s.Bytes(o), s.Bytes(t))
    else if t.None? then if |k| <= MAX_KEY_SIZE then Fate(Some(None), []) else Error
    else Written(s, k, s.load(t.value).value, [])
  }

  ghost function FateAt(s: Spec, x: Sides, k: Key): Fate {
    FateOf(s, k, NamespaceMerge.At(x.base, k), NamespaceMerge.At(x.ours, k), NamespaceMerge.At(x.theirs, k))
  }

  // What a fate leaves at a key.
  function Left(s: Spec, f: Fate, o: Option<Value>): Option<Value> {
    if f.Error? || f.edit.None? then o
    else if f.edit.value.None? then None
    else Some(s.c.Stored(f.edit.value.value))
  }

  ghost function AfterAt(s: Spec, x: Sides, k: Key): Option<Value> {
    Left(s, FateAt(s, x, k), NamespaceMerge.At(x.ours, k))
  }

  ghost function MergedMap(s: Spec, x: Sides): map<Key, Value> {
    map k | k in x.base.Keys + x.ours.Keys + x.theirs.Keys && AfterAt(s, x, k).Some? :: AfterAt(s, x, k).value
  }

  // The conflicts of some keys, one key after another.
  ghost function Gathered(s: Spec, x: Sides, ks: seq<Key>): seq<Conflict> {
    if ks == [] then []
    else
      var f := FateAt(s, x, ks[|ks| - 1]);
      Gathered(s, x, ks[..|ks| - 1]) + if f.Error? then [] else f.conflicts
  }

  ghost predicate Contested(s: Spec, x: Sides, k: Key) {
    var f := FateAt(s, x, k);
    f.Fate? && f.conflicts != []
  }

  // The conflicts are those of exactly the contested keys, in key order.
  ghost predicate ConflictsAre(s: Spec, x: Sides, cs: seq<Conflict>) {
    exists ks :: SortedKeys(ks) && (forall k :: k in ks <==> Contested(s, x, k)) && cs == Gathered(s, x, ks)
  }

  /******** What the acts amount to ********/

  function ActFate(s: Spec, a: Act): Fate {
    FateOf(s, a.Key(), a.Base(), a.Ours(), NamespaceMerge.ToOf(a.theirs))
  }

  function Pend1(p: Pending, k: Key, f: Fate): Pending {
    if f.Error? || f.edit.None? then p else p[k := f.edit.value]
  }

  ghost function Pends(s: Spec, acts: seq<Act>): Pending {
    if acts == [] then map[] else Pend1(Pends(s, acts[..|acts| - 1]), acts[|acts| - 1].Key(),
                                        ActFate(s, acts[|acts| - 1]))
  }

  function Clash1(f: Fate): seq<Conflict> {
    if f.Error? then [] else f.conflicts
  }

  ghost function Clashes(s: Spec, acts: seq<Act>): seq<Conflict> {
    if acts == [] then [] else Clashes(s, acts[..|acts| - 1]) + Clash1(ActFate(s, acts[|acts| - 1]))
  }

  lemma FoldsPush(s: Spec, acts: seq<Act>, a: Act)
    ensures Pends(s, acts + [a]) == Pend1(Pends(s, acts), a.Key(), ActFate(s, a))
    ensures Clashes(s, acts + [a]) == Clashes(s, acts) + Clash1(ActFate(s, a))
  {
    assert (acts + [a])[..|acts|] == acts;
  }

  // The acts' fates are the table's.
  lemma ActFates(s: Spec, x: Sides, acts: seq<Act>, k: Key)
    requires NamespaceMerge.Faithful(acts, x, k)
    ensures var a := NamespaceMerge.ActAt(acts, k);
            && (a.Some? ==> ActFate(s, a.value) == FateAt(s, x, k))
            && (a.None? ==> FateAt(s, x, k) in {Fate(None, []), Error})
    ensures AfterAt(s, x, k).Some? ==> k in x.base.Keys + x.ours.Keys + x.theirs.Keys
  {
    hide BothFate, Written;
  }

  ghost function PendingOf(s: Spec, a: Option<Act>): Option<Option<seq<byte>>> {
    if a.None? || ActFate(s, a.value).Error? then None else ActFate(s, a.value).edit
  }

  lemma {:induction false} PendsAt(s: Spec, acts: seq<Act>, k: Key)
    requires NamespaceMerge.ActsAscend(acts)
    ensures NamespaceMerge.PendingAt(Pends(s, acts), k) == PendingOf(s, NamespaceMerge.ActAt(acts, k))
    decreases |acts|
  {
    hide *;
    NothingYet(s, k);
    if acts != [] {
      var init, a := acts[..|acts| - 1], acts[|acts| - 1];
      NamespaceMerge.SnocAscends(acts);
      PendsAt(s, init, k);
      NamespaceMerge.ActAtPush(init, a, k);
      FoldsPush(s, init, a);
      NamespaceMerge.NotYet(init, a);
      PendPush(s, Pends(s, init), NamespaceMerge.ActAt(init, k), a, k);
    }
  }

  lemma NothingYet(s: Spec, k: Key)
    ensures NamespaceMerge.ActAt([], k) == None
    ensures NamespaceMerge.PendingAt(Pends(s, []), k) == PendingOf(s, None) && Disputed(s, []) == []
  {
  }

  lemma PendPush(s: Spec, p: Pending, was: Option<Act>, a: Act, k: Key)
    requires NamespaceMerge.PendingAt(p, k) == PendingOf(s, was) && (a.Key() == k ==> was == None)
    ensures NamespaceMerge.PendingAt(Pend1(p, a.Key(), ActFate(s, a)), k) == PendingOf(s, if a.Key() == k then Some(a)
              else was)
  {
    hide ActFate;
  }

  // Ours with the acts' edits is the table's contents.
  lemma EditedIsMerged(s: Spec, x: Sides, acts: seq<Act>)
    requires NamespaceMerge.ActsAscend(acts) && forall k :: NamespaceMerge.Faithful(acts, x, k)
    ensures Edited(x.ours, Pends(s, acts), s.c) == MergedMap(s, x)
  {
    hide NamespaceMerge.ActsAscend, NamespaceMerge.Faithful, Pends, FateAt;
    var m, m' := Edited(x.ours, Pends(s, acts), s.c), MergedMap(s, x);
    forall k ensures (k in m <==> k in m') && (k in m ==> m[k] == m'[k]) {
      EditedAt(s, x, acts, k);
    }
  }

  lemma EditedAt(s: Spec, x: Sides, acts: seq<Act>, k: Key)
    requires NamespaceMerge.ActsAscend(acts) && NamespaceMerge.Faithful(acts, x, k)
    ensures NamespaceMerge.At(Edited(x.ours, Pends(s, acts), s.c), k) == NamespaceMerge.At(MergedMap(s, x), k)
  {
    PendsAt(s, acts, k);
    ActFates(s, x, acts, k);
    hide Pends, NamespaceMerge.ActAt, NamespaceMerge.Faithful, FateAt, ActFate, NamespaceMerge.ActsAscend;
  }

  // The keys of the acts that raise conflicts.
  ghost function Disputed(s: Spec, acts: seq<Act>): seq<Key> {
    if acts == [] then []
    else
      Disputed(s, acts[..|acts| - 1]) + if Clash1(ActFate(s, acts[|acts| - 1])) == [] then []
        else [acts[|acts| - 1].Key()]
  }

  lemma DisputedPush(s: Spec, acts: seq<Act>, a: Act)
    ensures Disputed(s, acts + [a]) == Disputed(s, acts) + if Clash1(ActFate(s, a)) == [] then [] else [a.Key()]
  {
    assert (acts + [a])[..|acts|] == acts;
  }

  ghost predicate KeysUpTo(ks: seq<Key>, r: real) {
    forall i :: 0 <= i < |ks| ==> Rank(ks[i]) <= r
  }

  lemma {:induction false} DisputedSorted(s: Spec, acts: seq<Act>)
    requires NamespaceMerge.ActsAscend(acts)
    ensures SortedKeys(Disputed(s, acts)) && (acts != [] ==> KeysUpTo(Disputed(s, acts), Rank(acts[|acts| - 1].Key())))
    decreases |acts|
  {
    hide *;
    NothingYet(s, []);
    NoKeys();
    if acts != [] {
      var init, a := acts[..|acts| - 1], acts[|acts| - 1];
      NamespaceMerge.SnocAscends(acts);
      DisputedSorted(s, init);
      DisputedPush(s, init, a);
      if init != [] {
        NamespaceMerge.LastAbove(init, a);
      }
      KeyPush(Disputed(s, init), a.Key(), if init == [] then Rank(a.Key()) - 1.0 else Rank(init[|init| - 1].Key()));
    }
  }

  lemma NoKeys()
    ensures SortedKeys([]) && forall r :: KeysUpTo([], r)
  {
  }

  lemma KeyPush(ks: seq<Key>, k: Key, r: real)
    requires SortedKeys(ks) && KeysUpTo(ks, r) && r < Rank(k)
    ensures SortedKeys(ks + [k]) && KeysUpTo(ks + [k], Rank(k)) && SortedKeys(ks + []) && KeysUpTo(ks + [], Rank(k))
  {
    assert ks + [] == ks;
  }

  lemma {:induction false} DisputedAt(s: Spec, acts: seq<Act>, k: Key)
    requires NamespaceMerge.ActsAscend(acts)
    ensures k in Disputed(s, acts) <==>
            NamespaceMerge.ActAt(acts, k).Some? && Clash1(ActFate(s, NamespaceMerge.ActAt(acts, k).value)) != []
    decreases |acts|
  {
    hide *;
    NothingYet(s, k);
    if acts != [] {
      var init, a := acts[..|acts| - 1], acts[|acts| - 1];
      NamespaceMerge.SnocAscends(acts);
      DisputedAt(s, init, k);
      NamespaceMerge.ActAtPush(init, a, k);
      DisputedPush(s, init, a);
      NamespaceMerge.NotYet(init, a);
    }
  }

  lemma {:induction false} ClashesGathered(s: Spec, x: Sides, acts: seq<Act>)
    requires forall i :: 0 <= i < |acts| ==> ActFate(s, acts[i]) == FateAt(s, x, acts[i].Key())
    ensures Clashes(s, acts) == Gathered(s, x, Disputed(s, acts))
    decreases |acts|
  {
    if acts != [] {
      var init, a := acts[..|acts| - 1], acts[|acts| - 1];
      assert acts == init + [a];
      ClashesGathered(s, x, init);
      DisputedPush(s, init, a);
      FoldsPush(s, init, a);
      var ks := Disputed(s, init);
      assert ks + [] == ks && Clashes(s, init) + [] == Clashes(s, init);
      assert (ks + [a.Key()])[..|ks|] == ks;
      hide Disputed, ActFate, Clashes, FateAt;
    }
  }

  lemma ConflictsExact(s: Spec, x: Sides, acts: seq<Act>)
    requires NamespaceMerge.ActsAscend(acts) && forall k :: NamespaceMerge.Faithful(acts, x, k)
    ensures ConflictsAre(s, x, Clashes(s, acts))
  {
    hide *;
    DisputedSorted(s, acts);
    forall i | 0 <= i < |acts| ensures ActFate(s, acts[i]) == FateAt(s, x, acts[i].Key()) {
      NamespaceMerge.ActAtOf(acts, i);
      ActFates(s, x, acts, acts[i].Key());
    }
    ClashesGathered(s, x, acts);
    forall k ensures k in Disputed(s, acts) <==> Contested(s, x, k) {
      DisputedAt(s, acts, k);
      ActFates(s, x, acts, k);
      ContestedIs(s, x, k, NamespaceMerge.ActAt(acts, k));
    }
    ConflictsAreIs(s, x, Clashes(s, acts), Disputed(s, acts));
  }

  lemma ContestedIs(s: Spec, x: Sides, k: Key, a: Option<Act>)
    requires (a.Some? ==> ActFate(s, a.value) == FateAt(s, x, k))
             && (a.None? ==> FateAt(s, x, k) in {Fate(None, []), Error})
    ensures Contested(s, x, k) <==> a.Some? && Clash1(ActFate(s, a.value)) != []
  {
    hide ActFate, FateAt;
  }

  lemma ConflictsAreIs(s: Spec, x: Sides, cs: seq<Conflict>, ks: seq<Key>)
    requires SortedKeys(ks) && (forall k :: k in ks <==> Contested(s, x, k)) && cs == Gathered(s, x, ks)
    ensures ConflictsAre(s, x, cs)
  {
    hide Contested, Gathered, SortedKeys;
  }

  /******** The zip ********/

  // A change as the zip sees it; none when a value cannot be read.
  function Loaded(s: Spec, ch: Change): Option<ByteChange> {
    var from, to := NamespaceMerge.FromOf(ch), NamespaceMerge.ToOf(ch);
    if s.Readable(from) && s.Readable(to) then Some(ByteChange(ch.key, s.Bytes(from), s.Bytes(to))) else None
  }

  ghost predicate AllLoaded(s: Spec, chs: seq<Change>, n: nat) {
    n <= |chs| && forall i :: 0 <= i < n ==> Loaded(s, chs[i]).Some?
  }

  ghost predicate NoErrors(s: Spec, acts: seq<Act>) {
    forall i :: 0 <= i < |acts| ==> !ActFate(s, acts[i]).Error?
  }

  // The next change of a diff is read, n having been used.
  ghost predicate Reading(s: Spec, chs: seq<Change>, n: nat, c: Option<ByteChange>, left: seq<Change>) {
    && AllLoaded(s, chs, n)
    && (c.None? ==> n == |chs| && left == [])
    && (c.Some? ==> n < |chs| && Loaded(s, chs[n]) == c && left == chs[n + 1..])
  }

  lemma ReadingMeans(s: Spec, chs: seq<Change>, n: nat, c: Option<ByteChange>, left: seq<Change>)
    requires Reading(s, chs, n, c, left)
    ensures n <= |chs| && AllLoaded(s, chs, n) && (c.None? ==> n == |chs|)
    ensures c.Some? ==>
              n < |chs| && Loaded(s, chs[n]) == c && left == chs[n + 1..] && AllLoaded(s, chs, n + 1)
                && c.value.key == chs[n].key
  {
  }

  lemma ReadingIs(s: Spec, chs: seq<Change>, n: nat, c: Option<ByteChange>, left: seq<Change>, left': seq<Change>)
    requires AllLoaded(s, chs, n) && left == chs[n..]
    requires left == [] ==> c.None? && left' == []
    requires left != [] ==> c.Some? && c == Loaded(s, left[0]) && left' == left[1..]
    ensures Reading(s, chs, n, c, left')
  {
    if left != [] {
      DropOne(chs, n);
    }
  }

  method Fetch(s: Spec, d: DiffIter, ghost chs: seq<Change>, ghost n: nat) returns (c: Option<ByteChange>, ok: bool)
    requires d.Valid() && AllLoaded(s, chs, n) && n <= |chs| && d.Left() == chs[n..]
    modifies d.repr
    ensures d.Valid() && (ok ==> Reading(s, chs, n, c, d.Left()))
    ensures !ok ==> !AllLoaded(s, chs, |chs|)
  {
    hide *;
    ghost var left := d.Left();
    var ch := d.Next();
    if ch.None? {
      ReadingIs(s, chs, n, None, left, d.Left());
      return None, true;
    }
    DropOne(chs, n);
    c := Loaded(s, ch.value);
    ok := c.Some?;
    if ok {
      ReadingIs(s, chs, n, c, left, d.Left());
    } else {
      Unread(s, chs, n);
    }
  }

  lemma Unread(s: Spec, chs: seq<Change>, n: nat)
    requires n < |chs| && Loaded(s, chs[n]).None?
    ensures !AllLoaded(s, chs, |chs|)
  {
    hide Loaded;
  }

  /** Edits ours with theirs' changes, gathering conflicts. */
  class Merger {
    const s: Spec
    const ed: Editor
    var conflicts: seq<Conflict>
    ghost var acts: seq<Act>

    ghost predicate Valid()
      reads this, ed
    {
      && ed.Valid() && ed.c == s.c && ed.edits == Pends(s, acts) && conflicts == Clashes(s, acts)
    }

    constructor (s: Spec, ed: Editor)
      requires ed.Valid() && ed.c == s.c && ed.edits == map[]
      ensures Valid() && this.s == s && this.ed == ed && acts == []
    {
      this.s, this.ed, conflicts, acts := s, ed, [], [];
    }

    lemma ValidMeans()
      requires Valid()
      ensures ed.Valid() && ed.c == s.c && ed.edits == Pends(s, acts) && conflicts == Clashes(s, acts)
    {
    }

    lemma ValidIs()
      requires ed.Valid() && ed.c == s.c && ed.edits == Pends(s, acts) && conflicts == Clashes(s, acts)
      ensures Valid()
    {
    }

    // Stores a record the model calls its own.
    method Put(k: Key, v: seq<byte>) returns (ok: bool)
      requires ed.Valid() && ed.c == s.c
      modifies ed`edits
      ensures ed.Valid() && (ok <==> s.CanPut(k, v))
              && ed.edits == if ok then old(ed.edits)[k := Some(v)] else old(ed.edits)
    {
      if !s.check(k, v) {
        return false;
      }
      var err := ed.Put(k, v);
      ok := err.None?;
    }

    // Only theirs changed the key.
    method Take(c: ByteChange, ghost a: Act) returns (ok: bool)
      requires Valid() && a.ours.None? && NamespaceMerge.Genuine(a.theirs) && Loaded(s, a.theirs) == Some(c)
      modifies this, ed`edits
      ensures ok <==> !ActFate(s, a).Error?
      ensures ok ==> Valid() && acts == old(acts) + [a]
    {
      TakeFate(s, a, c);
      hide *;
      ValidMeans();
      FoldsPush(s, acts, a);
      FateFolds(ed.edits, c.key, ActFate(s, a));
      NoClash(conflicts);
      acts := acts + [a];
      if c.to.None? {
        KeyLimit();
        var err := ed.Remove(c.key);
        ok := err.None?;
      } else {
        ok := Put(c.key, c.to.value);
      }
      if ok {
        ValidIs();
      }
    }

    // Both changed the key: its decider answers.
    method Both(o: ByteChange, t: ByteChange, ghost a: Act) returns (ok: bool)
      requires Valid() && NamespaceMerge.Coherent(a) && a.ours.Some?
      requires Loaded(s, a.ours.value) == Some(o) && Loaded(s, a.theirs) == Some(t)
      modifies this, ed`edits
      ensures ok <==> !ActFate(s, a).Error?
      ensures ok ==> Valid() && acts == old(acts) + [a]
    {
      BothIs(s, a, o, t);
      hide *;
      ValidMeans();
      FoldsPush(s, acts, a);
      FateFolds(ed.edits, o.key, ActFate(s, a));
      ghost var was := conflicts;
      var d := s.decide(o.key, o, t);
      if d.None? {
        return false;
      }
      acts := acts + [a];
      conflicts := conflicts + Located(o.key, d.value.conflicts);
      ok := true;
      if d.value.put {
        ok := Put(o.key, d.value.value);
      }
      if ok {
        ValidIs();
      }
    }
  }

  lemma NoClash(cs: seq<Conflict>)
    ensures cs + [] == cs
  {
  }

  lemma KeyLimit()
    ensures MAX_KEY_SIZE == 4096
  {
  }

  // What a fate does to the edits and the conflicts.
  lemma FateFolds(p: Pending, k: Key, f: Fate)
    ensures f.Fate? ==> Pend1(p, k, f) == (if f.edit.None? then p else p[k := f.edit.value]) && Clash1(f) == f.conflicts
  {
  }

  lemma TakeFate(s: Spec, a: Act, c: ByteChange)
    requires a.ours.None? && NamespaceMerge.Genuine(a.theirs) && Loaded(s, a.theirs) == Some(c)
    ensures c.key == a.Key()
    ensures ActFate(s, a) ==
              if c.to.None? then if |c.key| <= MAX_KEY_SIZE then Fate(Some(None), []) else Error
              else if s.CanPut(c.key, c.to.value) then Fate(Some(Some(c.to.value)), []) else Error
  {
  }

  lemma BothIs(s: Spec, a: Act, o: ByteChange, t: ByteChange)
    requires NamespaceMerge.Coherent(a) && a.ours.Some? && Loaded(s, a.ours.value) == Some(o)
             && Loaded(s, a.theirs) == Some(t)
    ensures o.key == a.Key()
    ensures var d := s.decide(o.key, o, t);
            ActFate(s, a) ==
              if d.None? || (d.value.put && !s.CanPut(o.key, d.value.value)) then Error
              else Fate(if d.value.put then Some(Some(d.value.value)) else None, Located(o.key, d.value.conflicts))
  {
  }

  // Why a zip stops short.
  ghost predicate Stuck(s: Spec, o: seq<Change>, t: seq<Change>, all: seq<Act>) {
    !AllLoaded(s, o, |o|) || !AllLoaded(s, t, |t|) || !NoErrors(s, all)
  }

  lemma StuckIs(s: Spec, o: seq<Change>, t: seq<Change>, all: seq<Act>)
    ensures Stuck(s, o, t, all) <==> !AllLoaded(s, o, |o|) || !AllLoaded(s, t, |t|) || !NoErrors(s, all)
  {
  }

  lemma Undecided(s: Spec, all: seq<Act>, a: Act)
    requires a in all && ActFate(s, a).Error?
    ensures !NoErrors(s, all)
  {
    hide ActFate;
  }

  lemma NoErrorsPush(s: Spec, acts: seq<Act>, a: Act)
    requires NoErrors(s, acts) && !ActFate(s, a).Error?
    ensures NoErrors(s, acts + [a])
  {
    hide ActFate;
  }

  /** Where the zip is in both diffs. */
  datatype Place = Place(i: nat, co: Option<ByteChange>, j: nat, ct: Option<ByteChange>)

  ghost predicate Midway(z: Merger, dO: DiffIter, dT: DiffIter, o: seq<Change>, t: seq<Change>, p: Place)
    reads z, z.ed, dO.repr, dT.repr
  {
    && z.Valid() && dO.Valid() && dT.Valid() && dO.repr !! dT.repr
    && Reading(z.s, o, p.i, p.co, dO.Left()) && Reading(z.s, t, p.j, p.ct, dT.Left())
    && NamespaceMerge.Zipped(NamespaceMerge.Zip(o, t), z.acts, o, p.i, t, p.j) && NoErrors(z.s, z.acts)
  }

  lemma MidwayIs(z: Merger, dO: DiffIter, dT: DiffIter, o: seq<Change>, t: seq<Change>, p: Place)
    ensures Midway(z, dO, dT, o, t, p) <==>
            && z.Valid() && dO.Valid() && dT.Valid() && dO.repr !! dT.repr
            && Reading(z.s, o, p.i, p.co, dO.Left()) && Reading(z.s, t, p.j, p.ct, dT.Left())
            && NamespaceMerge.Zipped(NamespaceMerge.Zip(o, t), z.acts, o, p.i, t, p.j) && NoErrors(z.s, z.acts)
  {
    hide Merger.Valid, DiffIter.Valid, DiffIter.Left, Reading, NamespaceMerge.Zipped, NoErrors, NamespaceMerge.Zip;
  }

  lemma MidwayMeans(z: Merger, dO: DiffIter, dT: DiffIter, o: seq<Change>, t: seq<Change>, p: Place)
    requires Midway(z, dO, dT, o, t, p)
    ensures p.i <= |o| && p.j <= |t|
  {
    hide *;
    MidwayIs(z, dO, dT, o, t, p);
    ReadingMeans(z.s, o, p.i, p.co, dO.Left());
    ReadingMeans(z.s, t, p.j, p.ct, dT.Left());
  }

  method PassOurs(z: Merger, dO: DiffIter, dT: DiffIter, ghost o: seq<Change>, ghost t: seq<Change>, p: Place)
    returns (p': Place, ok: bool)
    requires Midway(z, dO, dT, o, t, p) && p.co.Some? && (p.ct.Some? ==> Rank(p.co.value.key) < Rank(p.ct.value.key))
    modifies dO.repr
    ensures if ok then Midway(z, dO, dT, o, t, p') && p'.i == p.i + 1 && p'.j == p.j
            else Stuck(z.s, o, t, NamespaceMerge.Zip(o, t))
  {
    hide *;
    MidwayIs(z, dO, dT, o, t, p);
    ReadingMeans(z.s, o, p.i, p.co, dO.Left());
    ReadingMeans(z.s, t, p.j, p.ct, dT.Left());
    NamespaceMerge.ZippedMeans(NamespaceMerge.Zip(o, t), z.acts, o, p.i, t, p.j);
    StuckIs(z.s, o, t, NamespaceMerge.Zip(o, t));
    var co;
    co, ok := Fetch(z.s, dO, o, p.i + 1);
    p' := Place(p.i + 1, co, p.j, p.ct);
    MidwayIs(z, dO, dT, o, t, p');
  }

  method TakeTheirs(z: Merger, dO: DiffIter, dT: DiffIter, ghost o: seq<Change>, ghost t: seq<Change>, p: Place)
    returns (p': Place, ok: bool)
    requires Midway(z, dO, dT, o, t, p) && p.ct.Some? && (p.co.Some? ==> Rank(p.ct.value.key) < Rank(p.co.value.key))
    requires forall a :: a in NamespaceMerge.Zip(o, t) ==> NamespaceMerge.Coherent(a)
    modifies z, z.ed`edits, dT.repr
    ensures if ok then Midway(z, dO, dT, o, t, p') && p'.i == p.i && p'.j == p.j + 1
            else Stuck(z.s, o, t, NamespaceMerge.Zip(o, t))
  {
    hide *;
    p' := p;
    MidwayIs(z, dO, dT, o, t, p);
    ReadingMeans(z.s, o, p.i, p.co, dO.Left());
    ReadingMeans(z.s, t, p.j, p.ct, dT.Left());
    NamespaceMerge.ZippedMeans(NamespaceMerge.Zip(o, t), z.acts, o, p.i, t, p.j);
    StuckIs(z.s, o, t, NamespaceMerge.Zip(o, t));
    ghost var a, done := NamespaceMerge.Act(None, t[p.j]), z.acts;
    CoherentMeans(a);
    ok := z.Take(p.ct.value, a);
    if !ok {
      Undecided(z.s, NamespaceMerge.Zip(o, t), a);
      return;
    }
    NoErrorsPush(z.s, done, a);
    var ct;
    ct, ok := Fetch(z.s, dT, t, p.j + 1);
    p' := Place(p.i, p.co, p.j + 1, ct);
    MidwayIs(z, dO, dT, o, t, p');
  }

  lemma CoherentMeans(a: Act)
    requires NamespaceMerge.Coherent(a)
    ensures NamespaceMerge.Genuine(a.theirs)
  {
  }

  method DecideBoth(z: Merger, dO: DiffIter, dT: DiffIter, ghost o: seq<Change>, ghost t: seq<Change>, p: Place)
    returns (p': Place, ok: bool)
    requires Midway(z, dO, dT, o, t, p) && p.co.Some? && p.ct.Some? && p.co.value.key == p.ct.value.key
    requires forall a :: a in NamespaceMerge.Zip(o, t) ==> NamespaceMerge.Coherent(a)
    modifies z, z.ed`edits, dO.repr, dT.repr
    ensures if ok then Midway(z, dO, dT, o, t, p') && p'.i == p.i + 1 && p'.j == p.j + 1
            else Stuck(z.s, o, t, NamespaceMerge.Zip(o, t))
  {
    hide *;
    p' := p;
    MidwayIs(z, dO, dT, o, t, p);
    ReadingMeans(z.s, o, p.i, p.co, dO.Left());
    ReadingMeans(z.s, t, p.j, p.ct, dT.Left());
    NamespaceMerge.ZippedMeans(NamespaceMerge.Zip(o, t), z.acts, o, p.i, t, p.j);
    StuckIs(z.s, o, t, NamespaceMerge.Zip(o, t));
    ghost var a, done := NamespaceMerge.Act(Some(o[p.i]), t[p.j]), z.acts;
    ok := z.Both(p.co.value, p.ct.value, a);
    if !ok {
      Undecided(z.s, NamespaceMerge.Zip(o, t), a);
      return;
    }
    NoErrorsPush(z.s, done, a);
    var co, ct;
    co, ok := Fetch(z.s, dO, o, p.i + 1);
    if !ok {
      return;
    }
    ct, ok := Fetch(z.s, dT, t, p.j + 1);
    p' := Place(p.i + 1, co, p.j + 1, ct);
    MidwayIs(z, dO, dT, o, t, p');
  }

  lemma ZipStart(s: Spec, o: seq<Change>, t: seq<Change>)
    ensures NamespaceMerge.Zipped(NamespaceMerge.Zip(o, t), [], o, 0, t, 0) && AllLoaded(s, o, 0) && AllLoaded(s, t, 0)
    ensures NoErrors(s, []) && o[0..] == o && t[0..] == t
  {
  }

  method Start(z: Merger, dO: DiffIter, dT: DiffIter, ghost o: seq<Change>, ghost t: seq<Change>)
    returns (p: Place, ok: bool)
    requires z.Valid() && z.acts == [] && dO.Valid() && dT.Valid() && dO.repr !! dT.repr && dO.Left() == o
             && dT.Left() == t
    modifies dO.repr, dT.repr
    ensures if ok then Midway(z, dO, dT, o, t, p) else Stuck(z.s, o, t, NamespaceMerge.Zip(o, t))
  {
    hide *;
    ZipStart(z.s, o, t);
    StuckIs(z.s, o, t, NamespaceMerge.Zip(o, t));
    p := Place(0, None, 0, None);
    var co, ct;
    co, ok := Fetch(z.s, dO, o, 0);
    if !ok {
      return;
    }
    ct, ok := Fetch(z.s, dT, t, 0);
    p := Place(0, co, 0, ct);
    MidwayIs(z, dO, dT, o, t, p);
  }

  /** Zips the two diffs into the merger; false when it stops short. */
  method ZipAll(z: Merger, dO: DiffIter, dT: DiffIter, ghost o: seq<Change>, ghost t: seq<Change>) returns (ok: bool)
    requires z.Valid() && z.acts == [] && dO.Valid() && dT.Valid() && dO.repr !! dT.repr && dO.Left() == o
             && dT.Left() == t
    requires forall a :: a in NamespaceMerge.Zip(o, t) ==> NamespaceMerge.Coherent(a)
    modifies z, z.ed`edits, dO.repr, dT.repr
    ensures ok <==> !Stuck(z.s, o, t, NamespaceMerge.Zip(o, t))
    ensures ok ==> z.Valid() && z.acts == NamespaceMerge.Zip(o, t)
  {
    hide *;
    var p;
    p, ok := Start(z, dO, dT, o, t);
    while ok && (p.co.Some? || p.ct.Some?)
      invariant if ok then Midway(z, dO, dT, o, t, p) else Stuck(z.s, o, t, NamespaceMerge.Zip(o, t))
      decreases if ok then |o| - p.i + |t| - p.j + 1 else 0
    {
      MidwayMeans(z, dO, dT, o, t, p);
      var cmp := 0;
      if p.co.Some? && p.ct.Some? {
        cmp := Compare(p.co.value.key, p.ct.value.key);
      }
      if p.ct.None? || (p.co.Some? && cmp < 0) {
        p, ok := PassOurs(z, dO, dT, o, t, p);
      } else if p.co.None? || cmp > 0 {
        p, ok := TakeTheirs(z, dO, dT, o, t, p);
      } else {
        p, ok := DecideBoth(z, dO, dT, o, t, p);
      }
      if ok {
        MidwayMeans(z, dO, dT, o, t, p);
      }
    }
    if ok {
      MidwayIs(z, dO, dT, o, t, p);
      ReadingMeans(z.s, o, p.i, p.co, dO.Left());
      ReadingMeans(z.s, t, p.j, p.ct, dT.Left());
      NamespaceMerge.ZippedMeans(NamespaceMerge.Zip(o, t), z.acts, o, p.i, t, p.j);
      StuckIs(z.s, o, t, NamespaceMerge.Zip(o, t));
    }
  }

  /******** What fails ********/

  lemma LoadedFails(s: Spec, x: Sides, ch: Change)
    requires Loaded(s, ch).None? && NamespaceMerge.Genuine(ch)
             && NamespaceMerge.FromOf(ch) == NamespaceMerge.At(x.base, ch.key)
    requires NamespaceMerge.ToOf(ch) in {NamespaceMerge.At(x.ours, ch.key), NamespaceMerge.At(x.theirs, ch.key)}
    ensures FateAt(s, x, ch.key).Error?
  {
  }

  lemma UnreadKey(s: Spec, x: Sides, from: seq<Entry>, to: seq<Entry>, mt: map<Key, Value>) returns (k: Key)
    requires RowOf(from, x.base) && RowOf(to, mt) && AllLeaf(from) && AllLeaf(to) && mt in {x.ours, x.theirs}
    requires Ascending(DiffOf(from, to)) && !AllLoaded(s, DiffOf(from, to), |DiffOf(from, to)|)
    ensures FateAt(s, x, k).Error?
  {
    hide RowOf, DiffOf, Reported, Ascending, Loaded, FateAt;
    var chs := DiffOf(from, to);
    var i :| 0 <= i < |chs| && Loaded(s, chs[i]).None?;
    k := chs[i].key;
    NamespaceMerge.ReportedOf(chs, i);
    NamespaceMerge.ReportedSides(from, to, x.base, mt, k);
    LoadedFails(s, x, chs[i]);
  }

  lemma FailedKey(s: Spec, x: Sides, acts: seq<Act>) returns (k: Key)
    requires NamespaceMerge.ActsAscend(acts) && (forall k :: NamespaceMerge.Faithful(acts, x, k)) && !NoErrors(s, acts)
    ensures FateAt(s, x, k).Error?
  {
    hide NamespaceMerge.ActsAscend, NamespaceMerge.Faithful, ActFate, FateAt;
    var i :| 0 <= i < |acts| && ActFate(s, acts[i]).Error?;
    NamespaceMerge.ActAtOf(acts, i);
    k := acts[i].Key();
    ActFates(s, x, acts, k);
  }

  lemma LoadedAt(s: Spec, chs: seq<Change>, k: Key)
    requires AllLoaded(s, chs, |chs|)
    ensures Reported(chs, k).Some? ==> Loaded(s, Reported(chs, k).value).Some?
  {
    hide Loaded, Reported;
    if Reported(chs, k).Some? {
      NamespaceMerge.ReportedIn(chs, k);
    }
  }

  lemma ReadKey(s: Spec, x: Sides, k: Key, o: Option<Change>, t: Option<Change>)
    requires o.None? <==> NamespaceMerge.At(x.base, k) == NamespaceMerge.At(x.ours, k)
    requires t.None? <==> NamespaceMerge.At(x.base, k) == NamespaceMerge.At(x.theirs, k)
    requires o.Some? ==>
               NamespaceMerge.FromOf(o.value) == NamespaceMerge.At(x.base, k)
                 && NamespaceMerge.ToOf(o.value) == NamespaceMerge.At(x.ours, k) && Loaded(s, o.value).Some?
    requires t.Some? ==>
               NamespaceMerge.FromOf(t.value) == NamespaceMerge.At(x.base, k)
                 && NamespaceMerge.ToOf(t.value) == NamespaceMerge.At(x.theirs, k) && Loaded(s, t.value).Some?
    ensures FateAt(s, x, k).Error? ==> t.Some?
  {
    hide BothFate, Written;
  }

  lemma ErrorNowhere(s: Spec, x: Sides, b: seq<Entry>, o: seq<Entry>, t: seq<Entry>, k: Key)
    requires NamespaceMerge.Laid(x, b, o, t) && AllLeaf(b) && AllLeaf(o) && AllLeaf(t)
    requires AllLoaded(s, DiffOf(b, o), |DiffOf(b, o)|) && AllLoaded(s, DiffOf(b, t), |DiffOf(b, t)|)
    requires NoErrors(s, NamespaceMerge.ZipOf(b, o, t))
    ensures !FateAt(s, x, k).Error?
  {
    hide *;
    NamespaceMerge.LaidMeans(x, b, o, t);
    NamespaceMerge.ZipOfMeans(x, b, o, t);
    var acts := NamespaceMerge.ZipOf(b, o, t);
    NamespaceMerge.ReportedSides(b, o, x.base, x.ours, k);
    NamespaceMerge.ReportedSides(b, t, x.base, x.theirs, k);
    LoadedAt(s, DiffOf(b, o), k);
    LoadedAt(s, DiffOf(b, t), k);
    ReadKey(s, x, k, Reported(DiffOf(b, o), k), Reported(DiffOf(b, t), k));
    ActFates(s, x, acts, k);
    NamespaceMerge.FaithfulMeans(acts, x, k);
    if NamespaceMerge.ActAt(acts, k).Some? {
      FineAt(s, acts, k);
    }
  }

  lemma FineAt(s: Spec, acts: seq<Act>, k: Key)
    requires NoErrors(s, acts) && NamespaceMerge.ActAt(acts, k).Some?
    ensures !ActFate(s, NamespaceMerge.ActAt(acts, k).value).Error?
  {
    hide NamespaceMerge.ActAt, ActFate;
    NamespaceMerge.ActAtIn(acts, k);
  }

  ghost predicate Fails(s: Spec, x: Sides) {
    exists k :: FateAt(s, x, k).Error?
  }

  lemma FailsAt(s: Spec, x: Sides, k: Key)
    requires FateAt(s, x, k).Error?
    ensures Fails(s, x)
  {
  }

  lemma FailsNot(s: Spec, x: Sides)
    requires forall k :: !FateAt(s, x, k).Error?
    ensures !Fails(s, x)
  {
    hide FateAt;
  }

  // The zip stops short exactly when the table has a key that fails.
  lemma StuckIsFails(s: Spec, x: Sides, b: seq<Entry>, o: seq<Entry>, t: seq<Entry>)
    requires NamespaceMerge.Laid(x, b, o, t) && AllLeaf(b) && AllLeaf(o) && AllLeaf(t)
    ensures Stuck(s, DiffOf(b, o), DiffOf(b, t), NamespaceMerge.ZipOf(b, o, t)) <==> Fails(s, x)
  {
    hide *;
    var dO, dT, acts := DiffOf(b, o), DiffOf(b, t), NamespaceMerge.ZipOf(b, o, t);
    NamespaceMerge.LaidMeans(x, b, o, t);
    NamespaceMerge.ZipOfMeans(x, b, o, t);
    StuckIs(s, dO, dT, acts);
    if !AllLoaded(s, dO, |dO|) {
      var k := UnreadKey(s, x, b, o, x.ours);
      FailsAt(s, x, k);
    } else if !AllLoaded(s, dT, |dT|) {
      var k := UnreadKey(s, x, b, t, x.theirs);
      FailsAt(s, x, k);
    } else if !NoErrors(s, acts) {
      var k := FailedKey(s, x, acts);
      FailsAt(s, x, k);
    } else {
      forall k ensures !FateAt(s, x, k).Error? {
        ErrorNowhere(s, x, b, o, t, k);
      }
      FailsNot(s, x);
    }
  }

  /******** The merge ********/

  datatype Outcome = Done(root: Node, conflicts: seq<Conflict>) | Failed

  /** What the table makes of a merge: it fails when a key does; with any conflict it is ours and all the conflicts, in
      key order; else it is the one tree that holds what the table leaves. */
  ghost predicate Merges(s: Spec, x: Sides, ours: Node, r: Outcome) {
    && (r.Failed? <==> Fails(s, x))
    && (r.Done? ==>
          && ConflictsAre(s, x, r.conflicts)
          && if r.conflicts != [] then r.root == ours else Holds(AsSplitRule(s.r), r.root, MergedMap(s, x)))
  }

  lemma MergesIs(s: Spec, x: Sides, ours: Node, r: Outcome)
    requires r.Failed? <==> Fails(s, x)
    requires r.Done? ==> ConflictsAre(s, x, r.conflicts)
    requires r.Done? && r.conflicts != [] ==> r.root == ours
    requires r.Done? && r.conflicts == [] ==> Holds(AsSplitRule(s.r), r.root, MergedMap(s, x))
    ensures Merges(s, x, ours, r)
  {
    hide Fails, ConflictsAre, Holds, MergedMap;
  }

  /** The per-key merge of three maps. */
  method MergeWith(s: Spec, base: Node, ours: Node, theirs: Node, ghost x: Sides) returns (r: Outcome)
    requires s.r.Valid() && Holds(AsSplitRule(s.r), base, x.base)
    requires Holds(AsSplitRule(s.r), ours, x.ours) && Holds(AsSplitRule(s.r), theirs, x.theirs)
    ensures Merges(s, x, ours, r)
  {
    hide *;
    ghost var rule := AsSplitRule(s.r);
    NamespaceMerge.HeldRow(rule, base, x.base);
    NamespaceMerge.HeldRow(rule, ours, x.ours);
    NamespaceMerge.HeldRow(rule, theirs, x.theirs);
    ghost var b, o, t := LeafRow(base), LeafRow(ours), LeafRow(theirs);
    NamespaceMerge.LaidIs(x, b, o, t);
    Coherents(x, b, o, t);
    StuckIsFails(s, x, b, o, t);
    NamespaceMerge.ZipOfIs(b, o, t);
    var dO := Diff(base, ours);
    var dT := Diff(base, theirs);
    var ed := new Editor(s.r, s.c, ours, x.ours);
    var z := new Merger(s, ed);
    var ok := ZipAll(z, dO, dT, DiffOf(b, o), DiffOf(b, t));
    if !ok {
      MergesIs(s, x, ours, Failed);
      return Failed;
    }
    z.ValidMeans();
    NamespaceMerge.ZipOfMeans(x, b, o, t);
    ConflictsExact(s, x, z.acts);
    if |z.conflicts| > 0 {
      r := Done(ours, z.conflicts);
      MergesIs(s, x, ours, r);
      return;
    }
    EditedIsMerged(s, x, z.acts);
    var f := ed.Flush();
    ed.ValidMeans();
    r := Done(f.root, []);
    MergesIs(s, x, ours, r);
  }

  lemma Coherents(x: Sides, b: seq<Entry>, o: seq<Entry>, t: seq<Entry>)
    requires NamespaceMerge.Laid(x, b, o, t) && AllLeaf(b) && AllLeaf(o) && AllLeaf(t)
    ensures forall a :: a in NamespaceMerge.ZipOf(b, o, t) ==> NamespaceMerge.Coherent(a)
  {
    hide *;
    NamespaceMerge.ZipOfMeans(x, b, o, t);
    var acts := NamespaceMerge.ZipOf(b, o, t);
    forall a | a in acts ensures NamespaceMerge.Coherent(a) {
      var i :| 0 <= i < |acts| && acts[i] == a;
      NamespaceMerge.ActAtOf(acts, i);
      CoherentAt(acts, x, a);
    }
  }

  lemma CoherentAt(acts: seq<Act>, x: Sides, a: Act)
    requires NamespaceMerge.Faithful(acts, x, a.Key()) && NamespaceMerge.ActAt(acts, a.Key()) == Some(a)
    ensures NamespaceMerge.Coherent(a)
  {
  }

  /******** The standard decider ********/

  /** Clean when the sides agree, a conflict otherwise. */
  function Disagreement(k: Key, o: ByteChange, t: ByteChange): Option<Decision> {
    if o.to == t.to then Some(Decision([], false, []))
    else if o.to.None? || t.to.None?
      then Some(Decision([], false, [Conflict(None, "deleted on one side and changed on the other")]))
    else if o.from.None? then Some(Decision([], false, [Conflict(None, "added differently on both sides")]))
    else Some(Decision([], false, [Conflict(None, "changed differently on both sides")]))
  }

  ghost predicate Standard(s: Spec) {
    forall k, o, t :: s.decide(k, o, t) == Disagreement(k, o, t)
  }

  // A map's values are stored as the configuration stores their bytes.
  ghost predicate StoredAs(s: Spec, m: map<Key, Value>) {
    forall k :: k in m && s.load(m[k]).Some? ==> s.c.Stored(s.load(m[k]).value) == m[k]
  }

  ghost predicate AllStored(s: Spec, x: Sides) {
    StoredAs(s, x.base) && StoredAs(s, x.ours) && StoredAs(s, x.theirs)
  }

  // What a key is after a merge without conflicts: theirs where theirs changed it, else ours.
  ghost function Combined(x: Sides, k: Key): Option<Value> {
    var b, o, t := NamespaceMerge.At(x.base, k), NamespaceMerge.At(x.ours, k), NamespaceMerge.At(x.theirs, k);
    if t == b then o else t
  }

  // With the standard decider a key is contested exactly when both sides changed it, and not alike.
  lemma StandardAt(s: Spec, x: Sides, k: Key)
    requires Standard(s) && AllStored(s, x) && FateAt(s, x, k).Fate?
    ensures var b, o, t := NamespaceMerge.At(x.base, k), NamespaceMerge.At(x.ours, k), NamespaceMerge.At(x.theirs, k);
            Contested(s, x, k) <==> o != b && t != b && o != t
    ensures !Contested(s, x, k) ==> AfterAt(s, x, k) == Combined(x, k)
  {
    var b, o, t := NamespaceMerge.At(x.base, k), NamespaceMerge.At(x.ours, k), NamespaceMerge.At(x.theirs, k);
    if o != b && t != b {
      var lo, lt := ByteChange(k, s.Bytes(b), s.Bytes(o)), ByteChange(k, s.Bytes(b), s.Bytes(t));
      assert s.decide(k, lo, lt) == Disagreement(k, lo, lt);
      if lo.to == lt.to && o.Some? && t.Some? {
        assert s.c.Stored(s.load(o.value).value) == o.value;
        assert s.c.Stored(s.load(t.value).value) == t.value;
      }
    }
  }

  ghost function Swapped(x: Sides): Sides {
    NamespaceMerge.Sides(x.base, x.theirs, x.ours)
  }

  lemma NoneContested(s: Spec, x: Sides, cs: seq<Conflict>)
    requires ConflictsAre(s, x, cs)
    ensures cs == [] <==> forall k :: !Contested(s, x, k)
  {
    hide Contested, FateAt, Gathered, SortedKeys;
    var ks :| SortedKeys(ks) && (forall k :: k in ks <==> Contested(s, x, k)) && cs == Gathered(s, x, ks);
    GatheredNone(s, x, ks);
    if ks != [] {
      assert ks[|ks| - 1] in ks;
    }
  }

  lemma GatheredNone(s: Spec, x: Sides, ks: seq<Key>)
    requires forall k :: k in ks ==> Contested(s, x, k)
    ensures Gathered(s, x, ks) == [] <==> ks == []
  {
    hide FateAt;
    if ks != [] {
      assert ks[|ks| - 1] in ks;
    }
  }

  lemma CombinedAlike(s: Spec, x: Sides)
    requires Standard(s) && AllStored(s, x) && !Fails(s, x) && !Fails(s, Swapped(x)) && forall k :: !Contested(s, x, k)
    ensures MergedMap(s, x) == MergedMap(s, Swapped(x))
  {
    var m, m' := MergedMap(s, x), MergedMap(s, Swapped(x));
    forall k ensures (k in m <==> k in m') && (k in m ==> m[k] == m'[k]) {
      MergedAt(s, x, k);
      MergedAt(s, Swapped(x), k);
      StandardAt(s, x, k);
      StandardAt(s, Swapped(x), k);
    }
  }

  lemma MergedAt(s: Spec, x: Sides, k: Key)
    ensures NamespaceMerge.At(MergedMap(s, x), k) == AfterAt(s, x, k)
  {
    hide BothFate, Written;
  }

  lemma ContestedAlike(s: Spec, x: Sides)
    requires Standard(s) && AllStored(s, x) && !Fails(s, x) && !Fails(s, Swapped(x))
    ensures forall k :: Contested(s, x, k) <==> Contested(s, Swapped(x), k)
  {
    forall k ensures Contested(s, x, k) <==> Contested(s, Swapped(x), k) {
      StandardAt(s, x, k);
      StandardAt(s, Swapped(x), k);
    }
  }

  // Some change, of either side, has a value that cannot be read.
  ghost predicate Unreadable(s: Spec, x: Sides) {
    exists k ::
      var b, o, t := NamespaceMerge.At(x.base, k), NamespaceMerge.At(x.ours, k), NamespaceMerge.At(x.theirs, k);
      ((o != b || t != b) && !s.Readable(b)) || (o != b && !s.Readable(o)) || (t != b && !s.Readable(t))
  }

  // What a merge into mine may take from the other side.
  predicate CanTake(s: Spec, k: Key, v: Option<Value>) {
    if v.None? then |k| <= MAX_KEY_SIZE else s.load(v.value).Some? ==> s.CanPut(k, s.load(v.value).value)
  }

  // Some key only the other side changed holds what may not be written.
  ghost predicate Untakable(s: Spec, base: map<Key, Value>, mine: map<Key, Value>, other: map<Key, Value>) {
    exists k ::
      && NamespaceMerge.At(mine, k) == NamespaceMerge.At(base, k) != NamespaceMerge.At(other, k)
      && !CanTake(s, k, NamespaceMerge.At(other, k))
  }

  // With the standard decider a merge fails on unreadable changes, whoever made them, and on what it may not take.
  lemma StandardFails(s: Spec, x: Sides)
    requires Standard(s)
    ensures Fails(s, x) <==> Unreadable(s, x) || Untakable(s, x.base, x.ours, x.theirs)
  {
    forall k
      ensures var b, o, t := NamespaceMerge.At(x.base, k), NamespaceMerge.At(x.ours, k), NamespaceMerge.At(x.theirs, k);
              FateAt(s, x, k).Error? <==>
                || ((o != b || t != b) && !s.Readable(b)) || (o != b && !s.Readable(o)) || (t != b && !s.Readable(t))
                || (o == b != t && !CanTake(s, k, t))
    {
      ErrorAt(s, x, k);
    }
    hide FateAt, CanTake, NamespaceMerge.At, Standard, Spec.Readable;
  }

  lemma ErrorAt(s: Spec, x: Sides, k: Key)
    requires Standard(s)
    ensures var b, o, t := NamespaceMerge.At(x.base, k), NamespaceMerge.At(x.ours, k), NamespaceMerge.At(x.theirs, k);
            FateAt(s, x, k).Error? <==>
              || ((o != b || t != b) && !s.Readable(b)) || (o != b && !s.Readable(o)) || (t != b && !s.Readable(t))
              || (o == b != t && !CanTake(s, k, t))
  {
    var b, o, t := NamespaceMerge.At(x.base, k), NamespaceMerge.At(x.ours, k), NamespaceMerge.At(x.theirs, k);
    var lo, lt := ByteChange(k, s.Bytes(b), s.Bytes(o)), ByteChange(k, s.Bytes(b), s.Bytes(t));
    assert s.decide(k, lo, lt) == Disagreement(k, lo, lt);
    hide NamespaceMerge.At;
  }

  lemma UnreadableSwapped(s: Spec, x: Sides)
    ensures Unreadable(s, x) <==> Unreadable(s, Swapped(x))
  {
    hide Spec.Readable, NamespaceMerge.At;
  }

  /** With the standard decider it does not matter whose side is whose: both merges are clean or neither is, and clean
      ones end at the same root. Failing depends on the side only through what each may take from the other. */
  lemma MergeSymmetric(s: Spec, x: Sides, ours: Node, theirs: Node, r: Outcome, r': Outcome)
    requires s.r.Valid() && Standard(s) && AllStored(s, x)
    requires Merges(s, x, ours, r) && Merges(s, Swapped(x), theirs, r')
    ensures r.Failed? <==> Unreadable(s, x) || Untakable(s, x.base, x.ours, x.theirs)
    ensures r'.Failed? <==> Unreadable(s, x) || Untakable(s, x.base, x.theirs, x.ours)
    ensures r.Done? && r'.Done? ==> (r.conflicts == [] <==> r'.conflicts == [])
    ensures r.Done? && r'.Done? && r.conflicts == [] ==> r.root == r'.root
  {
    hide Standard, AllStored, Fails, Contested, ConflictsAre, MergedMap, Holds, Unreadable, Untakable;
    StandardFails(s, x);
    StandardFails(s, Swapped(x));
    UnreadableSwapped(s, x);
    if r.Done? && r'.Done? {
      NoneContested(s, x, r.conflicts);
      NoneContested(s, Swapped(x), r'.conflicts);
      ContestedAlike(s, x);
      if r.conflicts == [] {
        CombinedAlike(s, x);
        Canonicity(AsSplitRule(s.r), r.root, MergedMap(s, x), r'.root, MergedMap(s, x));
      }
    }
  }
}
