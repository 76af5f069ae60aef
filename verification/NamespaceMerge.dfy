/** The three-way merge of namespaces: both sides' diffs from the base are zipped in path order, and what
    the sides disagree about goes to the object's model. */
module NamespaceMerge {
  import opened Keys
  import opened Basics
  import opened Nodes
  import opened Refs
  import opened Trees
  import opened Drawing
  import opened Boundary
  import opened Diffs
  import opened Maps
  import Flush

  const MAX_PATH_LEN := 4096
  const DEFAULT_MAX_CONFLICTS := 100_000

  datatype Kind = BothChanged | DeleteEdit | AddAdd | ModelChange

  datatype ModelConflict = ModelConflict(location: seq<byte>, reason: string)

  datatype ModelResult = ModelFailed | ModelMerged(root: Root, conflicts: seq<ModelConflict>)

  /** A registered model: the newest format it writes, whether it accumulates, and its merge. */
  datatype Model = Model(format: U16, accumulates: bool, merge: (Root, Root, Root) -> ModelResult)

  /** What a merge runs with: the trees' geometry, how a stored value is read, the path grammar and the
      registry. */
  datatype Setting = Setting(r: Rule, c: Config, load: Value -> Option<seq<byte>>, grammar: Key -> bool,
                             models: map<U16, Model>)
  {
    ghost predicate Valid() {
      r.Valid() && c.maxValue == REF_SIZE
    }

    predicate ValidPath(k: Key) {
      |k| <= MAX_PATH_LEN && grammar(k)
    }

    function Read(v: Value): Option<Ref> {
      var b := load(v);
      if b.None? then None else Decode(b.value)
    }

    // What a path names, where there is something to read.
    function Named(v: Option<Value>): Option<Ref> {
      if v.None? then None else Read(v.value)
    }

    predicate Readable(k: Key, v: Option<Value>) {
      ValidPath(k) && (v.Some? ==> Read(v.value).Some?)
    }

    predicate Resolves(ref: Ref) {
      ref.model in models && ref.root.format != 0 && ref.root.format <= models[ref.model].format
    }

    predicate AnyAccumulates() {
      exists id :: id in models && models[id].accumulates
    }
  }

  /******** The table ********/

  /** What becomes of a path: kept as ours has it, written, erased, left to a person, or the merge fails. */
  datatype Verdict = Keep | Write(bytes: seq<byte>) | Erase | Clash(kind: Kind, model: seq<ModelConflict>) | Fail

  // What an object's model makes of a path both sides changed.
  function AskModel(s: Setting, b: Ref, o: Ref, t: Ref): Verdict {
    if !s.Resolves(b) || !s.Resolves(o) || !s.Resolves(t) then Fail
    else
      match s.models[t.model].merge(b.root, o.root, t.root)
      case ModelFailed => Fail
      case ModelMerged(root, conflicts) =>
        if conflicts != [] then Clash(BothChanged, conflicts)
        else if root.format == 0 || root.format > s.models[t.model].format then Fail
        else Write(Encode(Ref(t.model, root)))
  }

  // Two equal changes still go to a model that accumulates.
  predicate StillMerges(s: Setting, b: Option<Ref>, to: Ref) {
    b.Some? && b.value.model == to.model && s.Resolves(to) && s.models[to.model].accumulates
  }

  // A path both sides changed, from what it named in the base and names on each side.
  function DecideBoth(s: Setting, b: Option<Ref>, o: Option<Ref>, t: Option<Ref>): Verdict {
    if o.None? && t.None? then Keep
    else if o == t && !StillMerges(s, b, o.value) then Keep
    else if o.None? || t.None? then Clash(DeleteEdit, [])
    else if b.None? then Clash(AddAdd, [])
    else if !(b.value.model == o.value.model == t.value.model) then Clash(ModelChange, [])
    else AskModel(s, b.value, o.value, t.value)
  }

  /** The three-way table, path by path: what base, ours and theirs store there decides alone. */
  function Decide(s: Setting, k: Key, b: Option<Value>, o: Option<Value>, t: Option<Value>): Verdict {
    if (o != b || t != b) && !s.Readable(k, b) then Fail
    else if o != b && !s.Readable(k, o) then Fail
    else if t != b && !s.Readable(k, t) then Fail
    else if t == b then Keep
    else if o != b then DecideBoth(s, s.Named(b), s.Named(o), s.Named(t))
    else if t.None? then Erase
    else if s.Resolves(s.Read(t.value).value) then Write(Encode(s.Read(t.value).value))
    else Fail
  }

  // What a verdict leaves at the path.
  function Left(s: Setting, v: Verdict, o: Option<Value>): Option<Value> {
    match v
    case Write(bytes) => Some(s.c.Stored(bytes))
    case Erase => None
    case _ => o
  }

  ghost function At(m: map<Key, Value>, k: Key): Option<Value> {
    if k in m then Some(m[k]) else None
  }

  /** Three namespaces' stored contents. */
  datatype Sides = Sides(base: map<Key, Value>, ours: map<Key, Value>, theirs: map<Key, Value>)
  {
    ghost function Verdict(s: Setting, k: Key): Verdict {
      Decide(s, k, At(base, k), At(ours, k), At(theirs, k))
    }

    ghost function After(s: Setting, k: Key): Option<Value> {
      Left(s, Verdict(s, k), At(ours, k))
    }

    // The conflict recorded at a path, if it is undecided.
    ghost function ConflictAt(s: Setting, k: Key): Option<Conflict> {
      match Verdict(s, k)
      case Clash(kind, model) =>
        Some(Conflict(k, kind, s.Named(At(base, k)), s.Named(At(ours, k)), s.Named(At(theirs, k)), model))
      case _ => None
    }

    // The paths counted one way.
    ghost function Counted(s: Setting, n: Tally): set<Key> {
      set k | k in base.Keys + theirs.Keys && TallyOf(Verdict(s, k), At(base, k)) == n
    }

    ghost function Stats(s: Setting): Stats {
      NamespaceStats(|Counted(s, Adds)|, |Counted(s, Removes)|, |Counted(s, Modifies)|, |Counted(s, Conflicts)|)
    }

    // Some path was changed on both sides.
    ghost predicate Contended() {
      exists k :: At(ours, k) != At(base, k) && At(theirs, k) != At(base, k)
    }

    // The merge is refused: a path cannot be decided at all, or too many are left to a person.
    ghost predicate Refused(s: Setting, maxConflicts: int) {
      (exists k :: Verdict(s, k).Fail?) || (Contended() && |Counted(s, Conflicts)| > maxConflicts)
    }

    // The merged contents.
    ghost function Merged(s: Setting): map<Key, Value> {
      map k | k in ours.Keys + theirs.Keys && After(s, k).Some? :: After(s, k).value
    }
  }

  /******** The zip ********/

  function FromOf(ch: Change): Option<Value> {
    if ch.Added? then None else Some(ch.from)
  }

  function ToOf(ch: Change): Option<Value> {
    if ch.Removed? then None else Some(ch.to)
  }

  /** A path theirs changed, with ours' change to it if there is one. */
  datatype Act = Act(ours: Option<Change>, theirs: Change)
  {
    function Key(): Key {
      theirs.key
    }

    function Base(): Option<Value> {
      FromOf(theirs)
    }

    function Ours(): Option<Value> {
      if ours.None? then FromOf(theirs) else ToOf(ours.value)
    }

    function Verdict(s: Setting): Verdict {
      Decide(s, Key(), Base(), Ours(), ToOf(theirs))
    }
  }

  ghost function Zip(o: seq<Change>, t: seq<Change>): seq<Act>
    decreases |o| + |t|
  {
    if t == [] then []
    else if o != [] && Rank(o[0].key) < Rank(t[0].key) then Zip(o[1..], t)
    else if o == [] || Rank(t[0].key) < Rank(o[0].key) then [Act(None, t[0])] + Zip(o, t[1..])
    else [Act(Some(o[0]), t[0])] + Zip(o[1..], t[1..])
  }

  ghost function ActAt(acts: seq<Act>, k: Key): Option<Act> {
    if acts == [] then None else if acts[0].Key() == k then Some(acts[0]) else ActAt(acts[1..], k)
  }

  ghost predicate ActsAbove(r: real, acts: seq<Act>) {
    forall i :: 0 <= i < |acts| ==> r < Rank(acts[i].Key())
  }

  ghost predicate ActsAscend(acts: seq<Act>) {
    forall i, j :: 0 <= i < j < |acts| ==> Rank(acts[i].Key()) < Rank(acts[j].Key())
  }

  lemma {:induction false} ZipAscends(o: seq<Change>, t: seq<Change>, r: real)
    requires Ascending(t) && ChangesAbove(r, t)
    ensures ActsAscend(Zip(o, t)) && ActsAbove(r, Zip(o, t))
    decreases |o| + |t|
  {
    if t == [] {
    } else if o != [] && Rank(o[0].key) < Rank(t[0].key) {
      ZipAscends(o[1..], t, r);
    } else {
      var only := o == [] || Rank(t[0].key) < Rank(o[0].key);
      var o' := if only then o else o[1..];
      var rest := Zip(o', t[1..]);
      ZipAscends(o', t[1..], Rank(t[0].key));
      ActsPush(Act(if only then None else Some(o[0]), t[0]), rest, r);
    }
  }

  lemma ActsPush(a: Act, acts: seq<Act>, r: real)
    requires ActsAscend(acts) && ActsAbove(Rank(a.Key()), acts) && r < Rank(a.Key())
    ensures ActsAscend([a] + acts) && ActsAbove(r, [a] + acts)
  {
  }

  lemma {:induction false} ReportedAbove(chs: seq<Change>, k: Key)
    requires ChangesAbove(Rank(k), chs)
    ensures Reported(chs, k) == None
  {
    if chs != [] {
      ReportedAbove(chs[1..], k);
    }
  }

  lemma TailAbove(chs: seq<Change>)
    requires Ascending(chs) && chs != []
    ensures Ascending(chs[1..]) && ChangesAbove(Rank(chs[0].key), chs[1..])
  {
  }

  // The acts of a zip are the paths theirs changed, each with ours' change to it.
  lemma {:induction false} ZipReports(o: seq<Change>, t: seq<Change>, k: Key)
    requires Ascending(o) && Ascending(t)
    ensures ActAt(Zip(o, t), k) == if Reported(t, k).None? then None
              else Some(Act(Reported(o, k), Reported(t, k).value))
    decreases |o| + |t|
  {
    if t == [] {
    } else if o != [] && Rank(o[0].key) < Rank(t[0].key) {
      TailAbove(o);
      ZipReports(o[1..], t, k);
      if k == o[0].key {
        ReportedBelow(t, k);
      }
    } else {
      TailAbove(t);
      var only := o == [] || Rank(t[0].key) < Rank(o[0].key);
      var o' := if only then o else o[1..];
      if !only {
        TailAbove(o);
      }
      ZipReports(o', t[1..], k);
      if k == t[0].key && only {
        ReportedBelow(o, k);
      }
    }
  }

  lemma ReportedBelow(chs: seq<Change>, k: Key)
    requires Ascending(chs) && (chs != [] ==> Rank(k) < Rank(chs[0].key))
    ensures Reported(chs, k) == None
  {
    ReportedAbove(chs, k);
  }

  /******** What the acts amount to ********/

  /** An undecided path, with the reference it had in the base and has on either side, if any. */
  datatype Conflict = Conflict(path: Key, kind: Kind, base: Option<Ref>, ours: Option<Ref>, theirs: Option<Ref>,
                               model: seq<ModelConflict>)

  datatype Stats = NamespaceStats(added: nat, removed: nat, modified: nat, conflicts: nat)

  const NO_STATS := NamespaceStats(0, 0, 0, 0)

  /** How a verdict counts. */
  datatype Tally = Adds | Removes | Modifies | Conflicts | Nothing

  function TallyOf(v: Verdict, base: Option<Value>): Tally {
    match v
    case Erase => Removes
    case Write(_) => if base.None? then Adds else Modifies
    case Clash(_, _) => Conflicts
    case _ => Nothing
  }

  function Pend1(s: Setting, p: Pending, a: Act): Pending {
    match a.Verdict(s)
    case Write(bytes) => p[a.Key() := Some(bytes)]
    case Erase => p[a.Key() := None]
    case _ => p
  }

  function Clash1(s: Setting, a: Act): seq<Conflict> {
    match a.Verdict(s)
    case Clash(kind, model) =>
      [Conflict(a.Key(), kind, s.Named(a.Base()), s.Named(a.Ours()), s.Named(ToOf(a.theirs)), model)]
    case _ => []
  }

  function Count1(s: Setting, st: Stats, a: Act): Stats {
    match a.Verdict(s)
    case Erase => st.(removed := st.removed + 1)
    case Write(_) => if a.Base().None? then st.(added := st.added + 1) else st.(modified := st.modified + 1)
    case _ => st
  }

  // The edits, the conflicts and the counts the acts make.
  ghost function Pends(s: Setting, acts: seq<Act>): Pending {
    if acts == [] then map[] else Pend1(s, Pends(s, acts[..|acts| - 1]), acts[|acts| - 1])
  }

  ghost function Clashes(s: Setting, acts: seq<Act>): seq<Conflict> {
    if acts == [] then [] else Clashes(s, acts[..|acts| - 1]) + Clash1(s, acts[|acts| - 1])
  }

  ghost function Counts(s: Setting, acts: seq<Act>): Stats {
    if acts == [] then NO_STATS else Count1(s, Counts(s, acts[..|acts| - 1]), acts[|acts| - 1])
  }

  lemma FoldsPush(s: Setting, acts: seq<Act>, a: Act)
    ensures Pends(s, acts + [a]) == Pend1(s, Pends(s, acts), a)
    ensures Clashes(s, acts + [a]) == Clashes(s, acts) + Clash1(s, a)
    ensures Counts(s, acts + [a]) == Count1(s, Counts(s, acts), a)
  {
    assert (acts + [a])[..|acts|] == acts;
  }

  // Changes of a diff change something, and both sides' changes start from the same base.
  ghost predicate Genuine(ch: Change) {
    FromOf(ch) != ToOf(ch)
  }

  ghost predicate Coherent(a: Act) {
    && Genuine(a.theirs)
    && (a.ours.Some? ==>
          Genuine(a.ours.value) && a.ours.value.key == a.theirs.key && FromOf(a.ours.value) == FromOf(a.theirs))
  }

  /** A change with the references it stores read. */
  datatype NsChange = NsChange(path: Key, from: Option<Ref>, to: Option<Ref>)

  function Decoded(s: Setting, ch: Change): Option<NsChange> {
    if s.Readable(ch.key, FromOf(ch)) && s.Readable(ch.key, ToOf(ch))
    then Some(NsChange(ch.key, s.Named(FromOf(ch)), s.Named(ToOf(ch)))) else None
  }

  /******** The driver ********/

  class Zipper {
    const s: Setting
    const ed: Editor
    var conflicts: seq<Conflict>
    var stats: Stats
    ghost var acts: seq<Act>

    ghost predicate Valid()
      reads this, ed
    {
      && s.Valid() && ed.Valid() && ed.c == s.c
      && ed.edits == Pends(s, acts) && conflicts == Clashes(s, acts) && stats == Counts(s, acts)
    }

    constructor (s: Setting, ed: Editor)
      requires s.Valid() && ed.Valid() && ed.c == s.c && ed.edits == map[]
      ensures Valid() && this.s == s && this.ed == ed && acts == []
    {
      this.s, this.ed := s, ed;
      conflicts, stats, acts := [], NO_STATS, [];
    }

    // Sets a path to a reference, whose model must be registered.
    method Put(path: Key, ref: Ref) returns (ok: bool)
      requires ed.Valid() && ed.c == s.c && s.c.maxValue == REF_SIZE
      modifies ed`edits
      ensures ed.Valid() && (ok <==> s.ValidPath(path) && s.Resolves(ref))
      ensures ed.edits == if ok then old(ed.edits)[path := Some(Encode(ref))] else old(ed.edits)
    {
      hide Editor.Valid, Encode;
      if !s.ValidPath(path) || !s.Resolves(ref) {
        return false;
      }
      var err := ed.Put(path, Encode(ref));
      ok := err.None?;
    }

    // Only theirs changed: the editor takes their change and the counts go up.
    method Take(c: NsChange, ghost a: Act) returns (ok: bool)
      requires Valid() && a.ours.None? && Genuine(a.theirs) && Decoded(s, a.theirs) == Some(c)
      modifies this, ed`edits
      ensures ok <==> !a.Verdict(s).Fail?
      ensures ok ==> Valid() && acts == old(acts) + [a]
    {
      FoldsPush(s, acts, a);
      hide Editor.Valid, Encode, Pends, Clashes, Counts;
      acts := acts + [a];
      if c.to.None? {
        stats := stats.(removed := stats.removed + 1);
        var err := ed.Remove(c.path);
        return err.None?;
      }
      if c.from.None? {
        stats := stats.(added := stats.added + 1);
      } else {
        stats := stats.(modified := stats.modified + 1);
      }
      ok := Put(c.path, c.to.value);
    }

    lemma ValidMeans()
      requires Valid()
      ensures s.Valid() && ed.Valid() && ed.edits == Pends(s, acts) && conflicts == Clashes(s, acts)
              && stats == Counts(s, acts)
    {
    }

    predicate Accumulates(c: NsChange)
      requires c.to.Some?
    {
      if c.from.None? || c.from.value.model != c.to.value.model then false
      else s.Resolves(c.to.value) && s.models[c.to.value.model].accumulates
    }

    // One more conflict; the editor is not touched.
    method Record(k: Kind, ours: NsChange, theirs: NsChange, model: seq<ModelConflict>)
      modifies `conflicts
      ensures conflicts == old(conflicts) + [Conflict(ours.path, k, ours.from, ours.to, theirs.to, model)]
    {
      conflicts := conflicts + [Conflict(ours.path, k, ours.from, ours.to, theirs.to, model)];
    }

    // Both changed: what the table says of the path is what the zip is left with.
    method Both(ours: NsChange, theirs: NsChange, ghost a: Act) returns (ok: bool)
      requires Valid() && Coherent(a) && a.ours.Some?
      requires Decoded(s, a.ours.value) == Some(ours) && Decoded(s, a.theirs) == Some(theirs)
      modifies this, ed`edits
      ensures ok <==> !a.Verdict(s).Fail?
      ensures ok ==> Valid() && acts == old(acts) + [a]
    {
      hide DecideBoth, Editor.Valid, Encode, Pends, Clashes, Counts, Act.Verdict, Coherent, Decoded;
      FoldsPush(s, acts, a);
      BothVerdict(s, a, ours, theirs);
      acts := acts + [a];
      ok := Settle(ours, theirs);
    }

    // How the state follows a verdict on a path both sides changed.
    twostate predicate Follows(v: Verdict, ours: NsChange, theirs: NsChange)
      reads this, ed
    {
      && conflicts == old(conflicts) +
         (if v.Clash? then [Conflict(ours.path, v.kind, ours.from, ours.to, theirs.to, v.model)] else [])
      && ed.edits == (if v.Write? then old(ed.edits)[ours.path := Some(v.bytes)] else old(ed.edits))
      && stats == (if v.Write? then old(stats).(modified := old(stats).modified + 1) else old(stats))
    }

    method Settle(ours: NsChange, theirs: NsChange) returns (ok: bool)
      requires ed.Valid() && ed.c == s.c && s.c.maxValue == REF_SIZE && s.ValidPath(ours.path)
      modifies `conflicts, `stats, ed`edits
      ensures ed.Valid()
      ensures var v := DecideBoth(s, ours.from, ours.to, theirs.to);
              (ok <==> !v.Fail?) && (ok ==> Follows(v, ours, theirs))
    {
      hide AskModel, Editor.Valid;
      var oGone, tGone := ours.to.None?, theirs.to.None?;
      if (oGone && tGone) || (!oGone && !tGone && ours.to == theirs.to && !Accumulates(ours)) {
        return true;
      }
      if oGone || tGone {
        Record(DeleteEdit, ours, theirs, []);
        return true;
      }
      if ours.from.None? {
        Record(AddAdd, ours, theirs, []);
        return true;
      }
      var f, o, t := ours.from.value, ours.to.value, theirs.to.value;
      if f.model != o.model || t.model != o.model {
        Record(ModelChange, ours, theirs, []);
        return true;
      }
      ok := Ask(ours, theirs, f, o, t);
    }

    // Asks the model that owns the path on every side.
    method Ask(ours: NsChange, theirs: NsChange, f: Ref, o: Ref, t: Ref) returns (ok: bool)
      requires ed.Valid() && ed.c == s.c && s.c.maxValue == REF_SIZE && s.ValidPath(ours.path)
      modifies `conflicts, `stats, ed`edits
      ensures ed.Valid()
      ensures var v := AskModel(s, f, o, t); (ok <==> !v.Fail?) && (ok ==> Follows(v, ours, theirs))
    {
      hide Editor.Valid, Encode;
      if !s.Resolves(f) || !s.Resolves(o) || !s.Resolves(t) {
        return false;
      }
      var m := s.models[t.model];
      var r := m.merge(f.root, o.root, t.root);
      if r.ModelFailed? {
        return false;
      }
      if |r.conflicts| > 0 {
        Record(BothChanged, ours, theirs, r.conflicts);
        return true;
      }
      if r.root.format == 0 || r.root.format > m.format {
        return false;
      }
      stats := stats.(modified := stats.modified + 1);
      ok := Put(ours.path, Ref(t.model, r.root));
    }
  }

  // The verdict on a path both sides changed, from the changes read.
  lemma BothVerdict(s: Setting, a: Act, o: NsChange, t: NsChange)
    requires Coherent(a) && a.ours.Some? && Decoded(s, a.ours.value) == Some(o) && Decoded(s, a.theirs) == Some(t)
    ensures a.Verdict(s) == DecideBoth(s, o.from, o.to, t.to) && o.from == t.from && o.path == a.Key()
            && s.ValidPath(a.Key())
    ensures s.Named(a.Base()) == o.from && s.Named(a.Ours()) == o.to && s.Named(ToOf(a.theirs)) == t.to
    ensures !a.Verdict(s).Erase? && (a.Verdict(s).Write? ==> a.Base().Some?)
  {
  }

  /******** Path by path ********/

  lemma ReportedSides(from: seq<Entry>, to: seq<Entry>, mf: map<Key, Value>, mt: map<Key, Value>, k: Key)
    requires RowOf(from, mf) && RowOf(to, mt) && AllLeaf(from) && AllLeaf(to)
    ensures var ch := Reported(DiffOf(from, to), k);
            && (ch.None? <==> At(mf, k) == At(mt, k))
            && (ch.Some? ==> ch.value.key == k && FromOf(ch.value) == At(mf, k) && ToOf(ch.value) == At(mt, k))
  {
    hide DiffOf, Reported;
    DiffReports(from, to, k);
  }

  // The acts say of each path what the three namespaces hold there.
  ghost predicate Faithful(acts: seq<Act>, x: Sides, k: Key) {
    var a := ActAt(acts, k);
    && (a.None? <==> At(x.theirs, k) == At(x.base, k))
    && (a.Some? ==>
          && Coherent(a.value) && a.value.Key() == k && a.value.Base() == At(x.base, k)
          && a.value.Ours() == At(x.ours, k) && ToOf(a.value.theirs) == At(x.theirs, k)
          && (a.value.ours.Some? <==> At(x.ours, k) != At(x.base, k)))
  }

  lemma ZipFaithful(b: seq<Entry>, o: seq<Entry>, t: seq<Entry>, x: Sides, k: Key)
    requires RowOf(b, x.base) && RowOf(o, x.ours) && RowOf(t, x.theirs) && AllLeaf(b) && AllLeaf(o) && AllLeaf(t)
    ensures Ascending(DiffOf(b, o)) && Ascending(DiffOf(b, t))
    ensures Faithful(Zip(DiffOf(b, o), DiffOf(b, t)), x, k)
  {
    hide *;
    RowBounds(b, x.base);
    RowBounds(o, x.ours);
    RowBounds(t, x.theirs);
    DiffAscending(b, o, -1.0);
    DiffAscending(b, t, -1.0);
    ZipReports(DiffOf(b, o), DiffOf(b, t), k);
    ReportedSides(b, o, x.base, x.ours, k);
    ReportedSides(b, t, x.base, x.theirs, k);
    FaithfulIs(Zip(DiffOf(b, o), DiffOf(b, t)), x, k, Reported(DiffOf(b, o), k), Reported(DiffOf(b, t), k));
  }

  lemma FaithfulIs(acts: seq<Act>, x: Sides, k: Key, o: Option<Change>, t: Option<Change>)
    requires ActAt(acts, k) == if t.None? then None else Some(Act(o, t.value))
    requires o.None? <==> At(x.base, k) == At(x.ours, k)
    requires t.None? <==> At(x.base, k) == At(x.theirs, k)
    requires o.Some? ==> o.value.key == k && FromOf(o.value) == At(x.base, k) && ToOf(o.value) == At(x.ours, k)
    requires t.Some? ==> t.value.key == k && FromOf(t.value) == At(x.base, k) && ToOf(t.value) == At(x.theirs, k)
    ensures Faithful(acts, x, k)
  {
    hide ActAt, At;
  }

  lemma RowBounds(xs: seq<Entry>, m: map<Key, Value>)
    requires RowOf(xs, m)
    ensures Sorted(xs) && KeysAbove(-1.0, xs)
  {
  }

  lemma {:induction false} ActAtPush(acts: seq<Act>, a: Act, k: Key)
    requires ActsAscend(acts + [a])
    ensures ActAt(acts + [a], k) == if a.Key() == k then Some(a) else ActAt(acts, k)
  {
    if acts == [] {
      assert ([] + [a]) == [a] && ActAt([a][1..], k) == None;
    } else {
      var all := acts + [a];
      assert all[1..] == acts[1..] + [a] && all[0] == acts[0];
      assert Rank(all[0].Key()) < Rank(all[|acts|].Key());
      assert forall i, j :: 0 <= i < j < |all[1..]| ==> Rank(all[1..][i].Key()) < Rank(all[1..][j].Key());
      ActAtPush(acts[1..], a, k);
    }
  }

  // The edit the acts leave pending on a path.
  ghost function PendingOf(s: Setting, a: Option<Act>): Option<Option<seq<byte>>> {
    if a.None? then None
    else match a.value.Verdict(s)
         case Write(bytes) => Some(Some(bytes))
         case Erase => Some(None)
         case _ => None
  }

  lemma SnocAscends(acts: seq<Act>)
    requires ActsAscend(acts) && acts != []
    ensures ActsAscend(acts[..|acts| - 1]) && acts == acts[..|acts| - 1] + [acts[|acts| - 1]]
  {
  }

  lemma {:induction false} PendsAt(s: Setting, acts: seq<Act>, k: Key)
    requires ActsAscend(acts)
    ensures PendingAt(Pends(s, acts), k) == PendingOf(s, ActAt(acts, k))
    decreases |acts|
  {
    hide *;
    if acts == [] {
      NoPends(s, k);
    } else {
      var init, a := acts[..|acts| - 1], acts[|acts| - 1];
      SnocAscends(acts);
      PendsAt(s, init, k);
      ActAtPush(init, a, k);
      FoldsPush(s, init, a);
      NotYet(init, a);
      PendPush(s, Pends(s, init), ActAt(init, k), a, k);
    }
  }

  ghost function PendingAt(p: Pending, k: Key): Option<Option<seq<byte>>> {
    if k in p then Some(p[k]) else None
  }

  lemma NoPends(s: Setting, k: Key)
    ensures PendingAt(Pends(s, []), k) == PendingOf(s, ActAt([], k))
  {
  }

  lemma PendPush(s: Setting, p: Pending, was: Option<Act>, a: Act, k: Key)
    requires PendingAt(p, k) == PendingOf(s, was) && (a.Key() == k ==> was == None)
    ensures PendingAt(Pend1(s, p, a), k) == PendingOf(s, if a.Key() == k then Some(a) else was)
  {
    hide Act.Verdict;
  }

  lemma NotYet(acts: seq<Act>, a: Act)
    requires ActsAscend(acts + [a])
    ensures ActAt(acts, a.Key()) == None
  {
    assert forall i ::
             0 <= i < |acts| ==> (acts + [a])[i] == acts[i] && Rank(acts[i].Key()) < Rank((acts + [a])[|acts|].Key());
    ActAtNone(acts, a.Key());
  }

  lemma {:induction false} ActAtNone(acts: seq<Act>, k: Key)
    requires forall i :: 0 <= i < |acts| ==> acts[i].Key() != k
    ensures ActAt(acts, k) == None
  {
    if acts != [] {
      ActAtNone(acts[1..], k);
    }
  }

  // Ours with the acts' edits is the table's contents.
  lemma EditedIsMerged(s: Setting, x: Sides, acts: seq<Act>)
    requires ActsAscend(acts) && forall k :: Faithful(acts, x, k)
    ensures Edited(x.ours, Pends(s, acts), s.c) == x.Merged(s)
  {
    var m, m' := Edited(x.ours, Pends(s, acts), s.c), x.Merged(s);
    forall k ensures At(m, k) == At(m', k) {
      EditedAt(s, x, acts, k);
    }
    forall k ensures k in m <==> k in m' {
      assert At(m, k) == At(m', k);
    }
    forall k | k in m ensures m[k] == m'[k] {
      assert At(m, k) == At(m', k);
    }
  }

  lemma EditedAt(s: Setting, x: Sides, acts: seq<Act>, k: Key)
    requires ActsAscend(acts) && Faithful(acts, x, k)
    ensures At(Edited(x.ours, Pends(s, acts), s.c), k) == At(x.Merged(s), k)
  {
    PendsAt(s, acts, k);
    VerdictAt(s, x, acts, k);
    hide Pends, ActAt, Decide, Faithful;
  }

  lemma VerdictAt(s: Setting, x: Sides, acts: seq<Act>, k: Key)
    requires Faithful(acts, x, k)
    ensures ActAt(acts, k).Some? ==> ActAt(acts, k).value.Verdict(s) == x.Verdict(s, k)
    ensures ActAt(acts, k).None? ==> x.Verdict(s, k) in {Keep, Fail}
    ensures x.After(s, k).Some? ==> k in x.ours.Keys + x.theirs.Keys
  {
  }

  // The conflict a list records at a path.
  ghost function Find(cs: seq<Conflict>, k: Key): Option<Conflict> {
    if cs == [] then None
    else if cs[|cs| - 1].path == k then Some(cs[|cs| - 1]) else Find(cs[..|cs| - 1], k)
  }

  ghost predicate PathsAscend(cs: seq<Conflict>) {
    forall i, j :: 0 <= i < j < |cs| ==> Rank(cs[i].path) < Rank(cs[j].path)
  }

  // The list is exactly the undecided paths, in order.
  ghost predicate Exactly(s: Setting, x: Sides, cs: seq<Conflict>) {
    PathsAscend(cs) && forall k :: Find(cs, k) == x.ConflictAt(s, k)
  }

  ghost function ClashOf(s: Setting, a: Option<Act>): Option<Conflict> {
    if a.None? || Clash1(s, a.value) == [] then None else Some(Clash1(s, a.value)[0])
  }

  lemma FindPush(cs: seq<Conflict>, more: seq<Conflict>, k: Key)
    requires |more| <= 1
    ensures Find(cs + more, k) == if more != [] && more[0].path == k then Some(more[0]) else Find(cs, k)
  {
    if more != [] {
      assert (cs + more)[..|cs|] == cs && (cs + more)[|cs|] == more[0];
    } else {
      assert cs + more == cs;
    }
  }

  lemma ClashPush(s: Setting, was: Option<Act>, a: Act, k: Key)
    requires a.Key() == k ==> was == None
    ensures |Clash1(s, a)| <= 1
    ensures ClashOf(s, if a.Key() == k then Some(a) else was) ==
            if Clash1(s, a) != [] && Clash1(s, a)[0].path == k then Some(Clash1(s, a)[0]) else ClashOf(s, was)
  {
    hide Act.Verdict;
  }

  lemma NoClashes(s: Setting, k: Key)
    ensures Find(Clashes(s, []), k) == ClashOf(s, ActAt([], k))
  {
  }

  lemma {:induction false} ClashesAt(s: Setting, acts: seq<Act>, k: Key)
    requires ActsAscend(acts)
    ensures Find(Clashes(s, acts), k) == ClashOf(s, ActAt(acts, k))
    decreases |acts|
  {
    hide *;
    if acts == [] {
      NoClashes(s, k);
    } else {
      var init, a := acts[..|acts| - 1], acts[|acts| - 1];
      SnocAscends(acts);
      ClashesAt(s, init, k);
      ActAtPush(init, a, k);
      FoldsPush(s, init, a);
      NotYet(init, a);
      ClashPush(s, ActAt(init, k), a, k);
      FindPush(Clashes(s, init), Clash1(s, a), k);
    }
  }

  ghost predicate PathsUpTo(cs: seq<Conflict>, r: real) {
    forall i :: 0 <= i < |cs| ==> Rank(cs[i].path) <= r
  }

  lemma PathsPush(cs: seq<Conflict>, more: seq<Conflict>, r: real, k: Key)
    requires PathsAscend(cs) && PathsUpTo(cs, r) && r < Rank(k) && |more| <= 1 && (more != [] ==> more[0].path == k)
    ensures PathsAscend(cs + more) && PathsUpTo(cs + more, Rank(k))
  {
  }

  lemma ClashPath(s: Setting, a: Act)
    ensures |Clash1(s, a)| <= 1 && (Clash1(s, a) != [] ==> Clash1(s, a)[0].path == a.Key())
  {
    hide Act.Verdict;
  }

  lemma LastAbove(acts: seq<Act>, a: Act)
    requires ActsAscend(acts + [a]) && acts != []
    ensures Rank(acts[|acts| - 1].Key()) < Rank(a.Key())
  {
    assert (acts + [a])[|acts| - 1] == acts[|acts| - 1] && (acts + [a])[|acts|] == a;
  }

  lemma NonePaths(s: Setting, r: real)
    ensures PathsAscend(Clashes(s, [])) && PathsUpTo(Clashes(s, []), r)
  {
  }

  lemma {:induction false} ClashesAscend(s: Setting, acts: seq<Act>)
    requires ActsAscend(acts)
    ensures PathsAscend(Clashes(s, acts)) && (acts != [] ==> PathsUpTo(Clashes(s, acts), Rank(acts[|acts| - 1].Key())))
    decreases |acts|
  {
    hide *;
    if acts == [] {
      NonePaths(s, 0.0);
    } else {
      var init, a := acts[..|acts| - 1], acts[|acts| - 1];
      SnocAscends(acts);
      FoldsPush(s, init, a);
      ClashPath(s, a);
      ClashesAscend(s, init);
      var r := if init == [] then Rank(a.Key()) - 1.0 else Rank(init[|init| - 1].Key());
      if init == [] {
        NonePaths(s, r);
      } else {
        LastAbove(init, a);
      }
      PathsPush(Clashes(s, init), Clash1(s, a), r, a.Key());
    }
  }

  lemma ClashAt(s: Setting, x: Sides, acts: seq<Act>, k: Key)
    requires Faithful(acts, x, k)
    ensures ClashOf(s, ActAt(acts, k)) == x.ConflictAt(s, k)
  {
    VerdictAt(s, x, acts, k);
    hide ActAt, Decide;
  }

  // The conflicts the acts record are exactly the undecided paths.
  lemma ConflictsExact(s: Setting, x: Sides, acts: seq<Act>)
    requires ActsAscend(acts) && forall k :: Faithful(acts, x, k)
    ensures Exactly(s, x, Clashes(s, acts))
  {
    hide Clashes, Faithful, Find, ActAt, ActsAscend;
    ClashesAscend(s, acts);
    forall k ensures Find(Clashes(s, acts), k) == x.ConflictAt(s, k) {
      ClashesAt(s, acts, k);
      ClashAt(s, x, acts, k);
    }
  }

  /******** Counts ********/

  function TallyAct(s: Setting, a: Act): Tally {
    TallyOf(a.Verdict(s), a.Base())
  }

  ghost function Counting(s: Setting, acts: seq<Act>, n: Tally): set<Key> {
    if acts == [] then {}
    else
      Counting(s, acts[..|acts| - 1], n) + (if TallyAct(s, acts[|acts| - 1]) == n then {acts[|acts| - 1].Key()} else {})
  }

  lemma CountingPush(s: Setting, acts: seq<Act>, a: Act, n: Tally)
    ensures Counting(s, acts + [a], n) == Counting(s, acts, n) + (if TallyAct(s, a) == n then {a.Key()} else {})
  {
    assert (acts + [a])[..|acts|] == acts;
  }

  lemma {:induction false} CountingAt(s: Setting, acts: seq<Act>, n: Tally, k: Key)
    requires ActsAscend(acts)
    ensures k in Counting(s, acts, n) <==> ActAt(acts, k).Some? && TallyAct(s, ActAt(acts, k).value) == n
    decreases |acts|
  {
    if acts != [] {
      var init, a := acts[..|acts| - 1], acts[|acts| - 1];
      SnocAscends(acts);
      CountingPush(s, init, a, n);
      CountingAt(s, init, n, k);
      ActAtPush(init, a, k);
      NotYet(init, a);
      hide Counting, ActAt, TallyAct, ActsAscend;
    }
  }

  lemma CountingGrows(s: Setting, acts: seq<Act>, a: Act, n: Tally)
    requires ActsAscend(acts) && ActsAscend(acts + [a])
    ensures |Counting(s, acts + [a], n)| == |Counting(s, acts, n)| + (if TallyAct(s, a) == n then 1 else 0)
  {
    CountingPush(s, acts, a, n);
    CountingAt(s, acts, n, a.Key());
    NotYet(acts, a);
    hide Counting, TallyAct, ActAt, ActsAscend;
  }

  lemma CountsGrow(s: Setting, st: Stats, a: Act)
    ensures Count1(s, st, a) == NamespaceStats(st.added + (if TallyAct(s, a) == Adds then 1 else 0),
                                               st.removed + (if TallyAct(s, a) == Removes then 1 else 0),
                                               st.modified + (if TallyAct(s, a) == Modifies then 1 else 0),
                                                 st.conflicts)
    ensures |Clash1(s, a)| == if TallyAct(s, a) == Conflicts then 1 else 0
  {
    hide Act.Verdict;
  }

  lemma NothingCounted(s: Setting)
    ensures Counts(s, []) == NamespaceStats(0, 0, 0, 0) && Clashes(s, []) == [] && forall n :: Counting(s, [], n) == {}
  {
  }

  lemma {:induction false} CountingIs(s: Setting, acts: seq<Act>)
    requires ActsAscend(acts)
    ensures Counts(s, acts) == NamespaceStats(|Counting(s, acts, Adds)|, |Counting(s, acts, Removes)|,
            |Counting(s, acts, Modifies)|, 0)
    ensures |Clashes(s, acts)| == |Counting(s, acts, Conflicts)|
    decreases |acts|
  {
    hide *;
    if acts == [] {
      NothingCounted(s);
    } else {
      var init, a := acts[..|acts| - 1], acts[|acts| - 1];
      SnocAscends(acts);
      CountingIs(s, init);
      FoldsPush(s, init, a);
      CountsGrow(s, Counts(s, init), a);
      CountingGrows(s, init, a, Adds);
      CountingGrows(s, init, a, Removes);
      CountingGrows(s, init, a, Modifies);
      CountingGrows(s, init, a, Conflicts);
    }
  }

  lemma CountedAt(s: Setting, x: Sides, acts: seq<Act>, n: Tally, k: Key)
    requires ActsAscend(acts) && Faithful(acts, x, k) && n != Nothing
    ensures k in Counting(s, acts, n) <==> k in x.Counted(s, n)
  {
    CountingAt(s, acts, n, k);
    VerdictAt(s, x, acts, k);
    hide Counting, ActAt, Decide, ActsAscend;
  }

  // The counts are those of the table.
  lemma CountsExact(s: Setting, x: Sides, acts: seq<Act>)
    requires ActsAscend(acts) && forall k :: Faithful(acts, x, k)
    ensures Counts(s, acts).(conflicts := |Clashes(s, acts)|) == x.Stats(s)
    ensures |Clashes(s, acts)| == |x.Counted(s, Conflicts)|
  {
    hide Counting, Counts, Clashes, Faithful, ActsAscend, Sides.Counted;
    CountingIs(s, acts);
    forall n: Tally | n != Nothing ensures Counting(s, acts, n) == x.Counted(s, n) {
      forall k ensures k in Counting(s, acts, n) <==> k in x.Counted(s, n) {
        CountedAt(s, x, acts, n, k);
      }
    }
  }

  /******** What fails ********/

  lemma {:induction false} ReportedOf(chs: seq<Change>, i: nat)
    requires Ascending(chs) && i < |chs|
    ensures Reported(chs, chs[i].key) == Some(chs[i])
  {
    if i > 0 {
      assert Rank(chs[0].key) < Rank(chs[i].key);
      TailAbove(chs);
      ReportedOf(chs[1..], i - 1);
    }
  }

  lemma TailAscends(acts: seq<Act>)
    requires ActsAscend(acts) && acts != []
    ensures ActsAscend(acts[1..])
  {
  }

  lemma {:induction false} ActAtOf(acts: seq<Act>, i: nat)
    requires ActsAscend(acts) && i < |acts|
    ensures ActAt(acts, acts[i].Key()) == Some(acts[i])
  {
    if i > 0 {
      assert Rank(acts[0].Key()) < Rank(acts[i].Key());
      TailAscends(acts);
      ActAtOf(acts[1..], i - 1);
    }
  }

  lemma {:induction false} ReportedIn(chs: seq<Change>, k: Key)
    requires Reported(chs, k).Some?
    ensures exists i :: 0 <= i < |chs| && chs[i] == Reported(chs, k).value
  {
    if chs[0].key != k {
      ReportedIn(chs[1..], k);
      var i :| 0 <= i < |chs[1..]| && chs[1..][i] == Reported(chs[1..], k).value;
      assert chs[i + 1] == Reported(chs, k).value;
    }
  }

  lemma {:induction false} ActAtIn(acts: seq<Act>, k: Key)
    requires ActAt(acts, k).Some?
    ensures exists i :: 0 <= i < |acts| && acts[i] == ActAt(acts, k).value
  {
    if acts[0].Key() != k {
      ActAtIn(acts[1..], k);
      var i :| 0 <= i < |acts[1..]| && acts[1..][i] == ActAt(acts[1..], k).value;
      assert acts[i + 1] == ActAt(acts, k).value;
    }
  }

  ghost predicate AllDecoded(s: Setting, chs: seq<Change>, n: nat) {
    n <= |chs| && forall i :: 0 <= i < n ==> Decoded(s, chs[i]).Some?
  }

  ghost predicate NoneFail(s: Setting, acts: seq<Act>) {
    forall i :: 0 <= i < |acts| ==> !acts[i].Verdict(s).Fail?
  }

  // A stored change the merge cannot read fails it.
  lemma CorruptFails(s: Setting, x: Sides, ch: Change)
    requires Decoded(s, ch).None? && Genuine(ch) && FromOf(ch) == At(x.base, ch.key)
    requires ToOf(ch) == At(x.ours, ch.key) || ToOf(ch) == At(x.theirs, ch.key)
    ensures x.Verdict(s, ch.key).Fail?
  {
  }

  // A path both of whose changes were read fails only with its act.
  lemma ReadPath(s: Setting, x: Sides, k: Key, o: Option<Change>, t: Option<Change>)
    requires o.None? <==> At(x.base, k) == At(x.ours, k)
    requires t.None? <==> At(x.base, k) == At(x.theirs, k)
    requires o.Some? ==>
               o.value.key == k && FromOf(o.value) == At(x.base, k) && ToOf(o.value) == At(x.ours, k)
                 && Decoded(s, o.value).Some?
    requires t.Some? ==>
               t.value.key == k && FromOf(t.value) == At(x.base, k) && ToOf(t.value) == At(x.theirs, k)
                 && Decoded(s, t.value).Some?
    ensures x.Verdict(s, k).Fail? ==> t.Some?
  {
  }

  /** The three rows a merge reads, and the acts of their zip. */
  ghost predicate Laid(x: Sides, b: seq<Entry>, o: seq<Entry>, t: seq<Entry>) {
    RowOf(b, x.base) && RowOf(o, x.ours) && RowOf(t, x.theirs) && AllLeaf(b) && AllLeaf(o) && AllLeaf(t)
  }

  lemma LaidMeans(x: Sides, b: seq<Entry>, o: seq<Entry>, t: seq<Entry>)
    requires Laid(x, b, o, t)
    ensures RowOf(b, x.base) && RowOf(o, x.ours) && RowOf(t, x.theirs) && AllLeaf(b) && AllLeaf(o) && AllLeaf(t)
  {
  }

  ghost function ZipOf(b: seq<Entry>, o: seq<Entry>, t: seq<Entry>): seq<Act>
    requires AllLeaf(b) && AllLeaf(o) && AllLeaf(t)
  {
    Zip(DiffOf(b, o), DiffOf(b, t))
  }

  lemma ZipOfMeans(x: Sides, b: seq<Entry>, o: seq<Entry>, t: seq<Entry>)
    requires Laid(x, b, o, t)
    ensures AllLeaf(b) && AllLeaf(o) && AllLeaf(t) && Ascending(DiffOf(b, o)) && Ascending(DiffOf(b, t))
    ensures ActsAscend(ZipOf(b, o, t)) && forall k :: Faithful(ZipOf(b, o, t), x, k)
  {
    hide Faithful, Zip, DiffOf, ActsAscend, RowOf, Ascending, AllLeaf;
    forall k ensures Faithful(ZipOf(b, o, t), x, k) {
      ZipFaithful(b, o, t, x, k);
    }
    ZipFaithful(b, o, t, x, []);
    RowBounds(b, x.base);
    RowBounds(t, x.theirs);
    DiffAscending(b, t, -1.0);
    ZipAscends(DiffOf(b, o), DiffOf(b, t), -1.0);
  }

  // A merge that read every change and decided every act fails nowhere.
  lemma FailsNowhere(s: Setting, x: Sides, b: seq<Entry>, o: seq<Entry>, t: seq<Entry>, k: Key)
    requires Laid(x, b, o, t) && AllLeaf(b) && AllLeaf(o) && AllLeaf(t)
    requires AllDecoded(s, DiffOf(b, o), |DiffOf(b, o)|) && AllDecoded(s, DiffOf(b, t), |DiffOf(b, t)|)
    requires NoneFail(s, ZipOf(b, o, t))
    ensures !x.Verdict(s, k).Fail?
  {
    hide *;
    LaidMeans(x, b, o, t);
    ZipOfMeans(x, b, o, t);
    var co, ct, acts := Reported(DiffOf(b, o), k), Reported(DiffOf(b, t), k), ZipOf(b, o, t);
    ReportedSides(b, o, x.base, x.ours, k);
    ReportedSides(b, t, x.base, x.theirs, k);
    DecodedAt(s, DiffOf(b, o), k);
    DecodedAt(s, DiffOf(b, t), k);
    ReadPath(s, x, k, co, ct);
    VerdictAt(s, x, acts, k);
    FaithfulMeans(acts, x, k);
    if ActAt(acts, k).Some? {
      FineAt(s, acts, k);
    }
  }

  lemma FaithfulMeans(acts: seq<Act>, x: Sides, k: Key)
    requires Faithful(acts, x, k)
    ensures ActAt(acts, k).None? <==> At(x.theirs, k) == At(x.base, k)
  {
  }

  lemma DecodedAt(s: Setting, chs: seq<Change>, k: Key)
    requires AllDecoded(s, chs, |chs|)
    ensures Reported(chs, k).Some? ==> Decoded(s, Reported(chs, k).value).Some?
  {
    hide Decoded, Reported;
    if Reported(chs, k).Some? {
      ReportedIn(chs, k);
    }
  }

  lemma FineAt(s: Setting, acts: seq<Act>, k: Key)
    requires NoneFail(s, acts) && ActAt(acts, k).Some?
    ensures !ActAt(acts, k).value.Verdict(s).Fail?
  {
    hide ActAt, Act.Verdict;
    ActAtIn(acts, k);
  }

  /******** The loop ********/

  // A side's diff being read: n changes used, the next one fetched, the rest still to come.
  ghost predicate Reading(s: Setting, chs: seq<Change>, n: nat, c: Option<NsChange>, left: seq<Change>) {
    && AllDecoded(s, chs, n)
    && (c.None? ==> n == |chs| && left == [])
    && (c.Some? ==> n < |chs| && Decoded(s, chs[n]) == c && left == chs[n + 1..])
  }

  lemma ReadingMeans(s: Setting, chs: seq<Change>, n: nat, c: Option<NsChange>, left: seq<Change>)
    requires Reading(s, chs, n, c, left)
    ensures n <= |chs| && AllDecoded(s, chs, n)
    ensures c.None? ==> n == |chs|
    ensures c.Some? ==>
              n < |chs| && Decoded(s, chs[n]) == c && left == chs[n + 1..] && AllDecoded(s, chs, n + 1)
                && c.value.path == chs[n].key
  {
  }

  lemma ReadingIs(s: Setting, chs: seq<Change>, n: nat, c: Option<NsChange>, left: seq<Change>, left': seq<Change>)
    requires AllDecoded(s, chs, n) && left == chs[n..]
    requires left == [] ==> c.None? && left' == []
    requires left != [] ==> c.Some? && c == Decoded(s, left[0]) && left' == left[1..]
    ensures Reading(s, chs, n, c, left')
  {
    if left != [] {
      DropOne(chs, n);
    }
  }

  // One side's next change, decoded; failing to decode it ends the merge.
  method Fetch(s: Setting, d: DiffIter, ghost chs: seq<Change>, ghost n: nat) returns (c: Option<NsChange>, ok: bool)
    requires d.Valid() && AllDecoded(s, chs, n) && n <= |chs| && d.Left() == chs[n..]
    modifies d.repr
    ensures d.Valid() && (ok ==> Reading(s, chs, n, c, d.Left()))
    ensures !ok ==> n < |chs| && Decoded(s, chs[n]).None?
  {
    hide *;
    ghost var left := d.Left();
    var ch := d.Next();
    if ch.None? {
      ReadingIs(s, chs, n, None, left, d.Left());
      return None, true;
    }
    DropOne(chs, n);
    c := Decoded(s, ch.value);
    ok := c.Some?;
    if ok {
      ReadingIs(s, chs, n, c, left, d.Left());
    }
  }

  lemma ZipUnfolds(o: seq<Change>, t: seq<Change>)
    ensures t == [] ==> Zip(o, t) == []
    ensures t != [] && o != [] && Rank(o[0].key) < Rank(t[0].key) ==> Zip(o, t) == Zip(o[1..], t)
    ensures t != [] && (o == [] || Rank(t[0].key) < Rank(o[0].key)) ==> Zip(o, t) == [Act(None, t[0])] + Zip(o, t[1..])
    ensures t != [] && o != [] && o[0].key == t[0].key ==> Zip(o, t) == [Act(Some(o[0]), t[0])] + Zip(o[1..], t[1..])
  {
  }

  // Where the loop is: what is zipped and what is left make the whole zip.
  ghost predicate Zipped(all: seq<Act>, done: seq<Act>, o: seq<Change>, i: nat, t: seq<Change>, j: nat) {
    i <= |o| && j <= |t| && done + Zip(o[i..], t[j..]) == all
  }

  lemma ZippedMeans(all: seq<Act>, done: seq<Act>, o: seq<Change>, i: nat, t: seq<Change>, j: nat)
    requires Zipped(all, done, o, i, t, j)
    ensures i <= |o| && j <= |t|
    ensures i == |o| && j == |t| ==> done == all
    ensures i < |o| && j == |t| ==> Zipped(all, done, o, i + 1, t, j)
    ensures i < |o| && j < |t| && Rank(o[i].key) < Rank(t[j].key) ==> Zipped(all, done, o, i + 1, t, j)
    ensures j < |t| && (i == |o| || Rank(t[j].key) < Rank(o[i].key)) ==>
              Act(None, t[j]) in all && Zipped(all, done + [Act(None, t[j])], o, i, t, j + 1)
    ensures j < |t| && i < |o| && t[j].key == o[i].key ==>
              Act(Some(o[i]), t[j]) in all && Zipped(all, done + [Act(Some(o[i]), t[j])], o, i + 1, t, j + 1)
  {
    hide Zip;
    ZipUnfolds(o[i..], t[j..]);
    if i < |o| {
      DropOne(o, i);
      ZipUnfolds(o[i + 1..], t[j..]);
    }
    if j < |t| {
      DropOne(t, j);
      var rest0, rest1 := Zip(o[i..], t[j + 1..]), if i < |o| then Zip(o[i + 1..], t[j + 1..]) else [];
      AppendAssoc(done, [Act(None, t[j])], rest0);
      if i < |o| {
        AppendAssoc(done, [Act(Some(o[i]), t[j])], rest1);
      }
    }
  }

  ghost predicate Contends(acts: seq<Act>) {
    exists i :: 0 <= i < |acts| && acts[i].ours.Some?
  }

  // Why a zip stops short: a change it cannot read, an act it cannot decide, too many conflicts.
  ghost predicate Stuck(s: Setting, o: seq<Change>, t: seq<Change>, all: seq<Act>, maxConflicts: int) {
    !AllDecoded(s, o, |o|) || !AllDecoded(s, t, |t|) || !NoneFail(s, all)
      || (Contends(all) && |Clashes(s, all)| > maxConflicts)
  }

  lemma Unread(s: Setting, chs: seq<Change>, n: nat)
    requires n < |chs| && Decoded(s, chs[n]).None?
    ensures !AllDecoded(s, chs, |chs|)
  {
    hide Decoded;
  }

  lemma Undecided(s: Setting, all: seq<Act>, a: Act)
    requires a in all && a.Verdict(s).Fail?
    ensures !NoneFail(s, all)
  {
    hide Act.Verdict;
  }

  lemma {:induction false} ClashesMore(s: Setting, done: seq<Act>, rest: seq<Act>)
    ensures |Clashes(s, done)| <= |Clashes(s, done + rest)|
    decreases |rest|
  {
    hide *;
    if rest == [] {
      assert done + rest == done;
    } else {
      var init, a := rest[..|rest| - 1], rest[|rest| - 1];
      ClashesMore(s, done, init);
      assert done + rest == (done + init) + [a];
      FoldsPush(s, done + init, a);
    }
  }

  lemma TooMany(s: Setting, all: seq<Act>, done: seq<Act>, o: seq<Change>, i: nat, t: seq<Change>, j: nat,
                maxConflicts: int)
    requires Zipped(all, done, o, i, t, j) && Contends(done) && |Clashes(s, done)| > maxConflicts
    ensures Contends(all) && |Clashes(s, all)| > maxConflicts
  {
    hide Clashes, Zip;
    ClashesMore(s, done, Zip(o[i..], t[j..]));
    var n :| 0 <= n < |done| && done[n].ours.Some?;
    assert all[n] == done[n];
  }

  lemma ContendsPush(acts: seq<Act>, a: Act)
    ensures Contends(acts + [a]) <==> Contends(acts) || a.ours.Some?
  {
    if Contends(acts) {
      var n :| 0 <= n < |acts| && acts[n].ours.Some?;
      assert (acts + [a])[n] == acts[n];
    }
    assert (acts + [a])[|acts|] == a;
  }

  lemma NoneFailPush(s: Setting, acts: seq<Act>, a: Act)
    requires NoneFail(s, acts) && !a.Verdict(s).Fail?
    ensures NoneFail(s, acts + [a])
  {
    hide Act.Verdict;
  }

  lemma StuckIs(s: Setting, o: seq<Change>, t: seq<Change>, all: seq<Act>, maxConflicts: int)
    ensures Stuck(s, o, t, all, maxConflicts) <==>
            !AllDecoded(s, o, |o|) || !AllDecoded(s, t, |t|) || !NoneFail(s, all)
              || (Contends(all) && |Clashes(s, all)| > maxConflicts)
  {
  }

  lemma ZipStart(s: Setting, o: seq<Change>, t: seq<Change>)
    ensures Zipped(Zip(o, t), [], o, 0, t, 0) && AllDecoded(s, o, 0) && AllDecoded(s, t, 0)
    ensures NoneFail(s, []) && !Contends([]) && o[0..] == o && t[0..] == t
  {
  }

  lemma CoherentMeans(s: Setting, a: Act)
    requires Coherent(a)
    ensures Genuine(a.theirs) && (a.ours.None? ==> Clash1(s, a) == [])
  {
  }

  /** Where the loop is in both diffs. */
  datatype Place = Place(i: nat, co: Option<NsChange>, j: nat, ct: Option<NsChange>)

  ghost predicate Midway(z: Zipper, dO: DiffIter, dT: DiffIter, maxConflicts: int, o: seq<Change>, t: seq<Change>,
                         p: Place)
    reads z, z.ed, dO.repr, dT.repr
  {
    && z.Valid() && dO.Valid() && dT.Valid() && dO.repr !! dT.repr
    && Reading(z.s, o, p.i, p.co, dO.Left()) && Reading(z.s, t, p.j, p.ct, dT.Left())
    && Zipped(Zip(o, t), z.acts, o, p.i, t, p.j) && NoneFail(z.s, z.acts)
    && (Contends(z.acts) ==> |Clashes(z.s, z.acts)| <= maxConflicts)
  }

  lemma MidwayMeans(z: Zipper, dO: DiffIter, dT: DiffIter, maxConflicts: int, o: seq<Change>, t: seq<Change>, p: Place)
    requires Midway(z, dO, dT, maxConflicts, o, t, p)
    ensures z.Valid() && dO.Valid() && dT.Valid() && dO.repr !! dT.repr
    ensures Reading(z.s, o, p.i, p.co, dO.Left()) && Reading(z.s, t, p.j, p.ct, dT.Left())
    ensures Zipped(Zip(o, t), z.acts, o, p.i, t, p.j) && NoneFail(z.s, z.acts)
    ensures Contends(z.acts) ==> |Clashes(z.s, z.acts)| <= maxConflicts
    ensures p.i <= |o| && p.j <= |t|
  {
    hide *;
    MidwayUnfolds(z, dO, dT, maxConflicts, o, t, p);
    ReadingMeans(z.s, o, p.i, p.co, dO.Left());
    ReadingMeans(z.s, t, p.j, p.ct, dT.Left());
  }

  lemma MidwayUnfolds(z: Zipper, dO: DiffIter, dT: DiffIter, maxConflicts: int, o: seq<Change>, t: seq<Change>,
                      p: Place)
    ensures Midway(z, dO, dT, maxConflicts, o, t, p) <==>
            && z.Valid() && dO.Valid() && dT.Valid() && dO.repr !! dT.repr
            && Reading(z.s, o, p.i, p.co, dO.Left()) && Reading(z.s, t, p.j, p.ct, dT.Left())
            && Zipped(Zip(o, t), z.acts, o, p.i, t, p.j) && NoneFail(z.s, z.acts)
            && (Contends(z.acts) ==> |Clashes(z.s, z.acts)| <= maxConflicts)
  {
    hide Zipper.Valid, DiffIter.Valid, DiffIter.Left, Reading, Zipped, NoneFail, Contends, Clashes, Zip;
  }

  // Passes a path only ours changed.
  method PassOurs(z: Zipper, dO: DiffIter, dT: DiffIter, maxConflicts: int, ghost o: seq<Change>, ghost t: seq<Change>,
                  p: Place)
    returns (p': Place, ok: bool)
    requires Midway(z, dO, dT, maxConflicts, o, t, p) && p.co.Some?
    requires p.ct.Some? ==> Rank(p.co.value.path) < Rank(p.ct.value.path)
    modifies dO.repr
    ensures if ok then Midway(z, dO, dT, maxConflicts, o, t, p') && p'.i == p.i + 1 && p'.j == p.j
            else Stuck(z.s, o, t, Zip(o, t), maxConflicts)
  {
    hide *;
    MidwayMeans(z, dO, dT, maxConflicts, o, t, p);
    ReadingMeans(z.s, o, p.i, p.co, dO.Left());
    ReadingMeans(z.s, t, p.j, p.ct, dT.Left());
    ZippedMeans(Zip(o, t), z.acts, o, p.i, t, p.j);
    var co;
    co, ok := Fetch(z.s, dO, o, p.i + 1);
    p' := Place(p.i + 1, co, p.j, p.ct);
    if ok {
      MidwayUnfolds(z, dO, dT, maxConflicts, o, t, p');
    } else {
      Unread(z.s, o, p.i + 1);
      StuckIs(z.s, o, t, Zip(o, t), maxConflicts);
    }
  }

  // Takes a path only theirs changed.
  method TakeTheirs(z: Zipper, dO: DiffIter, dT: DiffIter, maxConflicts: int, ghost o: seq<Change>,
                    ghost t: seq<Change>, p: Place)
    returns (p': Place, ok: bool)
    requires Midway(z, dO, dT, maxConflicts, o, t, p) && p.ct.Some?
    requires p.co.Some? ==> Rank(p.ct.value.path) < Rank(p.co.value.path)
    requires forall a :: a in Zip(o, t) ==> Coherent(a)
    modifies z, z.ed`edits, dT.repr
    ensures if ok then Midway(z, dO, dT, maxConflicts, o, t, p') && p'.i == p.i && p'.j == p.j + 1
            else Stuck(z.s, o, t, Zip(o, t), maxConflicts)
  {
    hide *;
    p' := p;
    MidwayMeans(z, dO, dT, maxConflicts, o, t, p);
    ReadingMeans(z.s, o, p.i, p.co, dO.Left());
    ReadingMeans(z.s, t, p.j, p.ct, dT.Left());
    ZippedMeans(Zip(o, t), z.acts, o, p.i, t, p.j);
    StuckIs(z.s, o, t, Zip(o, t), maxConflicts);
    ghost var a, done := Act(None, t[p.j]), z.acts;
    CoherentMeans(z.s, a);
    ok := z.Take(p.ct.value, a);
    if !ok {
      Undecided(z.s, Zip(o, t), a);
      return;
    }
    NoneFailPush(z.s, done, a);
    ContendsPush(done, a);
    FoldsPush(z.s, done, a);
    var ct;
    ct, ok := Fetch(z.s, dT, t, p.j + 1);
    if !ok {
      Unread(z.s, t, p.j + 1);
      return;
    }
    p' := Place(p.i, p.co, p.j + 1, ct);
    MidwayUnfolds(z, dO, dT, maxConflicts, o, t, p');
  }

  // One step of the zip at a path on both sides.
  method DecideBothSides(z: Zipper, dO: DiffIter, dT: DiffIter, maxConflicts: int, ghost o: seq<Change>,
                         ghost t: seq<Change>, p: Place)
    returns (p': Place, ok: bool)
    requires Midway(z, dO, dT, maxConflicts, o, t, p) && p.co.Some? && p.ct.Some? && p.co.value.path == p.ct.value.path
    requires forall a :: a in Zip(o, t) ==> Coherent(a)
    modifies z, z.ed`edits, dO.repr, dT.repr
    ensures if ok then Midway(z, dO, dT, maxConflicts, o, t, p') && p'.i == p.i + 1 && p'.j == p.j + 1
            else Stuck(z.s, o, t, Zip(o, t), maxConflicts)
  {
    hide *;
    p' := p;
    MidwayMeans(z, dO, dT, maxConflicts, o, t, p);
    ReadingMeans(z.s, o, p.i, p.co, dO.Left());
    ReadingMeans(z.s, t, p.j, p.ct, dT.Left());
    ZippedMeans(Zip(o, t), z.acts, o, p.i, t, p.j);
    StuckIs(z.s, o, t, Zip(o, t), maxConflicts);
    ghost var a, done := Act(Some(o[p.i]), t[p.j]), z.acts;
    ok := z.Both(p.co.value, p.ct.value, a);
    if !ok {
      Undecided(z.s, Zip(o, t), a);
      return;
    }
    NoneFailPush(z.s, done, a);
    ContendsPush(done, a);
    z.ValidMeans();
    if |z.conflicts| > maxConflicts {
      TooMany(z.s, Zip(o, t), z.acts, o, p.i + 1, t, p.j + 1, maxConflicts);
      return p, false;
    }
    var co, ct;
    co, ok := Fetch(z.s, dO, o, p.i + 1);
    if !ok {
      Unread(z.s, o, p.i + 1);
      return;
    }
    ct, ok := Fetch(z.s, dT, t, p.j + 1);
    if !ok {
      Unread(z.s, t, p.j + 1);
      return;
    }
    p' := Place(p.i + 1, co, p.j + 1, ct);
    MidwayUnfolds(z, dO, dT, maxConflicts, o, t, p');
  }

  // Fetches the first change of each side.
  method Start(z: Zipper, dO: DiffIter, dT: DiffIter, maxConflicts: int, ghost o: seq<Change>, ghost t: seq<Change>)
    returns (p: Place, ok: bool)
    requires z.Valid() && z.acts == [] && dO.Valid() && dT.Valid() && dO.repr !! dT.repr
    requires dO.Left() == o && dT.Left() == t
    modifies dO.repr, dT.repr
    ensures if ok then Midway(z, dO, dT, maxConflicts, o, t, p) else Stuck(z.s, o, t, Zip(o, t), maxConflicts)
  {
    hide *;
    ZipStart(z.s, o, t);
    StuckIs(z.s, o, t, Zip(o, t), maxConflicts);
    var co, ct;
    p := Place(0, None, 0, None);
    co, ok := Fetch(z.s, dO, o, 0);
    if !ok {
      Unread(z.s, o, 0);
      return;
    }
    ct, ok := Fetch(z.s, dT, t, 0);
    if !ok {
      Unread(z.s, t, 0);
      return;
    }
    p := Place(0, co, 0, ct);
    MidwayUnfolds(z, dO, dT, maxConflicts, o, t, p);
  }

  /** Zips the two diffs into the zipper; false when it stops short. */
  method ZipAll(z: Zipper, dO: DiffIter, dT: DiffIter, maxConflicts: int, ghost o: seq<Change>, ghost t: seq<Change>)
    returns (ok: bool)
    requires z.Valid() && z.acts == [] && dO.Valid() && dT.Valid() && dO.repr !! dT.repr
    requires dO.Left() == o && dT.Left() == t && forall a :: a in Zip(o, t) ==> Coherent(a)
    modifies z, z.ed`edits, dO.repr, dT.repr
    ensures ok <==> !Stuck(z.s, o, t, Zip(o, t), maxConflicts)
    ensures ok ==> z.Valid() && z.acts == Zip(o, t)
  {
    hide *;
    var p;
    p, ok := Start(z, dO, dT, maxConflicts, o, t);
    while ok && (p.co.Some? || p.ct.Some?)
      invariant if ok then Midway(z, dO, dT, maxConflicts, o, t, p) else Stuck(z.s, o, t, Zip(o, t), maxConflicts)
      decreases if ok then |o| - p.i + |t| - p.j + 1 else 0
    {
      MidwayMeans(z, dO, dT, maxConflicts, o, t, p);
      var cmp := 0;
      if p.co.Some? && p.ct.Some? {
        cmp := Compare(p.co.value.path, p.ct.value.path);
      }
      ghost var was := p;
      if p.ct.None? || (p.co.Some? && cmp < 0) {
        p, ok := PassOurs(z, dO, dT, maxConflicts, o, t, p);
      } else if p.co.None? || cmp > 0 {
        p, ok := TakeTheirs(z, dO, dT, maxConflicts, o, t, p);
      } else {
        p, ok := DecideBothSides(z, dO, dT, maxConflicts, o, t, p);
      }
      if ok {
        MidwayMeans(z, dO, dT, maxConflicts, o, t, p);
      }
    }
    if ok {
      MidwayMeans(z, dO, dT, maxConflicts, o, t, p);
      ReadingMeans(z.s, o, p.i, p.co, dO.Left());
      ReadingMeans(z.s, t, p.j, p.ct, dT.Left());
      ZippedMeans(Zip(o, t), z.acts, o, p.i, t, p.j);
      StuckIs(z.s, o, t, Zip(o, t), maxConflicts);
    }
  }

  /******** The merge ********/

  lemma HeldRow(rule: SplitRule, root: Node, m: map<Key, Value>)
    requires Holds(rule, root, m)
    ensures Good(root) && RowOf(LeafRow(root), m) && AllLeaf(LeafRow(root))
  {
    hide *;
    var xs := RowHeld(rule, root, m);
    Flush.CanonicalLevel(rule, xs, 0);
    RowLeaf(root);
  }

  lemma LaidIs(x: Sides, b: seq<Entry>, o: seq<Entry>, t: seq<Entry>)
    requires RowOf(b, x.base) && RowOf(o, x.ours) && RowOf(t, x.theirs) && AllLeaf(b) && AllLeaf(o) && AllLeaf(t)
    ensures Laid(x, b, o, t)
  {
  }

  lemma ActMeans(s: Setting, acts: seq<Act>, x: Sides, i: nat)
    requires ActsAscend(acts) && i < |acts| && Faithful(acts, x, acts[i].Key())
    ensures Coherent(acts[i]) && acts[i].Verdict(s) == x.Verdict(s, acts[i].Key())
    ensures var k := acts[i].Key();
            At(x.theirs, k) != At(x.base, k) && (acts[i].ours.Some? <==> At(x.ours, k) != At(x.base, k))
  {
    hide ActsAscend, ActAt, Decide;
    ActAtOf(acts, i);
  }

  lemma AllCoherent(s: Setting, x: Sides, b: seq<Entry>, o: seq<Entry>, t: seq<Entry>)
    requires Laid(x, b, o, t) && AllLeaf(b) && AllLeaf(o) && AllLeaf(t)
    ensures forall a :: a in ZipOf(b, o, t) ==> Coherent(a)
  {
    hide *;
    ZipOfMeans(x, b, o, t);
    forall a | a in ZipOf(b, o, t) ensures Coherent(a) {
      var i :| 0 <= i < |ZipOf(b, o, t)| && ZipOf(b, o, t)[i] == a;
      ActMeans(s, ZipOf(b, o, t), x, i);
    }
  }

  // A change that cannot be read shows as a path that cannot be decided.
  lemma UnreadPath(s: Setting, x: Sides, from: seq<Entry>, to: seq<Entry>, mt: map<Key, Value>) returns (k: Key)
    requires RowOf(from, x.base) && RowOf(to, mt) && AllLeaf(from) && AllLeaf(to) && mt in {x.ours, x.theirs}
    requires Ascending(DiffOf(from, to)) && !AllDecoded(s, DiffOf(from, to), |DiffOf(from, to)|)
    ensures x.Verdict(s, k).Fail?
  {
    hide RowOf, DiffOf, Reported, Ascending, Decoded, Sides.Verdict;
    var chs := DiffOf(from, to);
    var i :| 0 <= i < |chs| && Decoded(s, chs[i]).None?;
    k := chs[i].key;
    ReportedOf(chs, i);
    ReportedSides(from, to, x.base, mt, k);
    CorruptFails(s, x, chs[i]);
  }

  lemma FailedPath(s: Setting, x: Sides, acts: seq<Act>) returns (k: Key)
    requires ActsAscend(acts) && (forall k :: Faithful(acts, x, k)) && !NoneFail(s, acts)
    ensures x.Verdict(s, k).Fail?
  {
    hide ActsAscend, Faithful, Act.Verdict, Sides.Verdict;
    var i :| 0 <= i < |acts| && acts[i].Verdict(s).Fail?;
    ActMeans(s, acts, x, i);
    k := acts[i].Key();
  }

  lemma ContendsIs(s: Setting, x: Sides, acts: seq<Act>)
    requires ActsAscend(acts) && (forall k :: Faithful(acts, x, k))
    ensures Contends(acts) <==> x.Contended()
  {
    hide ActsAscend, ActAt;
    if Contends(acts) {
      var i :| 0 <= i < |acts| && acts[i].ours.Some?;
      ActMeans(s, acts, x, i);
    }
    if x.Contended() {
      var k :| At(x.ours, k) != At(x.base, k) && At(x.theirs, k) != At(x.base, k);
      assert Faithful(acts, x, k);
      ActAtIn(acts, k);
    }
  }

  // The zip stops short exactly when the table refuses the merge.
  lemma StuckIsRefused(s: Setting, x: Sides, b: seq<Entry>, o: seq<Entry>, t: seq<Entry>, maxConflicts: int)
    requires Laid(x, b, o, t) && AllLeaf(b) && AllLeaf(o) && AllLeaf(t)
    ensures Stuck(s, DiffOf(b, o), DiffOf(b, t), ZipOf(b, o, t), maxConflicts) <==> x.Refused(s, maxConflicts)
  {
    hide *;
    var dO, dT, acts := DiffOf(b, o), DiffOf(b, t), ZipOf(b, o, t);
    LaidMeans(x, b, o, t);
    ZipOfMeans(x, b, o, t);
    StuckIs(s, dO, dT, acts, maxConflicts);
    RefusedIs(s, x, maxConflicts);
    ContendsIs(s, x, acts);
    CountsExact(s, x, acts);
    if !AllDecoded(s, dO, |dO|) {
      var k := UnreadPath(s, x, b, o, x.ours);
    } else if !AllDecoded(s, dT, |dT|) {
      var k := UnreadPath(s, x, b, t, x.theirs);
    } else if !NoneFail(s, acts) {
      var k := FailedPath(s, x, acts);
    } else {
      forall k ensures !x.Verdict(s, k).Fail? {
        FailsNowhere(s, x, b, o, t, k);
      }
    }
  }

  lemma RefusedIs(s: Setting, x: Sides, maxConflicts: int)
    ensures x.Refused(s, maxConflicts) <==>
            (exists k :: x.Verdict(s, k).Fail?) || (x.Contended() && |x.Counted(s, Conflicts)| > maxConflicts)
  {
    hide Sides.Verdict, Sides.Contended, Sides.Counted;
  }

  datatype Outcome = Done(root: Node, conflicts: seq<Conflict>, stats: Stats) | Failed

  // What the full zip comes to.
  ghost predicate Merges(s: Setting, x: Sides, maxConflicts: int, r: Outcome) {
    && (r.Failed? <==> x.Refused(s, maxConflicts))
    && (r.Done? ==> Holds(AsSplitRule(s.r), r.root, x.Merged(s)) && Exactly(s, x, r.conflicts) && r.stats == x.Stats(s))
  }

  lemma MergesIs(s: Setting, x: Sides, maxConflicts: int, r: Outcome)
    requires r.Failed? <==> x.Refused(s, maxConflicts)
    requires r.Done? ==>
               Holds(AsSplitRule(s.r), r.root, x.Merged(s)) && Exactly(s, x, r.conflicts) && r.stats == x.Stats(s)
    ensures Merges(s, x, maxConflicts, r)
  {
    hide *;
    MergesUnfolds(s, x, maxConflicts, r);
  }

  lemma MergesUnfolds(s: Setting, x: Sides, maxConflicts: int, r: Outcome)
    ensures Merges(s, x, maxConflicts, r) <==>
            && (r.Failed? <==> x.Refused(s, maxConflicts))
            && (r.Done? ==>
                  Holds(AsSplitRule(s.r), r.root, x.Merged(s)) && Exactly(s, x, r.conflicts) && r.stats == x.Stats(s))
  {
    hide Holds, Exactly, Sides.Refused, Sides.Merged, Sides.Stats, AsSplitRule;
  }

  lemma SettingMeans(s: Setting)
    requires s.Valid()
    ensures s.r.Valid() && s.c.maxValue == REF_SIZE
  {
  }

  /** The full zip of both diffs into ours. */
  method MergeZipped(s: Setting, base: Node, ours: Node, theirs: Node, maxConflicts: int, ghost x: Sides)
    returns (r: Outcome)
    requires s.Valid() && Holds(AsSplitRule(s.r), base, x.base)
    requires Holds(AsSplitRule(s.r), ours, x.ours) && Holds(AsSplitRule(s.r), theirs, x.theirs)
    ensures Merges(s, x, maxConflicts, r)
  {
    hide *;
    ghost var rule := AsSplitRule(s.r);
    SettingMeans(s);
    HeldRow(rule, base, x.base);
    HeldRow(rule, ours, x.ours);
    HeldRow(rule, theirs, x.theirs);
    ghost var b, o, t := LeafRow(base), LeafRow(ours), LeafRow(theirs);
    LaidIs(x, b, o, t);
    AllCoherent(s, x, b, o, t);
    StuckIsRefused(s, x, b, o, t, maxConflicts);
    ZipOfIs(b, o, t);
    var dO := Diff(base, ours);
    var dT := Diff(base, theirs);
    var ed := new Editor(s.r, s.c, ours, x.ours);
    var z := new Zipper(s, ed);
    var ok := ZipAll(z, dO, dT, maxConflicts, DiffOf(b, o), DiffOf(b, t));
    if !ok {
      MergesIs(s, x, maxConflicts, Failed);
      return Failed;
    }
    z.ValidMeans();
    var f := ed.Flush();
    ZipOfMeans(x, b, o, t);
    EditedIsMerged(s, x, z.acts);
    ConflictsExact(s, x, z.acts);
    CountsExact(s, x, z.acts);
    ed.ValidMeans();
    r := Done(f.root, z.conflicts, z.stats.(conflicts := |z.conflicts|));
    MergesIs(s, x, maxConflicts, r);
  }

  lemma ZipOfIs(b: seq<Entry>, o: seq<Entry>, t: seq<Entry>)
    requires AllLeaf(b) && AllLeaf(o) && AllLeaf(t)
    ensures ZipOf(b, o, t) == Zip(DiffOf(b, o), DiffOf(b, t))
  {
    hide Zip, DiffOf;
  }

  function Limit(maxConflicts: int): int {
    if maxConflicts == 0 then DEFAULT_MAX_CONFLICTS else maxConflicts
  }

  /** The three-way merge of namespaces. Equal roots are answered at once, without reading a change or asking for a
      model; anything else is the full zip. */
  method Merge(s: Setting, base: Node, ours: Node, theirs: Node, maxConflicts: int, ghost x: Sides) returns (r: Outcome)
    requires s.Valid() && Holds(AsSplitRule(s.r), base, x.base)
    requires Holds(AsSplitRule(s.r), ours, x.ours) && Holds(AsSplitRule(s.r), theirs, x.theirs)
    ensures x.base == x.theirs ==> r == Done(ours, [], NO_STATS)
    ensures x.base != x.theirs && x.base == x.ours ==> r == Done(theirs, [], NO_STATS)
    ensures x.base != x.theirs && x.base != x.ours && x.ours == x.theirs && !s.AnyAccumulates() ==>
              r == Done(ours, [], NO_STATS)
    ensures x.base != x.theirs && x.base != x.ours && (x.ours != x.theirs || s.AnyAccumulates()) ==>
              Merges(s, x, Limit(maxConflicts), r)
  {
    hide Holds, Merges, Setting.Valid, AsSplitRule;
    Canonicity(AsSplitRule(s.r), base, x.base, theirs, x.theirs);
    Canonicity(AsSplitRule(s.r), base, x.base, ours, x.ours);
    Canonicity(AsSplitRule(s.r), ours, x.ours, theirs, x.theirs);
    if base == theirs {
      return Done(ours, [], NO_STATS);
    }
    if base == ours {
      return Done(theirs, [], NO_STATS);
    }
    if ours == theirs && !s.AnyAccumulates() {
      return Done(ours, [], NO_STATS);
    }
    r := MergeZipped(s, base, ours, theirs, Limit(maxConflicts), x);
  }

  /******** The fast paths against the zip ********/

  // Every path a side changed can be read on both ends of the change.
  ghost predicate ChangesReadable(s: Setting, from: map<Key, Value>, to: map<Key, Value>) {
    forall k :: At(from, k) != At(to, k) ==> s.Readable(k, At(from, k)) && s.Readable(k, At(to, k))
  }

  // Every path a side added or modified names an object whose model is registered.
  ghost predicate ChangesResolve(s: Setting, from: map<Key, Value>, to: map<Key, Value>) {
    forall k :: k in to && At(from, k) != At(to, k) && s.Read(to[k]).Some? ==> s.Resolves(s.Read(to[k]).value)
  }

  // Every reference a side added or modified is stored the way an editor stores it.
  ghost predicate ChangesStored(s: Setting, from: map<Key, Value>, to: map<Key, Value>) {
    forall k ::
      k in to && At(from, k) != At(to, k) && s.Read(to[k]).Some? ==> s.c.Stored(Encode(s.Read(to[k]).value)) == to[k]
  }

  lemma MapsEqual(m: map<Key, Value>, m': map<Key, Value>)
    requires forall k :: At(m, k) == At(m', k)
    ensures m == m'
  {
    forall k ensures k in m <==> k in m' {
      assert At(m, k) == At(m', k);
    }
    forall k | k in m ensures m[k] == m'[k] {
      assert At(m, k) == At(m', k);
    }
  }

  lemma NoConflicts(s: Setting, x: Sides)
    requires forall k :: !x.Verdict(s, k).Clash?
    ensures Exactly(s, x, []) && x.Counted(s, Conflicts) == {}
  {
    hide Sides.Verdict;
  }

  lemma MergedAt(s: Setting, x: Sides, k: Key)
    ensures At(x.Merged(s), k) == x.After(s, k)
  {
    AfterIn(s, x, k);
    hide Sides.After;
  }

  lemma AfterIn(s: Setting, x: Sides, k: Key)
    ensures x.After(s, k).Some? ==> k in x.ours.Keys + x.theirs.Keys
  {
  }

  lemma SumsToNone(s: Setting, x: Sides)
    requires forall k :: x.Verdict(s, k) in {Keep, Fail}
    ensures x.Stats(s) == NO_STATS
  {
    hide Sides.Verdict;
    assert forall n: Tally :: n != Nothing ==> x.Counted(s, n) == {};
  }

  // Theirs did not change: the zip gives ours, unless ours made a change that cannot be read.
  lemma TheirsUnchanged(s: Setting, x: Sides, maxConflicts: int)
    requires x.base == x.theirs
    ensures x.Merged(s) == x.ours && Exactly(s, x, []) && x.Stats(s) == NO_STATS
    ensures x.Refused(s, maxConflicts) <==> !ChangesReadable(s, x.base, x.ours)
  {
    forall k
      ensures x.Verdict(s, k) in {Keep, Fail} && x.After(s, k) == At(x.ours, k)
      ensures x.Verdict(s, k).Fail? <==>
                At(x.base, k) != At(x.ours, k) && !(s.Readable(k, At(x.base, k)) && s.Readable(k, At(x.ours, k)))
    {
    }
    hide Sides.Verdict, Sides.After, Setting.Readable;
    NoConflicts(s, x);
    SumsToNone(s, x);
    forall k ensures At(x.Merged(s), k) == At(x.ours, k) {
      MergedAt(s, x, k);
    }
    MapsEqual(x.Merged(s), x.ours);
  }

  // Both sides made the same changes and no model accumulates: the zip gives ours, unless a change cannot be read or
  // the limit is negative, when the first shared path is one conflict too many.
  lemma SameChanges(s: Setting, x: Sides, maxConflicts: int)
    requires x.ours == x.theirs && !s.AnyAccumulates()
    ensures x.Merged(s) == x.ours && Exactly(s, x, []) && x.Stats(s) == NO_STATS
    ensures x.Refused(s, maxConflicts) <==>
              !ChangesReadable(s, x.base, x.ours) || (maxConflicts < 0 && x.base != x.ours)
  {
    forall k
      ensures x.Verdict(s, k) in {Keep, Fail} && x.After(s, k) == At(x.ours, k)
      ensures x.Verdict(s, k).Fail? <==>
                At(x.base, k) != At(x.ours, k) && !(s.Readable(k, At(x.base, k)) && s.Readable(k, At(x.ours, k)))
    {
      SameVerdict(s, x, k);
    }
    hide Sides.Verdict, Sides.After, Setting.Readable;
    NoConflicts(s, x);
    SumsToNone(s, x);
    SameContended(x);
    forall k ensures At(x.Merged(s), k) == At(x.ours, k) {
      MergedAt(s, x, k);
    }
    MapsEqual(x.Merged(s), x.ours);
  }

  lemma SameContended(x: Sides)
    requires x.ours == x.theirs
    ensures x.Contended() <==> x.base != x.ours
  {
    if !x.Contended() {
      forall k ensures At(x.base, k) == At(x.ours, k) {
      }
      MapsEqual(x.base, x.ours);
    }
  }

  lemma SameVerdict(s: Setting, x: Sides, k: Key)
    requires x.ours == x.theirs && !s.AnyAccumulates()
    ensures x.Verdict(s, k) in {Keep, Fail} && x.After(s, k) == At(x.ours, k)
    ensures x.Verdict(s, k).Fail? <==>
              At(x.base, k) != At(x.ours, k) && !(s.Readable(k, At(x.base, k)) && s.Readable(k, At(x.ours, k)))
  {
  }

  // What the zip makes of a path when ours did not change.
  lemma TheirsVerdict(s: Setting, x: Sides, k: Key)
    requires x.base == x.ours
    ensures var b, t := At(x.base, k), At(x.theirs, k); var v := x.Verdict(s, k);
            && !v.Clash? && (v == Keep <==> b == t)
            && (v.Fail? <==>
                  b != t && !(s.Readable(k, b) && s.Readable(k, t) && (t.Some? ==> s.Resolves(s.Read(t.value).value))))
            && (v == Keep || v == Erase ==> x.After(s, k) == t)
            && (v.Write? ==>
                  t.Some? && s.Read(t.value).Some? && x.After(s, k) == Some(s.c.Stored(Encode(s.Read(t.value).value))))
  {
  }

  // Ours did not change: when the zip is not refused it gives theirs exactly where theirs' references are
  // stored as an editor stores them, and it counts what the fast path does not.
  lemma OursUnchanged(s: Setting, x: Sides, maxConflicts: int)
    requires x.base == x.ours
    ensures Exactly(s, x, [])
    ensures x.Refused(s, maxConflicts) <==>
              !(ChangesReadable(s, x.base, x.theirs) && ChangesResolve(s, x.base, x.theirs))
    ensures !x.Refused(s, maxConflicts) ==> (x.Merged(s) == x.theirs <==> ChangesStored(s, x.base, x.theirs))
    ensures !x.Refused(s, maxConflicts) ==> (x.Stats(s) == NO_STATS <==> x.base == x.theirs)
  {
    forall k ensures !x.Verdict(s, k).Clash? {
      TheirsVerdict(s, x, k);
    }
    NoConflicts(s, x);
    OursUnchangedRefused(s, x, maxConflicts);
    if !x.Refused(s, maxConflicts) {
      OursUnchangedMerged(s, x);
      OursUnchangedStats(s, x);
    }
  }

  /** Where the shortcut and the table part: theirs adds a path whose model is not registered. The table refuses the
      merge whatever the limit, while the shortcut for an unchanged ours returns theirs. */
  lemma UnresolvedAdded(s: Setting, k: Key, ref: Ref, maxConflicts: int)
    requires s.ValidPath(k) && ref.model != 0 && ref.root.format != 0 && !s.Resolves(ref)
    requires s.load(Inline(Encode(ref))) == Some(Encode(ref))
    ensures var x := Sides(map[], map[], map[k := Inline(Encode(ref))]);
            x.Refused(s, maxConflicts) && x.base == x.ours && x.base != x.theirs
  {
    var x := Sides(map[], map[], map[k := Inline(Encode(ref))]);
    DecodeEncode(ref);
    hide Encode, Decode;
    assert At(x.base, k) != At(x.theirs, k) && s.Read(x.theirs[k]) == Some(ref);
    assert !ChangesResolve(s, x.base, x.theirs);
    hide *;
    OursUnchanged(s, x, maxConflicts);
  }

  lemma OursUnchangedRefused(s: Setting, x: Sides, maxConflicts: int)
    requires x.base == x.ours
    ensures x.Refused(s, maxConflicts) <==>
              !(ChangesReadable(s, x.base, x.theirs) && ChangesResolve(s, x.base, x.theirs))
    ensures !x.Refused(s, maxConflicts) ==> forall k :: !x.Verdict(s, k).Fail?
  {
    forall k
      ensures x.Verdict(s, k).Fail? <==>
              var b, t := At(x.base, k), At(x.theirs, k);
              b != t && !(s.Readable(k, b) && s.Readable(k, t) && (t.Some? ==> s.Resolves(s.Read(t.value).value)))
    {
      TheirsVerdict(s, x, k);
    }
    hide Sides.Verdict, Setting.Resolves, Setting.Read, Setting.ValidPath;
  }

  lemma OursUnchangedMerged(s: Setting, x: Sides)
    requires x.base == x.ours && forall k :: !x.Verdict(s, k).Fail?
    ensures x.Merged(s) == x.theirs <==> ChangesStored(s, x.base, x.theirs)
  {
    forall k ensures At(x.Merged(s), k) == At(x.theirs, k) <==>
                     (k in x.theirs && At(x.base, k) != At(x.theirs, k) && s.Read(x.theirs[k]).Some? ==>
                        s.c.Stored(Encode(s.Read(x.theirs[k]).value)) == x.theirs[k])
    {
      TheirsVerdict(s, x, k);
      MergedAt(s, x, k);
      hide Sides.Verdict, Sides.After, Sides.Merged, Setting.Resolves, Setting.Read, Encode, Config.Stored;
    }
    if ChangesStored(s, x.base, x.theirs) {
      MapsEqual(x.Merged(s), x.theirs);
    }
  }

  lemma OursUnchangedStats(s: Setting, x: Sides)
    requires x.base == x.ours && forall k :: !x.Verdict(s, k).Fail?
    ensures x.Stats(s) == NO_STATS <==> x.base == x.theirs
  {
    if x.base == x.theirs {
      forall k ensures x.Verdict(s, k) in {Keep, Fail} {
        TheirsVerdict(s, x, k);
      }
      SumsToNone(s, x);
    } else {
      if forall k :: At(x.base, k) == At(x.theirs, k) {
        MapsEqual(x.base, x.theirs);
      }
      var k :| At(x.base, k) != At(x.theirs, k);
      TheirsVerdict(s, x, k);
      hide Sides.Verdict;
      var n := TallyOf(x.Verdict(s, k), At(x.base, k));
      assert k in x.Counted(s, n);
    }
  }

  // Where the zip is not refused and theirs' references are stored as an editor stores them, every fast path
  // returns the very tree the zip would.
  lemma FastPathsAgree(s: Setting, x: Sides, maxConflicts: int, fast: Node, r: Outcome)
    requires Merges(s, x, maxConflicts, r) && r.Done? && ChangesStored(s, x.base, x.theirs)
    requires (x.base == x.theirs && Holds(AsSplitRule(s.r), fast, x.ours))
             || (x.base == x.ours && Holds(AsSplitRule(s.r), fast, x.theirs))
             || (x.ours == x.theirs && !s.AnyAccumulates() && Holds(AsSplitRule(s.r), fast, x.ours))
    ensures r.root == fast && r.conflicts == []
  {
    hide *;
    MergesUnfolds(s, x, maxConflicts, r);
    if x.base == x.theirs {
      TheirsUnchanged(s, x, maxConflicts);
    } else if x.base == x.ours {
      OursUnchanged(s, x, maxConflicts);
    } else {
      SameChanges(s, x, maxConflicts);
    }
    Canonicity(AsSplitRule(s.r), r.root, x.Merged(s), fast, x.Merged(s));
    ExactlyNone(s, x, r.conflicts);
  }

  lemma ExactlyNone(s: Setting, x: Sides, cs: seq<Conflict>)
    requires Exactly(s, x, cs) && Exactly(s, x, [])
    ensures cs == []
  {
    var k := if cs == [] then [] else cs[|cs| - 1].path;
    assert Find(cs, k) == Find([], k) == None;
  }
}
