/** A branch's working set through a merge: every operation lands by swapping the set it read, so what a merge
    replaced, and what it is merging, stay fixed until a commit or an abort ends it. */
module WorkingSets {
  import opened Basics
  import opened History

  type Path = nat
  type Root = nat

  /** A merge in progress: the two commits, the paths still undecided, and both namespaces as they were before. */
  datatype MergeState = MergeState(base: Id, theirs: Id, conflicts: set<Path>, preWorking: Root, preStaged: Root)

  datatype WorkingSet = WorkingSet(working: Root, staged: Root, merge: Option<MergeState>)

  datatype State = State(st: Store, head: Id, ws: WorkingSet)

  // Each event that names a working set acts on the one its caller read, which may be stale. So may be the head a
  // merge's base was found from: the swap that starts the merge compares working sets only.
  datatype Event =
    | Update(prev: WorkingSet, next: WorkingSet)
    | StartMerge(prev: WorkingSet, head: Id, base: Id, theirs: Id, merged: Root, conflicts: set<Path>)
    | Resolve(prev: WorkingSet, path: Path, working: Root, staged: Root)
    | Abort
    | CommitStaged(id: Id)
    | Commit(prev: WorkingSet, namespace: Root, id: Id)
    | Elsewhere(id: Id, parent: Id, second: Option<Id>)

  predicate Settled(ws: WorkingSet) {
    ws.merge.Some? ==> ws.merge.value.conflicts == {}
  }

  function Theirs(ws: WorkingSet): Option<Id> {
    if ws.merge.Some? then Some(ws.merge.value.theirs) else None
  }

  // A commit's hash is new.
  ghost predicate Unused(st: Store, id: Id) {
    id !in st && forall c :: c in st ==> id !in st[c].parents
  }

  ghost predicate Enabled(s: State, e: Event) {
    match e
    case Update(prev, next) => s.ws == prev && s.ws.merge == next.merge
    case StartMerge(prev, head, base, theirs, _, _) =>
      && s.ws == prev && prev.merge.None? && head in s.st && theirs in s.st && base != theirs
      && Reaches(s.st, s.head, head) && Best(s.st, head, theirs, base)
    case Resolve(prev, path, _, _) => s.ws == prev && prev.merge.Some? && path in prev.merge.value.conflicts
    case Abort => s.ws.merge.Some?
    case CommitStaged(id) => Settled(s.ws) && Unused(s.st, id)
    case Commit(prev, _, id) => s.ws == prev && Settled(s.ws) && Unused(s.st, id)
    case Elsewhere(id, parent, theirs) => Unused(s.st, id) && parent in s.st && (theirs.Some? ==> theirs.value in s.st)
  }

  ghost predicate Sound(s: State) {
    && Heighted(s.st) && s.head in s.st
    && (s.ws.merge.Some? ==>
          s.ws.merge.value.theirs in s.st && Common(s.st, s.head, s.ws.merge.value.theirs, s.ws.merge.value.base))
  }

  ghost function Do(s: State, e: Event): State
    requires Enabled(s, e) && Sound(s)
  {
    match e
    case Update(_, next) => s.(ws := next)
    case StartMerge(prev, _, base, theirs, merged, conflicts) =>
      s.(ws := WorkingSet(merged, merged, Some(MergeState(base, theirs, conflicts, prev.working, prev.staged))))
    case Resolve(prev, path, working, staged) =>
      s.(ws := WorkingSet(working, staged, Some(prev.merge.value.(conflicts := prev.merge.value.conflicts - {path}))))
    case Abort => s.(ws := WorkingSet(s.ws.merge.value.preWorking, s.ws.merge.value.preStaged, None))
    case CommitStaged(id) =>
      s.(st := s.st[id := Committed(s.st, s.head, Theirs(s.ws))], head := id, ws := s.ws.(merge := None))
    case Commit(_, namespace, id) =>
      s.(st := s.st[id := Committed(s.st, s.head, Theirs(s.ws))], head := id,
         ws := WorkingSet(namespace, namespace, None))
    case Elsewhere(id, parent, theirs) => s.(st := s.st[id := Committed(s.st, parent, theirs)])
  }

  lemma StepExtends(s: State, e: Event)
    requires Sound(s) && Enabled(s, e)
    ensures Extends(s.st, Do(s, e).st)
  {
    hide Reaches, Heighted, Best;
  }

  // A step that writes a commit keeps heights.
  lemma StepHeights(s: State, e: Event)
    requires Sound(s) && Enabled(s, e)
    ensures Heighted(Do(s, e).st) && Do(s, e).head in Do(s, e).st
  {
    hide Reaches, Best;
    match e
    case CommitStaged(id) => CommitKeepsHeights(s.st, id, s.head, Theirs(s.ws));
    case Commit(_, _, id) => CommitKeepsHeights(s.st, id, s.head, Theirs(s.ws));
    case Elsewhere(id, parent, theirs) => CommitKeepsHeights(s.st, id, parent, theirs);
    case _ =>
  }

  // Heights hold on every run, and the base of a merge in progress is a common ancestor of the head and theirs.
  lemma StepSound(s: State, e: Event)
    requires Sound(s) && Enabled(s, e)
    ensures Sound(Do(s, e))
  {
    StepHeights(s, e);
    StepExtends(s, e);
    hide Reaches, Heighted, Extends, Best;
    var s' := Do(s, e);
    if e.StartMerge? {
      BestReached(s.st, e.head, e.theirs, e.base);
      ReachesOn(s.st, s.head, e.head, e.base);
    } else if s'.ws.merge.Some? {
      var m := s.ws.merge.value;
      BestSame(s.st, s'.st, s.head, m.theirs, m.base);
    }
  }

  lemma BestReached(st: Store, a: Id, b: Id, h: Id)
    requires Best(st, a, b, h)
    ensures h in st && Reaches(st, a, h) && Reaches(st, b, h)
  {
    hide Reaches;
  }

  ghost predicate Ends(e: Event) {
    e.Abort? || e.CommitStaged? || e.Commit?
  }

  /** The state a run of events ends in, if every event can happen when it does. */
  ghost function Run(s: State, es: seq<Event>): Option<State>
    requires Sound(s)
    decreases |es|
  {
    if es == [] then Some(s)
    else if !Enabled(s, es[0]) then None
    else
      StepSound(s, es[0]);
      Run(Do(s, es[0]), es[1..])
  }

  // The same merge, with no more left to decide.
  ghost predicate Continues(m: MergeState, m': MergeState) {
    m' == m.(conflicts := m'.conflicts) && m'.conflicts <= m.conflicts
  }

  ghost predicate BaseIsBest(s: State)
    requires s.ws.merge.Some?
  {
    Best(s.st, s.head, s.ws.merge.value.theirs, s.ws.merge.value.base)
  }

  lemma StepContinues(s: State, e: Event)
    requires Sound(s) && Enabled(s, e) && s.ws.merge.Some? && !Ends(e)
    ensures Do(s, e).ws.merge.Some? && Continues(s.ws.merge.value, Do(s, e).ws.merge.value)
    ensures Do(s, e).head == s.head && (BaseIsBest(s) <==> BaseIsBest(Do(s, e)))
  {
    StepExtends(s, e);
    BestSame(s.st, Do(s, e).st, s.head, s.ws.merge.value.theirs, s.ws.merge.value.base);
    hide Reaches, Heighted, Extends, Best;
  }

  // Until a commit or an abort, a run of updates, resolutions and other branches' commits keeps what is merged,
  // its base, whether that is the best base, and where it started, and only settles conflicts.
  lemma {:induction false} MergeContinues(s: State, es: seq<Event>)
    requires Sound(s) && s.ws.merge.Some? && Run(s, es).Some? && forall i :: 0 <= i < |es| ==> !Ends(es[i])
    ensures Run(s, es).value.ws.merge.Some? && Continues(s.ws.merge.value, Run(s, es).value.ws.merge.value)
    ensures Run(s, es).value.head == s.head && (BaseIsBest(s) <==> BaseIsBest(Run(s, es).value))
    decreases |es|
  {
    if es != [] {
      StepContinues(s, es[0]);
      StepSound(s, es[0]);
      MergeContinues(Do(s, es[0]), es[1..]);
    }
  }

  lemma {:induction false} RunSound(s: State, es: seq<Event>)
    requires Sound(s) && Run(s, es).Some?
    ensures Sound(Run(s, es).value)
    decreases |es|
  {
    if es != [] {
      StepSound(s, es[0]);
      RunSound(Do(s, es[0]), es[1..]);
    }
  }

  /** However long a merge was worked on, aborting it puts back exactly the working set its start replaced. */
  lemma AbortRestores(s: State, start: Event, es: seq<Event>)
    requires Sound(s) && start.StartMerge? && Enabled(s, start) && Sound(Do(s, start)) && Run(Do(s, start), es).Some?
    requires forall i :: 0 <= i < |es| ==> !Ends(es[i])
    ensures var t := Run(Do(s, start), es).value;
            Sound(t) && Enabled(t, Abort) && Do(t, Abort).ws == s.ws && Do(t, Abort).head == t.head
  {
    RunSound(Do(s, start), es);
    MergeContinues(Do(s, start), es);
  }

  /** A commit lands only with every conflict settled, under a commit of its own above both its parents; it ends
      the merge. */
  lemma CommitSettles(s: State, e: Event)
    requires Sound(s) && Enabled(s, e) && (e.CommitStaged? || e.Commit?)
    ensures Settled(s.ws) && Do(s, e).ws.merge.None?
    ensures var s' := Do(s, e); var c := s'.st[s'.head];
            && (forall p :: p in c.parents <==> p == s.head || Some(p) == Theirs(s.ws))
            && forall p :: p in c.parents ==> p in s.st && s.st[p].height < c.height
  {
    var c := Committed(s.st, s.head, Theirs(s.ws));
    forall p | p in c.parents ensures p in s.st && s.st[p].height < c.height {
      HighestBounds(s.st, c.parents, p);
    }
  }

  // Every conflict is settled by a resolution of its path and no other way.
  lemma {:induction false} SettledByResolving(s: State, es: seq<Event>, path: Path)
    requires Sound(s) && s.ws.merge.Some? && Run(s, es).Some? && forall i :: 0 <= i < |es| ==> !Ends(es[i])
    requires path in s.ws.merge.value.conflicts && Run(s, es).value.ws.merge.Some?
    ensures path !in Run(s, es).value.ws.merge.value.conflicts <==>
              exists i :: 0 <= i < |es| && es[i].Resolve? && es[i].path == path
    decreases |es|
  {
    if es != [] {
      var e, rest := es[0], es[1..];
      StepSound(s, e);
      StepContinues(s, e);
      var s' := Do(s, e);
      MergeContinues(s', rest);
      if e.Resolve? && e.path == path {
        assert path !in s'.ws.merge.value.conflicts;
      } else {
        SettledByResolving(s', rest, path);
        if i :| 0 <= i < |es| && es[i].Resolve? && es[i].path == path {
          assert rest[i - 1] == es[i];
        }
        if i :| 0 <= i < |rest| && rest[i].Resolve? && rest[i].path == path {
          assert es[i + 1] == rest[i];
        }
      }
    }
  }

  /******** A base found from a head that has moved since ********/

  lemma StepHead(s: State, e: Event)
    requires Sound(s) && Enabled(s, e)
    ensures Reaches(Do(s, e).st, Do(s, e).head, s.head)
  {
    ReachesSelf(Do(s, e).st, Do(s, e).head);
    if e.CommitStaged? || e.Commit? {
      ReachesParent(Do(s, e).st, Do(s, e).head, Do(s, e).head, s.head);
    }
  }

  // The store only grows, and the head only moves on to descendants.
  lemma {:induction false} RunExtends(s: State, es: seq<Event>)
    requires Sound(s) && Run(s, es).Some?
    ensures Extends(s.st, Run(s, es).value.st) && Reaches(Run(s, es).value.st, Run(s, es).value.head, s.head)
    decreases |es|
  {
    hide Reaches, Heighted, Extends, Best, Enabled, Do;
    if es == [] {
      ReachesSelf(s.st, s.head);
      ExtendsSelf(s.st);
    } else {
      var s' := Do(s, es[0]);
      StepSound(s, es[0]);
      StepExtends(s, es[0]);
      StepHead(s, es[0]);
      RunExtends(s', es[1..]);
      var t := Run(s', es[1..]).value;
      ExtendsMore(s.st, s'.st, t.st);
      SoundHead(s');
      ReachesSame(s'.st, t.st, s'.head, s.head);
      ReachesOn(t.st, t.head, s'.head, s.head);
    }
  }

  lemma ExtendsSelf(st: Store)
    ensures Extends(st, st)
  {
  }

  lemma SoundHead(s: State)
    requires Sound(s)
    ensures s.head in s.st
  {
  }

  // A commit theirs has that the branch gained between the two states.
  ghost predicate Gained(s: State, t: State, theirs: Id, c: Id) {
    c in s.st && Reaches(s.st, theirs, c) && Reaches(t.st, t.head, c) && !Reaches(s.st, s.head, c)
  }

  lemma CommonLater(s: State, t: State, theirs: Id, c: Id)
    requires Extends(s.st, t.st) && Reaches(t.st, t.head, s.head) && s.head in s.st && theirs in s.st
    ensures Common(t.st, t.head, theirs, c) <==> Common(s.st, s.head, theirs, c) || Gained(s, t, theirs, c)
  {
    ReachesSame(s.st, t.st, theirs, c);
    ReachesSame(s.st, t.st, s.head, c);
    hide Reaches;
    if Reaches(t.st, s.head, c) {
      ReachesOn(t.st, t.head, s.head, c);
    }
  }

  /** Whatever happens between finding a merge's base and recording it, the base is a common ancestor of the head and
      theirs. It is still the best one exactly when nothing of theirs that the branch gained meanwhile comes before
      it. */
  lemma BaseFoundEarlier(s: State, es: seq<Event>, theirs: Id, base: Id)
    requires Sound(s) && Run(s, es).Some? && theirs in s.st && Best(s.st, s.head, theirs, base)
    ensures var t := Run(s, es).value;
            && Common(t.st, t.head, theirs, base) && Reaches(t.st, t.head, s.head)
            && s.head in t.st && Best(t.st, s.head, theirs, base)
            && (Best(t.st, t.head, theirs, base) <==> forall c :: Gained(s, t, theirs, c) ==> Before(s.st, base, c))
  {
    var t := Run(s, es).value;
    RunExtends(s, es);
    BestSame(s.st, t.st, s.head, theirs, base);
    forall c ensures Common(t.st, t.head, theirs, c) <==> Common(s.st, s.head, theirs, c) || Gained(s, t, theirs, c) {
      CommonLater(s, t, theirs, c);
    }
    hide Reaches, Heighted, Run;
    forall c | Common(t.st, t.head, theirs, c) ensures Before(s.st, base, c) <==> Before(t.st, base, c) {
    }
  }

  // Without a merge the branch gains no old commit.
  lemma {:induction false} NothingGained(s: State, es: seq<Event>, c: Id)
    requires Sound(s) && s.ws.merge.None? && Run(s, es).Some? && forall i :: 0 <= i < |es| ==> !es[i].StartMerge?
    requires c in s.st && Reaches(Run(s, es).value.st, Run(s, es).value.head, c)
    ensures Reaches(s.st, s.head, c)
    decreases |es|
  {
    hide Reaches, Heighted, Extends, Best;
    if es != [] {
      var e := es[0];
      var s' := Do(s, e);
      StepSound(s, e);
      StepExtends(s, e);
      assert forall i :: 0 <= i < |es[1..]| ==> es[1..][i] == es[i + 1];
      assert s'.ws.merge.None? && c in s'.st;
      NothingGained(s', es[1..], c);
      if s'.head != s.head {
        var p := ReachesThrough(s'.st, s'.head, c);
        assert p == s.head;
      }
      ReachesSame(s.st, s'.st, s.head, c);
    }
  }

  /** So plain commits alone never make the base found before them less than the best. */
  lemma PlainCommitsKeepBest(s: State, es: seq<Event>, theirs: Id, base: Id)
    requires Sound(s) && s.ws.merge.None? && Run(s, es).Some? && forall i :: 0 <= i < |es| ==> !es[i].StartMerge?
    requires theirs in s.st && Best(s.st, s.head, theirs, base)
    ensures Best(Run(s, es).value.st, Run(s, es).value.head, theirs, base)
  {
    BaseFoundEarlier(s, es, theirs, base);
    var t := Run(s, es).value;
    hide Reaches, Heighted, Run, Best, Common;
    forall c ensures !Gained(s, t, theirs, c) {
      if Gained(s, t, theirs, c) {
        NothingGained(s, es, c);
      }
    }
  }

  // A branch at the first of three commits in a row.
  const LINE: Store := map[0 := History.Commit([], 0), 1 := History.Commit([0], 1), 2 := History.Commit([1], 2)]
  const EARLY := State(LINE, 0, WorkingSet(5, 5, None))
  // It merges the second, which changes none of its files, and commits.
  const MEANWHILE := [StartMerge(EARLY.ws, 0, 0, 1, 5, {}), CommitStaged(3)]
  const LATER := State(LINE[3 := History.Commit([0, 1], 2)], 3, EARLY.ws)
  // A merge of the third, whose base was found before all that.
  const LATE := StartMerge(EARLY.ws, 0, 0, 2, 5, {})

  lemma EarlyReaches(st: Store)
    requires Extends(EARLY.st, st)
    ensures forall x :: x in {0, 1, 2} ==> Reaches(st, x, 0)
    ensures Reaches(st, 2, 1) && forall x :: x in {0, 1, 2} ==> Best(st, 0, x, 0)
  {
    ReachesSelf(st, 0);
    ReachesSelf(st, 1);
    ReachesSelf(st, 2);
    ReachesParent(st, 1, 1, 0);
    ReachesParent(st, 2, 2, 1);
    ReachesParent(st, 2, 1, 0);
    forall c | Reaches(st, 0, c) ensures c == 0 {
      if c != 0 {
        var p := ReachesThrough(st, 0, c);
      }
    }
    hide Reaches;
  }

  lemma MeanwhileRuns()
    ensures Sound(EARLY) && Run(EARLY, MEANWHILE) == Some(LATER) && Extends(EARLY.st, LATER.st)
  {
    EarlyReaches(EARLY.st);
    ReachesSelf(EARLY.st, 0);
    hide Reaches, Best;
    assert Enabled(EARLY, MEANWHILE[0]);
    var s := Do(EARLY, MEANWHILE[0]);
    StepSound(EARLY, MEANWHILE[0]);
    assert Enabled(s, MEANWHILE[1]) && Do(s, MEANWHILE[1]) == LATER;
    StepSound(s, MEANWHILE[1]);
    assert MEANWHILE[1..] == [MEANWHILE[1]] && [MEANWHILE[1]][1..] == [];
    assert Run(s, [MEANWHILE[1]]) == Run(LATER, []);
  }

  /** Gaining a commit in between does: the late merge still starts, and records a base below the best one. */
  lemma BaseOvertaken()
    ensures Sound(EARLY) && Best(EARLY.st, EARLY.head, LATE.theirs, LATE.base)
    ensures Run(EARLY, MEANWHILE) == Some(LATER) && Sound(LATER) && Enabled(LATER, LATE)
    ensures !BaseIsBest(Do(LATER, LATE))
  {
    MeanwhileRuns();
    RunSound(EARLY, MEANWHILE);
    EarlyReaches(EARLY.st);
    EarlyReaches(LATER.st);
    ReachesSelf(LATER.st, 3);
    ReachesParent(LATER.st, 3, 3, 0);
    ReachesParent(LATER.st, 3, 3, 1);
    hide Reaches;
    assert Common(LATER.st, 3, 2, 1) && !Before(LATER.st, 0, 1);
  }
}
