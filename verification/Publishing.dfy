/** Writers that upload, check and publish beside a collector that deletes what no manifest names. One clock,
    one collector, one manifest swapped by compare-and-swap; no two uploads share a name. */
module Publishing {
  import opened Basics

  type Name = nat

  /** The grace window; the age from which a publish checks an upload again; and the longest a publish (look-up to
      swap) and a collection round (clock reading to last deletion) may take. */
  datatype Times = Times(grace: nat, recheck: nat, publish: nat, round: nat)

  /** What the manifest names, and when it recorded the orphans deleted. */
  datatype Manifest = Manifest(seqNo: nat, named: set<Name>, deleted: map<Name, int>)

  /** A publish: its old uploads looked up, then the manifest read and index objects compacted against it. */
  datatype Publish = Idle | Checked(at: int) | Read(at: int, man: Manifest, made: set<Name>)

  /** A session: what it uploaded and has not published. */
  datatype Writer = Writer(pending: set<Name>, publish: Publish)
  {
    function Own(): set<Name> {
      pending + if publish.Read? then publish.made else {}
    }
  }

  datatype Collector =
    | Resting
    | Marking(at: int, man: Manifest, aged: set<Name>)
    | Deleting(at: int, names: set<Name>)

  /** doomed is history: each orphan ever recorded as deleted, with the clock of its round. */
  datatype State = State(now: int, stored: set<Name>, put: map<Name, int>, man: Manifest, gc: Collector,
                         writers: map<nat, Writer>, doomed: map<Name, int>)
  {
    function At(w: nat): Writer {
      if w in writers then writers[w] else Writer({}, Idle)
    }

    function Going(): set<Name> {
      if gc.Deleting? then gc.names else {}
    }
  }

  function Start(): State {
    State(0, {}, map[], Manifest(0, {}, map[]), Resting, map[], map[])
  }

  datatype Event =
    | Tick(d: nat)
    | Upload(w: nat, n: Name) | Check(w: nat) | ReadRoot(w: nat) | Make(w: nat, n: Name)
    | Swap(w: nat, drop: set<Name>) | GiveUp(w: nat) | Quit(w: nat)
    | Begin | List(aged: set<Name>) | Apply(expired: set<Name>, repacked: set<Name>, orphans: set<Name>)
    | Moved(repacked: set<Name>) | Delete(n: Name) | Finish

  // No publish or round under way outlasts its time.
  ghost predicate InTime(t: Times, s: State, now: int) {
    && (forall w :: s.At(w).publish.Checked? || s.At(w).publish.Read? ==> now <= s.At(w).publish.at + t.publish)
    && (s.gc.Marking? || s.gc.Deleting? ==> now <= s.gc.at + t.round)
  }

  ghost predicate Enabled(t: Times, s: State, e: Event) {
    match e
    case Tick(d) => InTime(t, s, s.now + d)
    case Upload(w, n) => s.At(w).publish.Idle? && n !in s.put
    // Every unpublished upload old enough is looked up, and found.
    case Check(w) =>
      s.At(w).publish.Idle? && forall n ::
        n in s.At(w).pending && n in s.put && s.now - s.put[n] > t.recheck ==> n in s.stored
    // The manifest read must not record an upload of the session as deleted.
    case ReadRoot(w) => !s.At(w).publish.Idle? && s.At(w).pending !! s.man.deleted.Keys
    case Make(w, n) => s.At(w).publish.Read? && n !in s.put
    case Swap(w, drop) => s.At(w).publish.Read? && s.At(w).publish.man.seqNo == s.man.seqNo
    case GiveUp(w) => true
    case Quit(w) => true
    case Begin => s.gc.Resting?
    case List(aged) =>
      s.gc.Marking? && forall n :: n in aged ==> n in s.stored && n in s.put && s.now - s.put[n] >= t.grace
    case Apply(expired, repacked, orphans) =>
      && s.gc.Marking? && s.gc.man.seqNo == s.man.seqNo && expired <= s.man.named && repacked !! s.put.Keys
      && orphans <= s.gc.aged && orphans !! s.man.named && orphans !! Kept(t, s).Keys
    case Moved(repacked) => s.gc.Marking? && repacked !! s.put.Keys
    case Delete(n) => s.gc.Deleting? && n in s.gc.names
    case Finish => s.gc.Deleting? && s.gc.names == {}
  }

  // The records a round keeps: those its clock does not find lapsed.
  ghost function Kept(t: Times, s: State): map<Name, int>
    requires s.gc.Marking?
  {
    map n | n in s.man.deleted && s.gc.at - s.man.deleted[n] < t.grace + t.recheck :: s.man.deleted[n]
  }

  ghost function Stamped(names: set<Name>, at: int): map<Name, int> {
    map n | n in names :: at
  }

  ghost function Do(t: Times, s: State, e: Event): State
    requires Enabled(t, s, e)
  {
    match e
    case Tick(d) => s.(now := s.now + d)
    case Upload(w, n) =>
      s.(stored := s.stored + {n}, put := s.put[n := s.now],
         writers := s.writers[w := s.At(w).(pending := s.At(w).pending + {n})])
    case Check(w) => s.(writers := s.writers[w := s.At(w).(publish := Checked(s.now))])
    case ReadRoot(w) => s.(writers := s.writers[w := s.At(w).(publish := Read(s.At(w).publish.at, s.man, {}))])
    case Make(w, n) =>
      var p := s.At(w).publish;
      s.(stored := s.stored + {n}, put := s.put[n := s.now],
         writers := s.writers[w := s.At(w).(publish := p.(made := p.made + {n}))])
    case Swap(w, drop) =>
      s.(man := Manifest(s.man.seqNo + 1, s.man.named - drop + s.At(w).Own(), s.man.deleted),
         writers := s.writers[w := Writer({}, Idle)])
    case GiveUp(w) => s.(writers := s.writers[w := s.At(w).(publish := Idle)])
    case Quit(w) => s.(writers := s.writers[w := Writer({}, Idle)])
    case Begin => s.(gc := Marking(s.now, s.man, {}))
    case List(aged) => s.(gc := s.gc.(aged := s.gc.aged + aged))
    case Apply(expired, repacked, orphans) =>
      s.(stored := s.stored + repacked, put := s.put + Stamped(repacked, s.now),
         man := Manifest(s.man.seqNo + 1, s.man.named - expired + repacked, Kept(t, s) + Stamped(orphans, s.gc.at)),
         gc := Deleting(s.gc.at, expired + orphans), doomed := s.doomed + Stamped(orphans, s.gc.at))
    case Moved(repacked) => s.(stored := s.stored + repacked, put := s.put + Stamped(repacked, s.now), gc := Resting)
    case Delete(n) => s.(stored := s.stored - {n}, gc := s.gc.(names := s.gc.names - {n}))
    case Finish => s.(gc := Resting)
  }

  /** The state a run of events ends in, if every event can happen when it does. */
  ghost function Run(t: Times, s: State, es: seq<Event>): Option<State>
    decreases |es|
  {
    if es == [] then Some(s) else if !Enabled(t, s, es[0]) then None else Run(t, Do(t, s, es[0]), es[1..])
  }

  // Everything the manifest names is stored, and nothing it names is being deleted.
  ghost predicate Intact(s: State) {
    s.man.named <= s.stored && s.man.named !! s.Going()
  }

  /******** What every event keeps ********/

  ghost predicate Held(s: State) {
    && Intact(s) && s.stored <= s.put.Keys && s.Going() <= s.put.Keys && s.doomed.Keys <= s.put.Keys
    && forall n :: n in s.put ==> s.put[n] <= s.now
  }

  // What a session owns is its own: no other session's, and not published.
  ghost predicate Owned(s: State) {
    && (forall w :: s.At(w).Own() <= s.put.Keys && s.At(w).Own() !! s.man.named)
    && (forall w, w' :: w != w' ==> s.At(w).Own() !! s.At(w').Own())
  }

  // An orphan recorded as deleted is on record until its round's clock is a grace window and a recheck past.
  ghost predicate Dooms(t: Times, s: State) {
    forall n :: n in s.doomed && n in s.put ==>
      && s.put[n] + t.grace <= s.doomed[n] + t.round && s.doomed[n] <= s.now
      && (n in s.man.deleted || s.now >= s.doomed[n] + t.grace + t.recheck)
      && (n in s.man.deleted ==> s.man.deleted[n] == s.doomed[n])
      && (n in s.stored ==> s.gc.Deleting? && n in s.gc.names && s.gc.at == s.doomed[n])
  }

  ghost predicate Collecting(t: Times, s: State) {
    && (s.gc.Marking? || s.gc.Deleting? ==> s.gc.at <= s.now <= s.gc.at + t.round)
    && (s.gc.Marking? ==>
          && s.gc.man.seqNo <= s.man.seqNo && (s.gc.man.seqNo == s.man.seqNo ==> s.gc.man == s.man)
          && forall n :: n in s.gc.aged ==> n in s.stored && n in s.put && s.put[n] + t.grace <= s.now)
  }

  // An upload is lost only to a recorded deletion; one a publish looked up was lost after, or was too young to
  // be looked up.
  ghost predicate Session(t: Times, s: State, w: nat) {
    var p := s.At(w).publish;
    && (forall n :: n in s.At(w).pending && n !in s.doomed ==> n in s.stored && n !in s.Going())
    && (!p.Idle? ==>
          && p.at <= s.now <= p.at + t.publish
          && forall n :: n in s.At(w).pending && n in s.doomed && n in s.put ==>
               p.at <= s.doomed[n] + t.round || p.at <= s.put[n] + t.recheck)
    && (p.Read? ==>
          && p.man.seqNo <= s.man.seqNo && s.At(w).pending !! p.man.deleted.Keys
          && (p.man.seqNo == s.man.seqNo ==>
                p.man == s.man && p.made <= s.stored && p.made !! s.Going() && p.made !! s.doomed.Keys))
  }

  ghost predicate Inv(t: Times, s: State) {
    Held(s) && Owned(s) && Dooms(t, s) && Collecting(t, s) && forall w :: Session(t, s, w)
  }

  // A publish and a round together take less than the grace window and the shorter of it and the recheck.
  ghost predicate Quick(t: Times) {
    t.publish + t.round < t.grace + (if t.grace < t.recheck then t.grace else t.recheck)
  }

  // A session keeps its invariant while another's changes, unless the manifest or the collector moves.
  lemma OthersKeep(t: Times, s: State, s': State, w: nat)
    requires Session(t, s, w) && s'.At(w) == s.At(w) && s'.now == s.now && s'.man == s.man && s'.gc == s.gc
             && s'.doomed == s.doomed
    requires s.stored <= s'.stored && s.put.Keys <= s'.put.Keys && forall n :: n in s.put ==> s'.put[n] == s.put[n]
    requires forall n :: n in s.doomed ==> n in s.put
    ensures Session(t, s', w)
  {
  }

  lemma TickKeeps(t: Times, s: State, d: nat)
    requires Inv(t, s) && Enabled(t, s, Tick(d))
    ensures Inv(t, Do(t, s, Tick(d)))
  {
    var s' := Do(t, s, Tick(d));
    forall w ensures Session(t, s', w) {
      assert Session(t, s, w);
      assert s'.At(w) == s.At(w);
    }
    assert forall w :: s'.At(w) == s.At(w);
  }

  lemma UploadKeeps(t: Times, s: State, w: nat, n: Name)
    requires Inv(t, s) && Enabled(t, s, Upload(w, n))
    ensures Inv(t, Do(t, s, Upload(w, n)))
  {
    var s' := Do(t, s, Upload(w, n));
    forall v ensures Session(t, s', v) {
      assert Session(t, s, v);
      if v != w {
        OthersKeep(t, s, s', v);
      }
    }
    assert forall v :: v != w ==> s'.At(v) == s.At(v);
  }

  lemma CheckKeeps(t: Times, s: State, w: nat)
    requires Inv(t, s) && Enabled(t, s, Check(w))
    ensures Inv(t, Do(t, s, Check(w)))
  {
    var s' := Do(t, s, Check(w));
    forall v ensures Session(t, s', v) {
      assert Session(t, s, v);
      if v != w {
        OthersKeep(t, s, s', v);
      }
    }
    assert forall v :: v != w ==> s'.At(v) == s.At(v);
  }

  lemma ReadRootKeeps(t: Times, s: State, w: nat)
    requires Inv(t, s) && Enabled(t, s, ReadRoot(w))
    ensures Inv(t, Do(t, s, ReadRoot(w)))
  {
    var s' := Do(t, s, ReadRoot(w));
    forall v ensures Session(t, s', v) {
      assert Session(t, s, v);
      if v != w {
        OthersKeep(t, s, s', v);
      }
    }
    assert forall v :: v != w ==> s'.At(v) == s.At(v);
    assert s'.At(w).Own() <= s.At(w).Own();
  }

  lemma MakeKeeps(t: Times, s: State, w: nat, n: Name)
    requires Inv(t, s) && Enabled(t, s, Make(w, n))
    ensures Inv(t, Do(t, s, Make(w, n)))
  {
    var s' := Do(t, s, Make(w, n));
    forall v ensures Session(t, s', v) {
      assert Session(t, s, v);
      if v != w {
        OthersKeep(t, s, s', v);
      }
    }
    assert forall v :: v != w ==> s'.At(v) == s.At(v);
    assert s'.At(w).Own() == s.At(w).Own() + {n};
  }

  // A publish that is quick enough names nothing that is gone or going.
  lemma SwapIsSafe(t: Times, s: State, w: nat)
    requires Inv(t, s) && Quick(t) && s.At(w).publish.Read? && s.At(w).publish.man.seqNo == s.man.seqNo
    ensures s.At(w).Own() <= s.stored && s.At(w).Own() !! s.Going() && s.At(w).Own() !! s.doomed.Keys
  {
    assert Session(t, s, w);
    assert forall n :: n in s.At(w).pending ==> n !in s.doomed;
  }

  lemma SwapKeeps(t: Times, s: State, w: nat, drop: set<Name>)
    requires Inv(t, s) && Quick(t) && Enabled(t, s, Swap(w, drop))
    ensures Inv(t, Do(t, s, Swap(w, drop)))
  {
    SwapIsSafe(t, s, w);
    var s' := Do(t, s, Swap(w, drop));
    forall v ensures Session(t, s', v) {
      assert Session(t, s, v);
      if v != w {
        assert s'.At(v) == s.At(v);
      }
    }
    assert forall v :: v != w ==> s'.At(v) == s.At(v);
    assert s'.At(w).Own() == {};
  }

  // A session that stops publishing, or ends, leaves the others as they were.
  lemma StopKeeps(t: Times, s: State, s': State, w: nat)
    requires Inv(t, s) && s' == s.(writers := s.writers[w := s'.At(w)])
    requires s'.At(w).publish.Idle? && (s'.At(w).pending == s.At(w).pending || s'.At(w).pending == {})
    ensures Inv(t, s')
  {
    assert forall v :: v != w ==> s'.At(v) == s.At(v);
    forall v ensures Session(t, s', v) {
      assert Session(t, s, v);
    }
    assert s'.At(w).Own() <= s.At(w).Own();
  }

  // What moves only the collector leaves every session as it was.
  lemma BeginKeeps(t: Times, s: State)
    requires Inv(t, s) && Enabled(t, s, Begin)
    ensures Inv(t, Do(t, s, Begin))
  {
    var s' := Do(t, s, Begin);
    assert forall v :: s'.At(v) == s.At(v);
    forall v ensures Session(t, s', v) {
      assert Session(t, s, v);
    }
  }

  lemma ListKeeps(t: Times, s: State, aged: set<Name>)
    requires Inv(t, s) && Enabled(t, s, List(aged))
    ensures Inv(t, Do(t, s, List(aged)))
  {
    var s' := Do(t, s, List(aged));
    assert forall v :: s'.At(v) == s.At(v);
    forall v ensures Session(t, s', v) {
      assert Session(t, s, v);
    }
  }

  lemma MovedKeeps(t: Times, s: State, repacked: set<Name>)
    requires Inv(t, s) && Enabled(t, s, Moved(repacked))
    ensures Inv(t, Do(t, s, Moved(repacked)))
  {
    var s' := Do(t, s, Moved(repacked));
    assert forall v :: s'.At(v) == s.At(v);
    forall v ensures Session(t, s', v) {
      assert Session(t, s, v);
    }
  }

  lemma DeleteKeeps(t: Times, s: State, n: Name)
    requires Inv(t, s) && Enabled(t, s, Delete(n))
    ensures Inv(t, Do(t, s, Delete(n)))
  {
    var s' := Do(t, s, Delete(n));
    assert forall v :: s'.At(v) == s.At(v);
    forall v ensures Session(t, s', v) {
      assert Session(t, s, v);
    }
  }

  lemma FinishKeeps(t: Times, s: State)
    requires Inv(t, s) && Enabled(t, s, Finish)
    ensures Inv(t, Do(t, s, Finish))
  {
    var s' := Do(t, s, Finish);
    assert forall v :: s'.At(v) == s.At(v);
    forall v ensures Session(t, s', v) {
      assert Session(t, s, v);
    }
  }

  lemma ApplyKeeps(t: Times, s: State, expired: set<Name>, repacked: set<Name>, orphans: set<Name>)
    requires Inv(t, s) && Enabled(t, s, Apply(expired, repacked, orphans))
    ensures Inv(t, Do(t, s, Apply(expired, repacked, orphans)))
  {
    var s' := Do(t, s, Apply(expired, repacked, orphans));
    assert forall v :: s'.At(v) == s.At(v);
    forall v ensures Session(t, s', v) {
      assert Session(t, s, v);
    }
  }

  lemma StepKeeps(t: Times, s: State, e: Event)
    requires Inv(t, s) && Quick(t) && Enabled(t, s, e)
    ensures Inv(t, Do(t, s, e))
  {
    match e
    case Tick(d) => TickKeeps(t, s, d);
    case Upload(w, n) => UploadKeeps(t, s, w, n);
    case Check(w) => CheckKeeps(t, s, w);
    case ReadRoot(w) => ReadRootKeeps(t, s, w);
    case Make(w, n) => MakeKeeps(t, s, w, n);
    case Swap(w, drop) => SwapKeeps(t, s, w, drop);
    case GiveUp(w) => StopKeeps(t, s, Do(t, s, e), w);
    case Quit(w) => StopKeeps(t, s, Do(t, s, e), w);
    case Begin => BeginKeeps(t, s);
    case List(aged) => ListKeeps(t, s, aged);
    case Apply(expired, repacked, orphans) => ApplyKeeps(t, s, expired, repacked, orphans);
    case Moved(repacked) => MovedKeeps(t, s, repacked);
    case Delete(n) => DeleteKeeps(t, s, n);
    case Finish => FinishKeeps(t, s);
  }

  lemma {:induction false} RunKeeps(t: Times, s: State, es: seq<Event>)
    requires Inv(t, s) && Quick(t) && Run(t, s, es).Some?
    ensures Inv(t, Run(t, s, es).value)
    decreases |es|
  {
    if es != [] {
      StepKeeps(t, s, es[0]);
      RunKeeps(t, Do(t, s, es[0]), es[1..]);
    }
  }

  /******** When the manifest stays intact ********/

  ghost predicate Breaks(t: Times, es: seq<Event>) {
    Run(t, Start(), es).Some? && !Intact(Run(t, Start(), es).value)
  }

  ghost predicate Steps(t: Times, s: State, e: Event, s': State) {
    Enabled(t, s, e) && Do(t, s, e) == s'
  }

  lemma {:induction false} RunMore(t: Times, s: State, es: seq<Event>, p: State, e: Event, s': State)
    requires Run(t, s, es) == Some(p) && Steps(t, p, e, s')
    ensures Run(t, s, es + [e]) == Some(s')
    decreases |es|
  {
    hide Enabled, Do;
    if es == [] {
      assert es + [e] == [e] && [e][1..] == [];
    } else {
      assert (es + [e])[1..] == es[1..] + [e];
      RunMore(t, Do(t, s, es[0]), es[1..], p, e, s');
    }
  }

  // Session 0 and its one upload, 0, which no manifest ever named.
  function One(now: int, stored: set<Name>, put: map<Name, int>, seqNo: nat, deleted: map<Name, int>, gc: Collector,
               w: Writer, doomed: map<Name, int>): State {
    State(now, stored, put, Manifest(seqNo, {}, deleted), gc, map[0 := w], doomed)
  }

  lemma OneTicks(t: Times, now: int, d: nat, stored: set<Name>, put: map<Name, int>, seqNo: nat, deleted: map<Name,
                 int>, gc: Collector, w: Writer, doomed: map<Name, int>)
    requires !w.publish.Idle? ==> now + d <= w.publish.at + t.publish
    requires !gc.Resting? ==> now + d <= gc.at + t.round
    ensures Steps(t, One(now, stored, put, seqNo, deleted, gc, w, doomed), Tick(d),
            One(now + d, stored, put, seqNo, deleted, gc, w, doomed))
  {
    var s := One(now, stored, put, seqNo, deleted, gc, w, doomed);
    assert forall v :: s.At(v).publish.Checked? || s.At(v).publish.Read? ==> v == 0;
  }

  lemma OneBegins(t: Times, now: int, stored: set<Name>, put: map<Name, int>, seqNo: nat, deleted: map<Name, int>,
                  w: Writer, doomed: map<Name, int>)
    ensures var gc := Marking(now, Manifest(seqNo, {}, deleted), {});
            Steps(t, One(now, stored, put, seqNo, deleted, Resting, w, doomed), Begin,
                  One(now, stored, put, seqNo, deleted, gc, w, doomed))
  {
  }

  // A round that finds the record lapsed.
  lemma OneLapses(t: Times, now: int, put: int, at: int, w: Writer)
    requires now - at >= t.grace + t.recheck
    ensures var gc := Marking(now, Manifest(1, {}, map[0 := at]), {});
            Steps(t, One(now, {}, map[0 := put], 1, map[0 := at], gc, w, map[0 := at]), Apply({}, {}, {}),
                  One(now, {}, map[0 := put], 2, map[], Deleting(now, {}), w, map[0 := at]))
  {
    var gc := Marking(now, Manifest(1, {}, map[0 := at]), {});
    var s := One(now, {}, map[0 := put], 1, map[0 := at], gc, w, map[0 := at]);
    assert Kept(t, s) == map[] && Stamped({}, now) == map[] && Kept(t, s) + Stamped({}, now) == map[];
    assert s.put + Stamped({}, now) == s.put && s.doomed + Stamped({}, now) == s.doomed;
    var none: set<Name> := {};
    assert none + none == none && none - none + none == none;
  }

  // A publish against the manifest that no longer records the deletion.
  lemma OneReads(t: Times, now: int, put: int, at: int, tc: int)
    ensures var gc := Deleting(now, {}); var m := Manifest(2, {}, map[]);
            Steps(t, One(now, {}, map[0 := put], 2, map[], gc, Writer({0}, Checked(tc)), map[0 := at]), ReadRoot(0),
                  One(now, {}, map[0 := put], 2, map[], gc, Writer({0}, Read(tc, m, {})), map[0 := at]))
  {
    var s := One(now, {}, map[0 := put], 2, map[], Deleting(now, {}), Writer({0}, Checked(tc)), map[0 := at]);
    assert s.writers[0 := Writer({0}, Read(tc, s.man, {}))] == map[0 := Writer({0}, Read(tc, s.man, {}))];
  }

  lemma OneBreaks(t: Times, now: int, put: int, at: int, tc: int) returns (s': State)
    ensures var m := Manifest(2, {}, map[]);
            Steps(t, One(now, {}, map[0 := put], 2, map[], Deleting(now, {}), Writer({0}, Read(tc, m, {})),
                         map[0 := at]), Swap(0, {}), s')
    ensures !Intact(s')
  {
    var s := One(now, {}, map[0 := put], 2, map[], Deleting(now, {}), Writer({0}, Read(tc, Manifest(2, {}, map[]), {})),
                 map[0 := at]);
    s' := Do(t, s, Swap(0, {}));
    assert 0 in s.At(0).Own();
  }

  // One upload, deleted as an orphan of a round with clock at; the session looked at its uploads at tc.
  function Lost(now: int, put: int, at: int, tc: int): State {
    One(now, {}, map[0 := put], 1, map[0 := at], Resting, Writer({0}, Checked(tc)), map[0 := at])
  }

  // Once the record lapses, the session publishes what is gone.
  lemma LostBreaks(t: Times, es: seq<Event>, now: int, put: int, at: int, tc: int) returns (es': seq<Event>)
    requires Run(t, Start(), es) == Some(Lost(now, put, at, tc))
    requires now <= tc + t.publish && at + t.grace + t.recheck <= tc + t.publish
    ensures Breaks(t, es')
  {
    hide *;
    var w := Writer({0}, Checked(tc));
    var d := if at + t.grace + t.recheck > now then at + t.grace + t.recheck - now else 0;
    var end := now + d;
    LostIs(now, put, at, tc);
    OneTicks(t, now, d, {}, map[0 := put], 1, map[0 := at], Resting, w, map[0 := at]);
    OneBegins(t, end, {}, map[0 := put], 1, map[0 := at], w, map[0 := at]);
    OneLapses(t, end, put, at, w);
    OneReads(t, end, put, at, tc);
    var s' := OneBreaks(t, end, put, at, tc);
    var gc := Marking(end, Manifest(1, {}, map[0 := at]), {});
    var s1 := One(end, {}, map[0 := put], 1, map[0 := at], Resting, w, map[0 := at]);
    var s2 := One(end, {}, map[0 := put], 1, map[0 := at], gc, w, map[0 := at]);
    var s3 := One(end, {}, map[0 := put], 2, map[], Deleting(end, {}), w, map[0 := at]);
    var s4 := One(end, {}, map[0 := put], 2, map[], Deleting(end, {}),
                  Writer({0}, Read(tc, Manifest(2, {}, map[]), {})), map[0 := at]);
    RunMore(t, Start(), es, Lost(now, put, at, tc), Tick(d), s1);
    RunMore(t, Start(), es + [Tick(d)], s1, Begin, s2);
    RunMore(t, Start(), es + [Tick(d)] + [Begin], s2, Apply({}, {}, {}), s3);
    RunMore(t, Start(), es + [Tick(d)] + [Begin] + [Apply({}, {}, {})], s3, ReadRoot(0), s4);
    RunMore(t, Start(), es + [Tick(d)] + [Begin] + [Apply({}, {}, {})] + [ReadRoot(0)], s4, Swap(0, {}), s');
    es' := es + [Tick(d)] + [Begin] + [Apply({}, {}, {})] + [ReadRoot(0)] + [Swap(0, {})];
    BreaksIs(t, es', s');
  }

  lemma LostIs(now: int, put: int, at: int, tc: int)
    ensures Lost(now, put, at, tc) == One(now, {}, map[0 := put], 1, map[0 := at], Resting, Writer({0}, Checked(tc)),
            map[0 := at])
  {
  }

  lemma BreaksIs(t: Times, es: seq<Event>, s: State)
    requires Run(t, Start(), es) == Some(s) && !Intact(s)
    ensures Breaks(t, es)
  {
  }

  // Before it is lost: uploaded at put, and not yet recorded.
  function Young(now: int, put: int, gc: Collector): State {
    One(now, {0}, map[0 := put], 0, map[], gc, Writer({0}, Idle), map[])
  }

  // Recorded by a round with clock at, and then deleted by it.
  function Going(now: int, put: int, at: int, p: Publish): State {
    One(now, {0}, map[0 := put], 1, map[0 := at], Deleting(at, {0}), Writer({0}, p), map[0 := at])
  }

  function Gone(now: int, put: int, at: int, gc: Collector, p: Publish): State {
    One(now, {}, map[0 := put], 1, map[0 := at], gc, Writer({0}, p), map[0 := at])
  }

  const FIRST := Manifest(0, {}, map[])

  // A round under way, or none, before anything was uploaded.
  function Bare(now: int, gc: Collector): State {
    State(now, {}, map[], FIRST, gc, map[], map[])
  }

  lemma BareSteps(t: Times, now: int, d: nat, gc: Collector)
    requires !gc.Resting? ==> now + d <= gc.at + t.round
    ensures Steps(t, Bare(now, gc), Tick(d), Bare(now + d, gc))
    ensures Steps(t, Bare(now, Resting), Begin, Bare(now, Marking(now, FIRST, {})))
    ensures Steps(t, Bare(now, gc), Upload(0, 0), Young(now, now, gc))
    ensures Bare(0, Resting) == Start()
  {
    assert forall v :: Bare(now, gc).At(v).publish.Idle?;
    var none: set<Name>, unput: map<Name, int> := {}, map[];
    assert none + {0} == {0} && unput[0 := now] == map[0 := now];
    var ws: map<nat, Writer> := map[];
    assert ws[0 := Writer({0}, Idle)] == map[0 := Writer({0}, Idle)];
  }

  lemma YoungSteps(t: Times, now: int, put: int, at: int, d: nat, gc: Collector)
    requires !gc.Resting? ==> now + d <= gc.at + t.round
    ensures Steps(t, Young(now, put, gc), Tick(d), Young(now + d, put, gc))
    ensures Steps(t, Young(now, put, Resting), Begin, Young(now, put, Marking(now, FIRST, {})))
    ensures now - put >= t.grace ==>
              Steps(t, Young(now, put, Marking(at, FIRST, {})), List({0}), Young(now, put, Marking(at, FIRST, {0})))
  {
    OneTicks(t, now, d, {0}, map[0 := put], 0, map[], gc, Writer({0}, Idle), map[]);
    OneBegins(t, now, {0}, map[0 := put], 0, map[], Writer({0}, Idle), map[]);
    var none: set<Name> := {};
    assert none + {0} == {0};
  }

  lemma YoungDooms(t: Times, now: int, put: int, at: int)
    ensures Steps(t, Young(now, put, Marking(at, FIRST, {0})), Apply({}, {}, {0}), Going(now, put, at, Idle))
  {
    var s := Young(now, put, Marking(at, FIRST, {0}));
    assert Kept(t, s) == map[] && Stamped({0}, at) == map[0 := at] && Stamped({}, now) == map[];
    assert Kept(t, s) + Stamped({0}, at) == map[0 := at] && s.doomed + Stamped({0}, at) == map[0 := at];
    assert s.put + Stamped({}, now) == s.put;
    var none, one: set<Name> := {}, {0};
    assert none + one == one && one + none == one && none - none + none == none;
  }

  lemma GoingSteps(t: Times, now: int, put: int, at: int, d: nat, p: Publish)
    ensures p.Idle? && now + d <= at + t.round ==> Steps(t, Going(now, put, at, p), Tick(d), Going(now + d, put, at, p))
    ensures Steps(t, Going(now, put, at, Idle), Check(0), Going(now, put, at, Checked(now)))
    ensures Steps(t, Going(now, put, at, p), Delete(0), Gone(now, put, at, Deleting(at, {}), p))
    ensures Steps(t, Gone(now, put, at, Deleting(at, {}), p), Finish, Gone(now, put, at, Resting, p))
  {
    if p.Idle? && now + d <= at + t.round {
      OneTicks(t, now, d, {0}, map[0 := put], 1, map[0 := at], Deleting(at, {0}), Writer({0}, p), map[0 := at]);
    }
    var one: set<Name> := {0};
    assert one - {0} == {};
    var ws: map<nat, Writer> := map[0 := Writer({0}, Idle)];
    assert ws[0 := Writer({0}, Checked(now))] == map[0 := Writer({0}, Checked(now))];
  }

  lemma GoneSteps(t: Times, now: int, put: int, at: int, d: nat)
    ensures Steps(t, Gone(now, put, at, Resting, Idle), Tick(d), Gone(now + d, put, at, Resting, Idle))
    ensures now <= put + t.recheck ==> Steps(t, Gone(now, put, at, Resting, Idle), Check(0), Lost(now, put, at, now))
    ensures Gone(now, put, at, Resting, Checked(now)) == Lost(now, put, at, now)
  {
    OneTicks(t, now, d, {}, map[0 := put], 1, map[0 := at], Resting, Writer({0}, Idle), map[0 := at]);
    var ws: map<nat, Writer> := map[0 := Writer({0}, Idle)];
    assert ws[0 := Writer({0}, Checked(now))] == map[0 := Writer({0}, Checked(now))];
  }

  lemma RunNone(t: Times)
    ensures Run(t, Start(), []) == Some(Start())
  {
  }

  // The deletion comes late in its round: a look-up just before it finds the upload.
  lemma LateDeletion(t: Times) returns (es: seq<Event>)
    ensures Run(t, Start(), es) == Some(Lost(t.grace + t.round, 0, t.grace, t.grace + t.round))
  {
    hide *;
    var g, now := t.grace, t.grace + t.round;
    var marking := Marking(g, FIRST, {});
    RunNone(t);
    BareSteps(t, 0, 0, Resting);
    YoungSteps(t, 0, 0, g, g, Resting);
    YoungSteps(t, g, 0, g, 0, marking);
    YoungDooms(t, g, 0, g);
    GoingSteps(t, g, 0, g, t.round, Idle);
    GoingSteps(t, now, 0, g, 0, Checked(now));
    GoneSteps(t, now, 0, g, 0);
    es := [Upload(0, 0)];
    RunMore(t, Start(), [], Start(), Upload(0, 0), Young(0, 0, Resting));
    assert [] + [Upload(0, 0)] == es;
    RunMore(t, Start(), es, Young(0, 0, Resting), Tick(g), Young(g, 0, Resting));
    es := es + [Tick(g)];
    RunMore(t, Start(), es, Young(g, 0, Resting), Begin, Young(g, 0, marking));
    es := es + [Begin];
    RunMore(t, Start(), es, Young(g, 0, marking), List({0}), Young(g, 0, Marking(g, FIRST, {0})));
    es := es + [List({0})];
    RunMore(t, Start(), es, Young(g, 0, Marking(g, FIRST, {0})), Apply({}, {}, {0}), Going(g, 0, g, Idle));
    es := es + [Apply({}, {}, {0})];
    RunMore(t, Start(), es, Going(g, 0, g, Idle), Tick(t.round), Going(now, 0, g, Idle));
    es := es + [Tick(t.round)];
    RunMore(t, Start(), es, Going(now, 0, g, Idle), Check(0), Going(now, 0, g, Checked(now)));
    es := es + [Check(0)];
    RunMore(t, Start(), es, Going(now, 0, g, Checked(now)), Delete(0), Gone(now, 0, g, Deleting(g, {}), Checked(now)));
    es := es + [Delete(0)];
    RunMore(t, Start(), es, Gone(now, 0, g, Deleting(g, {}), Checked(now)), Finish,
            Gone(now, 0, g, Resting, Checked(now)));
    es := es + [Finish];
  }

  // From the listing on, an upload already gone that is still too young to be looked up.
  lemma YoungLost(t: Times, es0: seq<Event>, put: int, at: int) returns (es: seq<Event>)
    requires t.grace < t.recheck
    requires Run(t, Start(), es0) == Some(Young(put + t.grace, put, Marking(at, FIRST, {})))
    ensures Run(t, Start(), es) == Some(Lost(put + t.recheck, put, at, put + t.recheck))
  {
    hide *;
    var now, d, end := put + t.grace, t.recheck - t.grace, put + t.recheck;
    YoungSteps(t, now, put, at, 0, Resting);
    YoungDooms(t, now, put, at);
    GoingSteps(t, now, put, at, 0, Idle);
    GoneSteps(t, now, put, at, d);
    GoneSteps(t, end, put, at, 0);
    es := es0;
    RunMore(t, Start(), es, Young(now, put, Marking(at, FIRST, {})), List({0}),
            Young(now, put, Marking(at, FIRST, {0})));
    es := es + [List({0})];
    RunMore(t, Start(), es, Young(now, put, Marking(at, FIRST, {0})), Apply({}, {}, {0}), Going(now, put, at, Idle));
    es := es + [Apply({}, {}, {0})];
    RunMore(t, Start(), es, Going(now, put, at, Idle), Delete(0), Gone(now, put, at, Deleting(at, {}), Idle));
    es := es + [Delete(0)];
    RunMore(t, Start(), es, Gone(now, put, at, Deleting(at, {}), Idle), Finish, Gone(now, put, at, Resting, Idle));
    es := es + [Finish];
    RunMore(t, Start(), es, Gone(now, put, at, Resting, Idle), Tick(d), Gone(end, put, at, Resting, Idle));
    es := es + [Tick(d)];
    RunMore(t, Start(), es, Gone(end, put, at, Resting, Idle), Check(0), Lost(end, put, at, end));
    es := es + [Check(0)];
  }

  // A round that reads the clock as early as it can and lists the upload as soon as it is old enough.
  lemma EarlyClock(t: Times) returns (es: seq<Event>, put: nat, at: nat)
    ensures put + t.grace == at + t.round
    ensures Run(t, Start(), es) == Some(Young(put + t.grace, put, Marking(at, FIRST, {})))
  {
    hide *;
    RunNone(t);
    var g := t.grace;
    if t.round <= g {
      put, at := 0, g - t.round;
      var marking := Marking(at, FIRST, {});
      BareSteps(t, 0, 0, Resting);
      YoungSteps(t, 0, 0, at, at, Resting);
      YoungSteps(t, at, 0, at, t.round, marking);
      es := [Upload(0, 0)];
      RunMore(t, Start(), [], Start(), Upload(0, 0), Young(0, 0, Resting));
      assert [] + [Upload(0, 0)] == es;
      RunMore(t, Start(), es, Young(0, 0, Resting), Tick(at), Young(at, 0, Resting));
      es := es + [Tick(at)];
      RunMore(t, Start(), es, Young(at, 0, Resting), Begin, Young(at, 0, marking));
      es := es + [Begin];
      RunMore(t, Start(), es, Young(at, 0, marking), Tick(t.round), Young(g, 0, marking));
      es := es + [Tick(t.round)];
    } else {
      put, at := t.round - g, 0;
      var marking := Marking(0, FIRST, {});
      BareSteps(t, 0, put, marking);
      BareSteps(t, put, 0, marking);
      YoungSteps(t, put, put, 0, g, marking);
      es := [Begin];
      RunMore(t, Start(), [], Start(), Begin, Bare(0, marking));
      assert [] + [Begin] == es;
      RunMore(t, Start(), es, Bare(0, marking), Tick(put), Bare(put, marking));
      es := es + [Tick(put)];
      RunMore(t, Start(), es, Bare(put, marking), Upload(0, 0), Young(put, put, marking));
      es := es + [Upload(0, 0)];
      RunMore(t, Start(), es, Young(put, put, marking), Tick(g), Young(put + g, put, marking));
      es := es + [Tick(g)];
    }
  }

  /** Publishes and rounds leave the manifest intact on every run exactly when they are quick: when a publish
      and a round together take less than the grace window and the shorter of it and the recheck. */
  lemma IntactExactlyWhenQuick(t: Times)
    ensures (forall es :: Run(t, Start(), es).Some? ==> Intact(Run(t, Start(), es).value)) <==> Quick(t)
  {
    if Quick(t) {
      forall es | Run(t, Start(), es).Some? ensures Intact(Run(t, Start(), es).value) {
        StartKeeps(t);
        RunKeeps(t, Start(), es);
        InvMeans(t, Run(t, Start(), es).value);
      }
    } else {
      var es := SlowBreaks(t);
      assert Run(t, Start(), es).Some?;
    }
  }

  lemma StartKeeps(t: Times)
    ensures Inv(t, Start())
  {
    assert forall w :: Start().At(w) == Writer({}, Idle);
  }

  lemma InvMeans(t: Times, s: State)
    requires Inv(t, s)
    ensures Intact(s)
  {
  }

  lemma SlowBreaks(t: Times) returns (es: seq<Event>)
    requires !Quick(t)
    ensures Breaks(t, es)
  {
    if t.recheck <= t.grace {
      es := LateDeletion(t);
      es := LostBreaks(t, es, t.grace + t.round, 0, t.grace, t.grace + t.round);
    } else {
      var es0, put, at := EarlyClock(t);
      es := YoungLost(t, es0, put, at);
      es := LostBreaks(t, es, put + t.recheck, put, at, put + t.recheck);
    }
  }
}
