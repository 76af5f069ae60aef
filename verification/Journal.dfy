/** The commit journal's crash protocol: journaled commits, shared syncs, rotation, background and
    forced publishes, drops, resets, crashes and replay, as a state machine. A commit is known by its
    position in the history of roots; a record carries the store from one position to the next, or
    stays where it is when it only carries frames. */
module Journal {
  import opened Basics

  // The hash of a root chunk.
  type Root = nat

  datatype Record = Record(expected: Root, next: Root, from: nat, pos: nat)

  /** The journal as Read returns it: the records of every segment in order, of which the first `cur`
      are in segments before the current one and the first `synced` are durable. `gone` counts the
      records removed from the front since the journal was created. */
  datatype Log = Log(recs: seq<Record>, cur: nat, synced: nat, gone: nat)

  /** A background publish: the journal rotated, then the manifest swapped, then segments dropped. */
  datatype Publish = Idle | Rotated(base: Root, root: Root, pos: nat, records: nat) | Swapped(root: Root,
      records: nat) | Dropping

  datatype Mode = Running | Down | Emptying

  datatype State = State(
    // What a crash keeps: the backend's root (none before the first) and the journal.
    root: Option<Root>, log: Log, mode: Mode,
    // The store's fields.
    jroot: Option<Root>, jbase: Option<Root>, jrecords: nat, jwritten: nat, jsynced: nat,
    // The sync in flight: the commit it must cover, and the records written when it began.
    syncing: Option<(nat, nat)>,
    publish: Publish, forcing: bool, failed: bool,
    // Every root set, the position of the backend's root among them, and the last commit acknowledged.
    history: seq<Option<Root>>, at: nat, acked: nat,
    // Whether the last crash fell between a forced publish's swap and its reset.
    torn: bool)

  datatype Event =
    | Write(next: Root, stays: bool)
    | SyncBegin | SyncEnd(synced: nat) | SyncFails | Ack(pos: nat)
    | Rotate | PublishSwap | PublishFinish | PublishFails | Drop(n: nat) | DropDone
    | ForceSwap(next: Root) | ForceDrop(n: nat) | ForceTruncate | ForceDone
    | Fail
    | Crash(kept: nat) | Replay | Empty(n: nat) | Truncate | Reopen

  /******** Replay ********/

  datatype Outcome = Refused | Done(root: Option<Root>)

  // The first record built on root, or none.
  function FirstOn(recs: seq<Record>, root: Root): Option<nat> {
    if recs == [] then None
    else if recs[0].expected == root then Some(0)
    else match FirstOn(recs[1..], root)
      case None => None
      case Some(k) => Some(k + 1)
  }

  // What opening a journal makes the backend's root.
  function Replayed(root: Option<Root>, recs: seq<Record>): Outcome {
    if recs == [] || root.None? then Done(root)
    else
      var last := recs[|recs| - 1].next;
      if FirstOn(recs, root.value).Some? then Done(Some(last))
      else if root.value == last then Done(root)
      else Refused
  }

  /******** Steps ********/

  function LogDrop(l: Log, n: nat): Log
    requires n <= |l.recs|
  {
    Log(l.recs[n..], if l.cur <= n then 0 else l.cur - n, if l.synced <= n then 0 else l.synced - n, l.gone + n)
  }

  function LogWrite(l: Log, recs: seq<Record>): Log {
    l.(recs := l.recs + recs)
  }

  // Records written when a sync began that are still in the journal.
  function Covered(l: Log, written: nat): nat {
    if written <= l.gone then 0 else written - l.gone
  }

  predicate Open(s: State) {
    s.mode == Running && !s.failed && !s.forcing
  }

  ghost predicate Enabled(s: State, e: Event) {
    match e
    case Write(next, stays) =>
      Open(s) && s.root.Some? && |s.history| > 0
      // The stored root is the journal's base or the target of the publish in progress.
      && (s.jroot.Some? ==>
            s.root == s.jbase || (s.publish.Rotated? && s.root == Some(s.publish.root))
              || (s.publish.Swapped? && s.root == Some(s.publish.root)))
    case SyncBegin => s.mode == Running && s.syncing.None?
    case SyncEnd(k) =>
      s.mode == Running && s.syncing.Some? && s.log.synced <= k <= |s.log.recs|
        && Covered(s.log, s.syncing.value.1) <= k
    case SyncFails => s.mode == Running && s.syncing.Some?
    case Ack(pos) => s.mode == Running && pos <= s.jsynced
    case Rotate => Open(s) && s.publish.Idle? && s.jroot.Some? && s.jbase.Some?
    case PublishSwap => s.mode == Running && s.publish.Rotated? && s.root == Some(s.publish.base)
    case PublishFinish => s.mode == Running && s.publish.Swapped? && s.publish.records <= s.jrecords
    case PublishFails => s.mode == Running && s.publish.Rotated?
    case Drop(n) => s.mode == Running && s.publish.Dropping? && n <= s.log.cur && n <= |s.log.recs|
    case DropDone => s.mode == Running && s.publish.Dropping? && s.log.cur == 0
    case ForceSwap(next) => Open(s) && s.publish.Idle? && (s.jroot.Some? ==> s.root == s.jbase)
    case ForceDrop(n) => s.mode == Running && s.forcing && n <= s.log.cur && n <= |s.log.recs|
    case ForceTruncate => s.mode == Running && s.forcing && s.log.cur == 0
    case ForceDone => s.mode == Running && s.forcing && (s.jrecords == 0 || s.log.recs == [])
    case Fail => s.mode == Running
    case Crash(kept) => s.log.synced <= kept <= |s.log.recs|
    case Replay => s.mode == Down && Replayed(s.root, s.log.recs) != Refused
    case Empty(n) => s.mode == Emptying && n <= s.log.cur && n <= |s.log.recs|
    case Truncate => s.mode == Emptying && s.log.cur == 0
    case Reopen => s.mode == Emptying && s.log.recs == [] && s.at < |s.history|
  }

  // The store as it comes up, with nothing unpublished.
  function Fresh(s: State): State
    requires |s.history| > 0
  {
    var n := |s.history| - 1;
    s.(mode := Running, jroot := None, jbase := None, jrecords := 0, jwritten := n, jsynced := n,
       syncing := None, publish := Idle, forcing := false, failed := false, torn := false)
  }

  function Max(a: nat, b: nat): nat {
    if a < b then b else a
  }

  ghost function Do(s: State, e: Event): State
    requires Enabled(s, e)
  {
    match e
    case Write(next, stays) =>
      var n := |s.history| - 1;
      var cur := if s.jroot.Some? then s.jroot.value else s.root.value;
      var recs := Written(cur, next, n, stays);
      s.(log := LogWrite(s.log, recs), history := s.history + [Some(next)], jwritten := n + 1,
         jbase := if s.jroot.None? then Some(cur) else s.jbase, jroot := Some(next), jrecords := s.jrecords + |recs|)
    case SyncBegin => s.(syncing := Some((s.jwritten, s.log.gone + |s.log.recs|)))
    case SyncEnd(k) => s.(log := s.log.(synced := k), jsynced := Max(s.jsynced, s.syncing.value.0), syncing := None)
    case SyncFails => s.(syncing := None, failed := true)
    case Ack(pos) => s.(acked := Max(s.acked, pos))
    case Rotate =>
      s.(log := s.log.(cur := |s.log.recs|, synced := |s.log.recs|), jsynced := s.jwritten,
         publish := Rotated(s.jbase.value, s.jroot.value, s.jwritten, s.jrecords))
    case PublishSwap =>
      s.(root := Some(s.publish.root), at := s.publish.pos, publish := Swapped(s.publish.root, s.publish.records))
    case PublishFinish =>
      var left := s.jrecords - s.publish.records;
      var idle := left == 0 && s.jroot == Some(s.publish.root);
      s.(jrecords := left, jroot := if idle then None else s.jroot,
         jbase := if idle then None else Some(s.publish.root), publish := Dropping)
    case PublishFails => s.(publish := Idle)
    case Drop(n) => s.(log := LogDrop(s.log, n))
    case DropDone => s.(publish := Idle)
    case ForceSwap(next) =>
      s.(root := Some(next), at := |s.history|, history := s.history + [Some(next)], forcing := true)
    case ForceDrop(n) => s.(log := LogDrop(s.log, n))
    case ForceTruncate => s.(log := LogDrop(s.log, |s.log.recs|))
    case ForceDone =>
      var n := if |s.history| == 0 then 0 else |s.history| - 1;
      s.(forcing := false, jroot := None, jbase := None, jrecords := 0, jwritten := n, jsynced := n, acked := n)
    case Fail => s.(failed := true)
    case Crash(kept) =>
      s.(log := s.log.(recs := s.log.recs[..kept], synced := kept, cur := if s.log.cur < kept then s.log.cur else kept),
         mode := Down, torn := (s.mode == Running && s.forcing) || (s.mode == Down && s.torn))
    case Replay =>
      if s.log.recs == [] || s.root.None? then s.(mode := Emptying)
      else s.(root := Replayed(s.root, s.log.recs).root, at := s.log.recs[|s.log.recs| - 1].pos, mode := Emptying)
    case Empty(n) => s.(log := LogDrop(s.log, n))
    case Truncate => s.(log := LogDrop(s.log, |s.log.recs|))
    case Reopen => Fresh(s.(history := s.history[..s.at + 1]))
  }

  /******** The invariant ********/

  // Records follow on from one another and carry the roots of the history.
  ghost predicate Chain(recs: seq<Record>, history: seq<Option<Root>>) {
    forall i :: 0 <= i < |recs| ==> Link(recs, history, i)
  }

  ghost predicate Link(recs: seq<Record>, history: seq<Option<Root>>, i: nat)
    requires i < |recs|
  {
    var r := recs[i];
    && r.from <= r.pos <= r.from + 1 && r.pos < |history|
    && history[r.from] == Some(r.expected) && history[r.pos] == Some(r.next)
    && (i > 0 ==> r.from == recs[i - 1].pos)
  }

  lemma {:induction false} ChainMono(recs: seq<Record>, history: seq<Option<Root>>, i: nat, j: nat)
    requires Chain(recs, history) && i <= j < |recs|
    ensures recs[i].from <= recs[j].from && recs[i].pos <= recs[j].pos && recs[i].from <= recs[j].pos
    ensures i < j ==> recs[i].pos <= recs[j].from
    decreases j - i
  {
    assert Link(recs, history, j);
    assert Link(recs, history, i);
    if i < j {
      ChainMono(recs, history, i, j - 1);
    }
  }

  // With the first i records durable, everything up to position t survives any crash.
  ghost predicate SafeAt(recs: seq<Record>, at: nat, i: nat, t: nat) {
    && i <= |recs|
    && if i > 0 then t <= recs[i - 1].pos else t <= at && (recs != [] ==> t <= recs[0].from)
  }

  ghost predicate HistoryOk(s: State) {
    && |s.history| > 0 && s.history[0].None? && (forall i :: 0 < i < |s.history| ==> s.history[i].Some?)
    && s.at < |s.history| && s.history[s.at] == s.root
  }

  ghost predicate LogOk(s: State) {
    Chain(s.log.recs, s.history) && s.log.cur <= s.log.synced <= |s.log.recs|
  }

  // What publishing has reached, between forced publishes.
  ghost predicate PublishOk(s: State) {
    var recs, cur := s.log.recs, s.log.cur;
    match s.publish
    case Idle =>
      s.jrecords == |recs| && (recs != [] ==> recs[0].from == s.at) && (s.jroot.Some? ==> s.jbase == s.root)
    case Rotated(base, root, pos, records) =>
      s.jrecords == |recs| && (recs != [] ==> recs[0].from == s.at) && (s.jroot.Some? ==> s.jbase == s.root)
      && s.root == Some(base) && 0 < cur == records <= |recs| && recs[cur - 1].pos == pos && recs[cur - 1].next == root
    case Swapped(root, records) =>
      s.jrecords == |recs| && s.root == Some(root) && 0 < cur == records <= |recs| && recs[cur - 1].pos == s.at
    case Dropping =>
      cur <= |recs| && s.jrecords == |recs| - cur && (s.jroot.Some? ==> s.jbase == s.root)
      && (cur > 0 ==> recs[cur - 1].pos == s.at) && (cur == 0 && recs != [] ==> recs[0].from == s.at)
  }

  ghost predicate RunningOk(s: State) {
    var n, recs := |s.history| - 1, s.log.recs;
    && s.acked <= s.jsynced <= s.jwritten <= n
    && SafeAt(recs, s.at, s.log.synced, s.jsynced)
    && (s.syncing.Some? ==>
          s.syncing.value.0 <= s.jwritten && SafeAt(recs, s.at, Covered(s.log, s.syncing.value.1), s.syncing.value.0))
    && (s.jroot.Some? <==> s.jrecords > 0)
    && if s.forcing
       then s.publish.Idle? && s.at == n && s.jwritten + 1 == n && (recs != [] ==> recs[|recs| - 1].pos + 1 == n)
            && (s.jrecords == 0 ==> recs == [])
       else s.jwritten == n && (s.jroot.Some? ==> s.jroot == s.history[n]) && (recs == [] ==> s.at == n)
            && (recs != [] ==> recs[|recs| - 1].pos == n) && PublishOk(s)
  }

  ghost predicate DownOk(s: State) {
    var recs := s.log.recs;
    && s.log.synced == |recs| && SafeAt(recs, s.at, |recs|, s.acked) && (recs != [] ==> s.root.Some?)
    && (!s.torn && recs != [] ==> recs[0].from <= s.at <= recs[|recs| - 1].pos)
  }

  ghost predicate EmptyingOk(s: State) {
    var recs := s.log.recs;
    s.log.synced == |recs| && s.acked <= s.at && (recs != [] ==> s.at == recs[|recs| - 1].pos)
  }

  ghost predicate Inv(s: State) {
    && HistoryOk(s) && LogOk(s)
    && match s.mode
       case Running => RunningOk(s)
       case Down => DownOk(s)
       case Emptying => EmptyingOk(s)
  }

  // A new repository: no root, an empty journal.
  function Start(): State {
    Fresh(State(None, Log([], 0, 0, 0), Running, None, None, 0, 0, 0, None, Idle, false, false, [None], 0, 0, false))
  }

  /******** Every step keeps it ********/

  lemma SafeMono(recs: seq<Record>, history: seq<Option<Root>>, at: nat, i: nat, j: nat, t: nat)
    requires Chain(recs, history) && SafeAt(recs, at, i, t) && i <= j <= |recs|
    ensures SafeAt(recs, at, j, t)
  {
    if i < j {
      if i > 0 { ChainMono(recs, history, i - 1, j - 1); } else { ChainMono(recs, history, 0, j - 1); }
    }
  }

  lemma ChainDrop(recs: seq<Record>, history: seq<Option<Root>>, n: nat)
    requires Chain(recs, history) && n <= |recs|
    ensures Chain(recs[n..], history)
  {
    forall i | 0 <= i < |recs| - n ensures Link(recs[n..], history, i) {
      assert Link(recs, history, n + i);
    }
  }

  lemma ChainTake(recs: seq<Record>, history: seq<Option<Root>>, n: nat)
    requires Chain(recs, history) && n <= |recs|
    ensures Chain(recs[..n], history)
  {
    forall i | 0 <= i < n ensures Link(recs[..n], history, i) {
      assert Link(recs, history, i);
    }
  }

  lemma ChainGrow(recs: seq<Record>, history: seq<Option<Root>>, more: seq<Option<Root>>)
    requires Chain(recs, history)
    ensures Chain(recs, history + more)
  {
    forall i | 0 <= i < |recs| ensures Link(recs, history + more, i) {
      assert Link(recs, history, i);
    }
  }

  // Removing records from the front keeps safe what the rest, or the backend's root, covers.
  lemma SafeDrop(recs: seq<Record>, history: seq<Option<Root>>, at: nat, i: nat, t: nat, n: nat)
    requires Chain(recs, history) && SafeAt(recs, at, i, t) && n <= |recs|
    requires i <= n ==> t <= at
    ensures SafeAt(recs[n..], at, if i <= n then 0 else i - n, t)
  {
    if i <= n < |recs| {
      if i > 0 { ChainMono(recs, history, i - 1, n); } else { ChainMono(recs, history, 0, n); }
    }
  }

  // Positions up to a record before the cut are at most the backend's, when the cut is what was published.
  lemma SafeUnder(recs: seq<Record>, history: seq<Option<Root>>, at: nat, i: nat, t: nat, cut: nat)
    requires Chain(recs, history) && SafeAt(recs, at, i, t) && i <= cut <= |recs|
    requires cut > 0 ==> recs[cut - 1].pos <= at
    ensures t <= at
  {
    if i > 0 {
      ChainMono(recs, history, i - 1, cut - 1);
    }
  }

  lemma ChainPush(recs: seq<Record>, history: seq<Option<Root>>, r: Record)
    requires Chain(recs, history)
    requires r.from <= r.pos <= r.from + 1 && r.pos < |history|
    requires history[r.from] == Some(r.expected) && history[r.pos] == Some(r.next)
    requires recs != [] ==> r.from == recs[|recs| - 1].pos
    ensures Chain(recs + [r], history)
  {
    forall i | 0 <= i < |recs| + 1 ensures Link(recs + [r], history, i) {
      if i < |recs| { assert Link(recs, history, i); }
    }
  }

  lemma SafePush(recs: seq<Record>, at: nat, i: nat, t: nat, more: seq<Record>)
    requires SafeAt(recs, at, i, t) && (recs == [] && more != [] ==> t <= more[0].from)
    ensures SafeAt(recs + more, at, i, t)
  {
  }

  // The records a journaled commit writes.
  function Written(cur: Root, next: Root, n: nat, stays: bool): seq<Record> {
    (if stays then [Record(cur, cur, n, n)] else []) + [Record(cur, next, n, n + 1)]
  }

  lemma ChainWritten(recs: seq<Record>, h: seq<Option<Root>>, cur: Root, next: Root, n: nat, stays: bool)
    requires Chain(recs, h) && |h| == n + 2 && h[n] == Some(cur) && h[n + 1] == Some(next)
    requires recs != [] ==> recs[|recs| - 1].pos == n
    ensures Chain(recs + Written(cur, next, n, stays), h)
  {
    var stay, move := Record(cur, cur, n, n), Record(cur, next, n, n + 1);
    if stays {
      ChainPush(recs, h, stay);
      ChainPush(recs + [stay], h, move);
      assert recs + [stay] + [move] == recs + Written(cur, next, n, stays);
    } else {
      ChainPush(recs, h, move);
      assert recs + Written(cur, next, n, stays) == recs + [move];
    }
  }

  lemma WriteKeeps(s: State, e: Event)
    requires Inv(s) && Enabled(s, e) && e.Write?
    ensures Inv(Do(s, e))
  {
    var n := |s.history| - 1;
    var cur := if s.jroot.Some? then s.jroot.value else s.root.value;
    assert s.history[n] == Some(cur);
    var h, recs := s.history + [Some(e.next)], s.log.recs;
    var more := Written(cur, e.next, n, e.stays);
    var t := Do(s, e);
    assert t.log.recs == recs + more && t.history == h;
    assert 1 <= |more| <= 2 && more[0].from == n && more[|more| - 1].pos == n + 1;
    ChainGrow(recs, s.history, [Some(e.next)]);
    ChainWritten(recs, h, cur, e.next, n, e.stays);
    SafePush(recs, s.at, s.log.synced, s.jsynced, more);
    if s.syncing.Some? {
      SafePush(recs, s.at, Covered(s.log, s.syncing.value.1), s.syncing.value.0, more);
    }
    hide Chain, SafeAt, Written;
    assert t.log.recs[|recs| + |more| - 1] == more[|more| - 1];
    assert recs != [] ==> t.log.recs[0] == recs[0];
    assert recs == [] ==> t.log.recs[0] == more[0];
    assert s.log.cur > 0 ==> t.log.recs[s.log.cur - 1] == recs[s.log.cur - 1];
  }

  lemma SyncKeeps(s: State, e: Event)
    requires Inv(s) && Enabled(s, e) && (e.SyncBegin? || e.SyncEnd? || e.SyncFails? || e.Ack? || e.Fail?)
    ensures Inv(Do(s, e))
  {
    if e.SyncEnd? {
      SafeMono(s.log.recs, s.history, s.at, s.log.synced, e.synced, s.jsynced);
      SafeMono(s.log.recs, s.history, s.at, Covered(s.log, s.syncing.value.1), e.synced, s.syncing.value.0);
    }
  }

  lemma PublishKeeps(s: State, e: Event)
    requires Inv(s) && Enabled(s, e)
    requires e.Rotate? || e.PublishSwap? || e.PublishFinish? || e.PublishFails? || e.DropDone?
    ensures Inv(Do(s, e))
  {
    var recs := s.log.recs;
    if e.Rotate? {
      SafeMono(recs, s.history, s.at, s.log.synced, |recs|, s.jsynced);
      assert Link(recs, s.history, |recs| - 1);
    } else if e.PublishSwap? {
      assert Link(recs, s.history, s.log.cur - 1);
      ChainMono(recs, s.history, 0, s.log.cur - 1);
    }
  }

  // Removing a front of the journal that is published, or is being emptied over a published root.
  lemma DropSafe(s: State, n: nat, cut: nat)
    requires LogOk(s) && RunningOk(s) && n <= |s.log.recs|
    requires s.forcing || (n <= cut <= |s.log.recs| && (cut > 0 ==> s.log.recs[cut - 1].pos <= s.at))
    ensures var l := LogDrop(s.log, n);
            && Chain(l.recs, s.history) && l.cur <= l.synced <= |l.recs|
            && SafeAt(l.recs, s.at, l.synced, s.jsynced)
            && (s.syncing.Some? ==> SafeAt(l.recs, s.at, Covered(l, s.syncing.value.1), s.syncing.value.0))
  {
    var recs := s.log.recs;
    ChainDrop(recs, s.history, n);
    if !s.forcing && s.log.synced <= n {
      SafeUnder(recs, s.history, s.at, s.log.synced, s.jsynced, cut);
    }
    SafeDrop(recs, s.history, s.at, s.log.synced, s.jsynced, n);
    if s.syncing.Some? {
      var i := Covered(s.log, s.syncing.value.1);
      if !s.forcing && i <= n {
        SafeUnder(recs, s.history, s.at, i, s.syncing.value.0, cut);
      }
      SafeDrop(recs, s.history, s.at, i, s.syncing.value.0, n);
    }
  }

  lemma DropKeeps(s: State, e: Event)
    requires Inv(s) && Enabled(s, e) && e.Drop?
    ensures Inv(Do(s, e))
  {
    var recs, n := s.log.recs, e.n;
    assert Do(s, e) == s.(log := LogDrop(s.log, n));
    hide Do, Enabled;
    DropSafe(s, n, s.log.cur);
    if 0 < n < |recs| {
      assert Link(recs, s.history, n);
    }
    hide Chain, SafeAt;
    assert n < |recs| ==> recs[n..][0] == recs[n] && recs[n..][|recs| - n - 1] == recs[|recs| - 1];
    assert n < s.log.cur ==> recs[n..][s.log.cur - n - 1] == recs[s.log.cur - 1];
  }

  lemma ForceDropKeeps(s: State, e: Event)
    requires Inv(s) && Enabled(s, e) && (e.ForceDrop? || e.ForceTruncate?)
    ensures Inv(Do(s, e))
  {
    var recs := s.log.recs;
    var n := if e.ForceDrop? then e.n else |recs|;
    DropSafe(s, n, 0);
    hide Chain, SafeAt;
    assert n < |recs| ==> recs[n..][|recs| - n - 1] == recs[|recs| - 1];
  }

  lemma ForceKeeps(s: State, e: Event)
    requires Inv(s) && Enabled(s, e) && (e.ForceSwap? || e.ForceDone?)
    ensures Inv(Do(s, e))
  {
    if e.ForceSwap? {
      ChainGrow(s.log.recs, s.history, [Some(e.next)]);
    }
  }

  // What survives a crash of a running store reaches every position acknowledged, and the backend's.
  lemma CrashSafe(s: State, kept: nat)
    requires Inv(s) && s.mode == Running && s.log.synced <= kept <= |s.log.recs|
    ensures var recs := s.log.recs[..kept];
            && Chain(recs, s.history) && SafeAt(recs, s.at, kept, s.acked) && (recs != [] ==> s.root.Some?)
            && (!s.forcing && recs != [] ==> recs[0].from <= s.at <= recs[kept - 1].pos)
  {
    var recs := s.log.recs;
    ChainTake(recs, s.history, kept);
    SafeMono(recs, s.history, s.at, s.log.synced, kept, s.jsynced);
    if kept > 0 {
      assert Link(recs, s.history, 0);
      ChainMono(recs, s.history, 0, kept - 1);
      if s.log.cur > 0 {
        ChainMono(recs, s.history, s.log.cur - 1, kept - 1);
        ChainMono(recs, s.history, 0, s.log.cur - 1);
      }
    }
  }

  lemma CrashKeeps(s: State, e: Event)
    requires Inv(s) && Enabled(s, e) && e.Crash?
    ensures Inv(Do(s, e))
  {
    var recs := s.log.recs;
    if s.mode == Running {
      CrashSafe(s, e.kept);
      hide Chain, SafeAt, PublishOk, Link;
    } else {
      assert recs[..e.kept] == recs;
      if recs != [] {
        assert Link(recs, s.history, |recs| - 1);
        ChainMono(recs, s.history, 0, |recs| - 1);
      }
    }
  }

  lemma ReplayKeeps(s: State, e: Event)
    requires Inv(s) && Enabled(s, e) && e.Replay?
    ensures Inv(Do(s, e))
  {
    var recs := s.log.recs;
    if recs != [] {
      assert Link(recs, s.history, |recs| - 1);
    }
    hide Chain;
  }

  lemma RecoveryKeeps(s: State, e: Event)
    requires Inv(s) && Enabled(s, e) && (e.Empty? || e.Truncate? || e.Reopen?)
    ensures Inv(Do(s, e))
  {
    var recs := s.log.recs;
    if e.Empty? {
      ChainDrop(recs, s.history, e.n);
    } else if e.Truncate? {
      ChainDrop(recs, s.history, |recs|);
    }
  }

  lemma StepKeeps(s: State, e: Event)
    requires Inv(s) && Enabled(s, e)
    ensures Inv(Do(s, e))
  {
    hide *;
    match e
    case Write(_, _) => WriteKeeps(s, e);
    case SyncBegin => SyncKeeps(s, e);
    case SyncEnd(_) => SyncKeeps(s, e);
    case SyncFails => SyncKeeps(s, e);
    case Ack(_) => SyncKeeps(s, e);
    case Fail => SyncKeeps(s, e);
    case Rotate => PublishKeeps(s, e);
    case PublishSwap => PublishKeeps(s, e);
    case PublishFinish => PublishKeeps(s, e);
    case PublishFails => PublishKeeps(s, e);
    case DropDone => PublishKeeps(s, e);
    case Drop(_) => DropKeeps(s, e);
    case ForceDrop(_) => ForceDropKeeps(s, e);
    case ForceTruncate => ForceDropKeeps(s, e);
    case ForceSwap(_) => ForceKeeps(s, e);
    case ForceDone => ForceKeeps(s, e);
    case Crash(_) => CrashKeeps(s, e);
    case Replay => ReplayKeeps(s, e);
    case Empty(_) => RecoveryKeeps(s, e);
    case Truncate => RecoveryKeeps(s, e);
    case Reopen => RecoveryKeeps(s, e);
  }

  /******** Whole runs ********/

  // s is reached from a new repository by the events es.
  ghost predicate Reaches(es: seq<Event>, s: State)
    decreases |es|, 0
  {
    if es == [] then s == Start() else ReachesBy(es[..|es| - 1], es[|es| - 1], s)
  }

  ghost predicate ReachesBy(es: seq<Event>, e: Event, s: State)
    decreases |es|, 1
  {
    exists p: State :: Reaches(es, p) && Steps(p, e, s)
  }

  ghost predicate Steps(p: State, e: Event, s: State) {
    Enabled(p, e) && s == Do(p, e)
  }

  lemma {:induction false} ReachedInv(es: seq<Event>, s: State)
    requires Reaches(es, s)
    ensures Inv(s)
  {
    if es != [] {
      var p: State :| Reaches(es[..|es| - 1], p) && Steps(p, es[|es| - 1], s);
      ReachedInv(es[..|es| - 1], p);
      StepKeeps(p, es[|es| - 1]);
    }
  }

  // What replaying a chain gives, when it is not refused.
  lemma ReplayedIs(root: Option<Root>, recs: seq<Record>, r: Option<Root>)
    requires Replayed(root, recs) == Done(r) && recs != [] && root.Some?
    ensures r == Some(recs[|recs| - 1].next)
  {
  }

  /** Whatever happened before, and however much of the unsynced tail a crash now loses, when the replay
      completes the root is that of the last acknowledged commit or of a later one. */
  lemma AcknowledgedSurvives(es: seq<Event>, s: State, kept: nat, r: Option<Root>) returns (j: nat)
    requires Reaches(es, s) && s.log.synced <= kept <= |s.log.recs|
    requires Replayed(s.root, s.log.recs[..kept]) == Done(r)
    ensures s.acked <= j < |s.history| && s.history[j] == r
  {
    ReachedInv(es, s);
    var down := Do(s, Crash(kept));
    StepKeeps(s, Crash(kept));
    CrashIs(s, kept);
    DownMeans(down);
    hide *;
    var recs := s.log.recs[..kept];
    if recs == [] {
      ReplayedEmpty(s.root);
      j := s.at;
    } else {
      ReplayedIs(s.root, recs, r);
      j := recs[|recs| - 1].pos;
    }
  }

  lemma CrashIs(s: State, kept: nat)
    requires Enabled(s, Crash(kept)) && kept <= |s.log.recs|
    ensures var t := Do(s, Crash(kept));
            t.mode == Down && t.log.recs == s.log.recs[..kept] && t.history == s.history && t.at == s.at
              && t.root == s.root && t.acked == s.acked
  {
  }

  lemma DownMeans(s: State)
    requires Inv(s) && s.mode == Down
    ensures s.at < |s.history| && s.history[s.at] == s.root
    ensures s.log.recs == [] ==> s.acked <= s.at
    ensures s.log.recs != [] ==>
              var last := s.log.recs[|s.log.recs| - 1];
              s.root.Some? && s.acked <= last.pos < |s.history| && s.history[last.pos] == Some(last.next)
  {
    if s.log.recs != [] {
      assert Link(s.log.recs, s.history, |s.log.recs| - 1);
    }
  }

  lemma ReplayedEmpty(root: Option<Root>)
    ensures Replayed(root, []) == Done(root)
  {
  }

  lemma {:induction false} FirstOnMeans(recs: seq<Record>, root: Root)
    ensures FirstOn(recs, root).Some? <==> exists i :: 0 <= i < |recs| && recs[i].expected == root
    ensures FirstOn(recs, root).Some? ==>
              FirstOn(recs, root).value < |recs| && recs[FirstOn(recs, root).value].expected == root
  {
    if recs != [] {
      FirstOnMeans(recs[1..], root);
      if i :| 0 <= i < |recs| && recs[i].expected == root && i > 0 {
        assert recs[1..][i - 1].expected == root;
      }
    }
  }

  // A chain passes through every position between its ends.
  lemma {:induction false} ChainReaches(recs: seq<Record>, history: seq<Option<Root>>, p: nat) returns (i: nat)
    requires Chain(recs, history) && recs != [] && recs[0].from <= p <= recs[|recs| - 1].pos
    ensures i <= |recs| && (if i < |recs| then recs[i].from == p else recs[|recs| - 1].pos == p)
  {
    i := 0;
    while i < |recs| && recs[i].from != p
      invariant i <= |recs|
      invariant if i < |recs| then recs[i].from <= p else recs[|recs| - 1].pos == p
    {
      assert Link(recs, history, i);
      if i + 1 < |recs| { assert Link(recs, history, i + 1); }
      i := i + 1;
    }
  }

  /** A chain is replayed exactly when the backend's root is one the chain passes through: one of the
      roots from the position it builds on to its last. */
  lemma RefusedExactly(recs: seq<Record>, history: seq<Option<Root>>, root: Root)
    requires Chain(recs, history) && recs != []
    ensures Replayed(Some(root), recs).Done? <==>
            exists p :: recs[0].from <= p <= recs[|recs| - 1].pos < |history| && history[p] == Some(root)
  {
    FirstOnMeans(recs, root);
    assert Link(recs, history, |recs| - 1);
    if p :| recs[0].from <= p <= recs[|recs| - 1].pos < |history| && history[p] == Some(root) {
      var i := ChainReaches(recs, history, p);
      if i < |recs| {
        assert Link(recs, history, i);
        assert recs[i].expected == root;
      }
    }
    if Replayed(Some(root), recs).Done? {
      if i :| 0 <= i < |recs| && recs[i].expected == root {
        assert Link(recs, history, i);
        ChainMono(recs, history, 0, i);
        ChainMono(recs, history, i, |recs| - 1);
        assert history[recs[i].from] == Some(root);
      } else {
        ChainMono(recs, history, 0, |recs| - 1);
        assert history[recs[|recs| - 1].pos] == Some(root);
      }
    }
  }

  /** Outside the window between a forced publish's swap and its reset, every crash replays; inside it,
      the replay is refused exactly when some records survive and none of the roots they pass through
      is the forced one. */
  lemma ReplayCompletes(es: seq<Event>, s: State, kept: nat)
    requires Reaches(es, s) && s.mode == Running && s.log.synced <= kept <= |s.log.recs|
    ensures !s.forcing ==> Replayed(s.root, s.log.recs[..kept]).Done?
    ensures var recs := s.log.recs[..kept];
            Replayed(s.root, recs).Refused? <==>
              s.forcing && kept > 0 && forall p ::
                recs[0].from <= p <= recs[kept - 1].pos < |s.history| ==> s.history[p] != s.root
  {
    ReachedInv(es, s);
    CrashSafe(s, kept);
    var recs := s.log.recs[..kept];
    if recs != [] {
      RefusedExactly(recs, s.history, s.root.value);
      assert Link(recs, s.history, kept - 1);
      if !s.forcing {
        assert s.history[s.at] == s.root;
      }
    }
  }

  lemma ReachesOn(es: seq<Event>, p: State, e: Event)
    requires Reaches(es, p) && Enabled(p, e)
    ensures Reaches(es + [e], Do(p, e))
  {
    hide Enabled, Do;
    assert (es + [e])[..|es|] == es;
    assert Steps(p, e, Do(p, e));
    assert ReachesBy(es, e, Do(p, e));
  }

  lemma StartReached()
    ensures Reaches([], Start())
  {
  }

  // A first root, by a forced publish.
  lemma RootReached() returns (s: State)
    ensures Reaches([ForceSwap(1)] + [ForceDone], s) && Open(s) && s.publish.Idle? && s.root == Some(1)
            && s.history == [None, Some(1)]
    ensures s.jroot.None? && s.log == Log([], 0, 0, 0)
  {
    StartReached();
    ReachesOn([], Start(), ForceSwap(1));
    assert [] + [ForceSwap(1)] == [ForceSwap(1)];
    var p := Do(Start(), ForceSwap(1));
    assert p.history == [None] + [Some(1)];
    ReachesOn([ForceSwap(1)], p, ForceDone);
    hide Reaches;
    s := Do(p, ForceDone);
  }

  lemma NotInChain()
    ensures Replayed(Some(3), [Record(1, 2, 1, 2)]).Refused?
  {
    assert FirstOn([Record(1, 2, 1, 2)][1..], 3) == None;
  }

  /** The refusal does happen: a commit is journaled on a root, a forced publish swaps in another, and the crash comes
      before the journal is reset. */
  lemma RefusedHappens()
    ensures exists es, s: State, kept: nat :: Reaches(es, s) && Enabled(s, Crash(kept)) && s.forcing
                                              && kept <= |s.log.recs| && Replayed(s.root, s.log.recs[..kept]).Refused?
  {
    hide Reaches, Replayed;
    var s := RootReached();
    var es := [ForceSwap(1)] + [ForceDone];
    ReachesOn(es, s, Write(2, false));
    var p := Do(s, Write(2, false));
    assert p.log.recs == [Record(1, 2, 1, 2)];
    ReachesOn(es + [Write(2, false)], p, ForceSwap(3));
    var q := Do(p, ForceSwap(3));
    assert q.log.recs[..1] == [Record(1, 2, 1, 2)];
    NotInChain();
    assert Enabled(q, Crash(1)) && Reaches(es + [Write(2, false)] + [ForceSwap(3)], q);
  }

  // No publish of a store that is alone on its repository ever finds the backend's root moved.
  lemma NeverConflicts(es: seq<Event>, s: State, next: Root)
    requires Reaches(es, s) && s.mode == Running
    ensures Open(s) && s.root.Some? ==> Enabled(s, Write(next, false)) && Enabled(s, Write(next, true))
    ensures Open(s) && s.publish.Idle? ==> Enabled(s, ForceSwap(next))
    ensures s.publish.Rotated? ==> Enabled(s, PublishSwap)
    ensures s.publish.Swapped? ==> Enabled(s, PublishFinish)
  {
    ReachedInv(es, s);
  }

  /******** The replay's choice ********/

  // What a replay does, from where the stored root lies in the journal's chain.
  method ChooseReplay(root: Option<Root>, recs: seq<Record>) returns (out: Outcome)
    ensures out == Replayed(root, recs)
  {
    if recs == [] || root.None? {
      return Done(root);
    }
    var k := 0;
    while k < |recs| && recs[k].expected != root.value
      invariant k <= |recs|
      invariant FirstOn(recs, root.value).Some? <==> FirstOn(recs[k..], root.value).Some?
    {
      assert recs[k..][1..] == recs[k + 1..];
      k := k + 1;
    }
    var last := recs[|recs| - 1].next;
    if k < |recs| {
      out := Done(Some(last));
    } else if root.value == last {
      out := Done(root);
    } else {
      out := Refused;
    }
  }

  /******** Segments ********/

  /** One segment file: its number, its records, and how many of them are durable. */
  datatype Segment = Segment(number: nat, recs: seq<Record>, synced: nat)

  ghost function Joined(segs: seq<Segment>): seq<Record> {
    if segs == [] then [] else Joined(segs[..|segs| - 1]) + segs[|segs| - 1].recs
  }

  // Numbered in order, and every one but the last was synced when the next began.
  ghost predicate InTurn(segs: seq<Segment>) {
    && (forall i, j :: 0 <= i < j < |segs| ==> segs[i].number < segs[j].number)
    && (forall i :: 0 <= i < |segs| - 1 ==> segs[i].synced == |segs[i].recs|)
    && (segs != [] ==> segs[|segs| - 1].synced <= |segs[|segs| - 1].recs|)
  }

  /** An open journal over numbered segments, the last the current one. */
  class Segments {
    var segs: seq<Segment>
    ghost var gone: nat

    ghost predicate Valid()
      reads this
    {
      segs != [] && InTurn(segs)
    }

    // The journal as Read returns it.
    ghost function View(): Log
      requires Valid()
      reads this
    {
      var before := Joined(segs[..|segs| - 1]);
      Log(Joined(segs), |before|, |before| + segs[|segs| - 1].synced, gone)
    }

    // Opens the segments found, or makes the first.
    constructor (found: seq<Segment>)
      requires InTurn(found)
      ensures Valid() && View().recs == Joined(found) && View().gone == 0
      ensures found == [] ==> View() == Log([], 0, 0, 0)
      ensures found != [] ==> segs == found
    {
      segs := if found == [] then [Segment(1, [], 0)] else found;
      gone := 0;
    }

    method Write(recs: seq<Record>)
      requires Valid()
      modifies this
      ensures Valid() && View() == LogWrite(old(View()), recs)
    {
      var last := segs[|segs| - 1];
      var next := last.(recs := last.recs + recs);
      ghost var was := segs;
      segs := segs[|segs| - 1 := next];
      assert segs[..|segs| - 1] == was[..|was| - 1];
      AppendAssoc(Joined(was[..|was| - 1]), last.recs, recs);
    }

    method Sync()
      requires Valid()
      modifies this
      ensures Valid() && View() == old(View()).(synced := |old(View()).recs|)
    {
      var last := segs[|segs| - 1];
      ghost var was := segs;
      segs := segs[|segs| - 1 := last.(synced := |last.recs|)];
      assert segs[..|segs| - 1] == was[..|was| - 1];
    }

    // Syncs the current segment, then opens the one after it.
    method RotateSegment()
      requires Valid()
      modifies this
      ensures Valid()
      ensures View() == old(View()).(cur := |old(View()).recs|, synced := |old(View()).recs|)
    {
      Sync();
      ghost var was := segs;
      segs := segs + [Segment(segs[|segs| - 1].number + 1, [], 0)];
      assert segs[..|segs| - 1] == was;
      assert Joined(was) + [] == Joined(was);
    }

    // Only the current segment stays.
    method DropSegments()
      requires Valid()
      modifies this
      ensures Valid() && View() == LogDrop(old(View()), old(View()).cur)
    {
      ghost var was, v := segs, View();
      ghost var before := Joined(was[..|was| - 1]);
      while |segs| > 1
        invariant Valid() && gone == old(gone) && 1 <= |segs| <= |was| && segs == was[|was| - |segs|..]
      {
        segs := segs[1..];
      }
      gone := gone + |before|;
      var last := segs[0];
      assert segs == [last] && last == was[|was| - 1];
      assert segs[..0] == [];
      assert Joined(segs) == last.recs;
      assert v.recs == before + last.recs && v.recs[v.cur..] == last.recs;
      assert View() == Log(last.recs, 0, last.synced, gone);
    }

    // Empties the journal.
    method Reset()
      requires Valid()
      modifies this
      ensures Valid() && View() == LogDrop(old(View()), |old(View()).recs|)
    {
      ghost var all := View();
      DropSegments();
      gone := gone + |segs[|segs| - 1].recs|;
      ghost var was := segs;
      var last := segs[|segs| - 1];
      segs := segs[|segs| - 1 := last.(recs := [], synced := 0)];
      assert segs[..|segs| - 1] == was[..|was| - 1];
    }
  }
}
