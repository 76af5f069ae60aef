/** Commit history: heights, and the merge base found by walking two histories highest first. */
module History {
  import opened Basics

  // A hash, ordered as its bytes are.
  type Id = nat

  datatype Commit = Commit(parents: seq<Id>, height: nat)

  type Store = map<Id, Commit>

  /******** Heights ********/

  ghost function Highest(st: Store, parents: seq<Id>): nat
    requires forall p :: p in parents ==> p in st
  {
    if parents == [] then 0
    else var h := Highest(st, parents[1..]); if st[parents[0]].height > h then st[parents[0]].height else h
  }

  // Every commit is higher than each of its parents at hand.
  ghost predicate Heighted(st: Store) {
    forall c :: c in st ==> forall p :: p in st[c].parents && p in st ==> st[p].height < st[c].height
  }

  lemma {:induction false} HighestBounds(st: Store, parents: seq<Id>, p: Id)
    requires (forall p :: p in parents ==> p in st) && p in parents
    ensures st[p].height <= Highest(st, parents)
  {
    if p != parents[0] {
      HighestBounds(st, parents[1..], p);
    }
  }

  /** The commit a branch's head and a merge in progress make. */
  function Committed(st: Store, head: Id, theirs: Option<Id>): (c: Commit)
    requires head in st && (theirs.Some? ==> theirs.value in st)
    ensures forall p :: p in c.parents <==> p == head || Some(p) == theirs
    ensures c.height == Highest(st, c.parents) + 1
  {
    if theirs.None? then Commit([head], st[head].height + 1)
    else
      var h := st[head].height; var t := st[theirs.value].height;
      assert [head, theirs.value][1..] == [theirs.value] && [theirs.value][1..] == [];
      assert Highest(st, [theirs.value]) == t;
      Commit([head, theirs.value], (if h > t then h else t) + 1)
  }

  // Writing a commit, under a hash no stored commit has or names, keeps heights.
  lemma CommitKeepsHeights(st: Store, id: Id, head: Id, theirs: Option<Id>)
    requires Heighted(st) && head in st && (theirs.Some? ==> theirs.value in st)
    requires id !in st && forall c :: c in st ==> id !in st[c].parents
    ensures Heighted(st[id := Committed(st, head, theirs)])
  {
    var c := Committed(st, head, theirs);
    forall p | p in c.parents ensures st[p].height < c.height {
      HighestBounds(st, c.parents, p);
    }
  }

  /******** Ancestry ********/

  ghost predicate Path(st: Store, p: seq<Id>) {
    p != [] && forall i :: 0 <= i < |p| - 1 ==> p[i] in st && p[i + 1] in st[p[i]].parents
  }

  ghost predicate Leads(st: Store, p: seq<Id>, a: Id, c: Id) {
    Path(st, p) && p[0] == a && p[|p| - 1] == c
  }

  // c is a or an ancestor of it.
  ghost predicate Reaches(st: Store, a: Id, c: Id) {
    exists p :: Leads(st, p, a, c)
  }

  lemma ReachesSelf(st: Store, a: Id)
    ensures Reaches(st, a, a)
  {
    assert Leads(st, [a], a, a);
  }

  lemma ReachesParent(st: Store, a: Id, x: Id, p: Id)
    requires Reaches(st, a, x) && x in st && p in st[x].parents
    ensures Reaches(st, a, p)
  {
    var q :| Leads(st, q, a, x);
    var q' := q + [p];
    assert forall i :: 0 <= i < |q| ==> q'[i] == q[i];
    assert Leads(st, q', a, p);
  }

  ghost predicate Common(st: Store, a: Id, b: Id, c: Id) {
    c in st && Reaches(st, a, c) && Reaches(st, b, c)
  }

  // Higher, or the lower hash at the same height.
  predicate Before(st: Store, x: Id, y: Id)
    requires x in st && y in st
  {
    st[x].height > st[y].height || (st[x].height == st[y].height && x < y)
  }

  // A common ancestor before every other.
  ghost predicate Best(st: Store, a: Id, b: Id, h: Id) {
    Common(st, a, b, h) && forall c :: Common(st, a, b, c) && c != h ==> Before(st, h, c)
  }

  // There is at most one best, and it does not depend on which side is which.
  lemma BestIsSymmetric(st: Store, a: Id, b: Id, h: Id, h': Id)
    requires Best(st, a, b, h) && Best(st, b, a, h')
    ensures h == h'
  {
    assert Common(st, a, b, h') && Common(st, b, a, h);
  }

  /******** A growing store ********/

  // Commits were added, none of them under a hash an old commit names.
  ghost predicate Extends(st: Store, st': Store) {
    && (forall c :: c in st ==> c in st' && st'[c] == st[c])
    && forall c, p :: c in st && p in st[c].parents && p !in st ==> p !in st'
  }

  lemma ExtendsMore(st: Store, st1: Store, st2: Store)
    requires Extends(st, st1) && Extends(st1, st2)
    ensures Extends(st, st2)
  {
    forall c, p | c in st && p in st[c].parents && p !in st ensures p !in st2 {
      assert p !in st1 && p in st1[c].parents;
    }
  }

  lemma ReachesOn(st: Store, a: Id, b: Id, c: Id)
    requires Reaches(st, a, b) && Reaches(st, b, c)
    ensures Reaches(st, a, c)
  {
    var p :| Leads(st, p, a, b);
    var q :| Leads(st, q, b, c);
    var r := p + q[1..];
    assert forall i :: 0 <= i < |r| ==> r[i] == if i < |p| then p[i] else q[i - |p| + 1];
    assert Leads(st, r, a, c);
  }

  // A way to another commit goes through a parent.
  lemma ReachesThrough(st: Store, a: Id, c: Id) returns (p: Id)
    requires Reaches(st, a, c) && a != c
    ensures a in st && p in st[a].parents && Reaches(st, p, c)
  {
    var q :| Leads(st, q, a, c);
    p := q[1];
    assert Leads(st, q[1..], p, c);
  }

  // From an old commit the larger store leads to old commits only, or to ones still missing.
  lemma {:induction false} PathOld(st: Store, st': Store, p: seq<Id>, i: nat)
    requires Extends(st, st') && Path(st', p) && p[0] in st && i < |p|
    ensures p[i] in st' ==> p[i] in st
  {
    if i > 0 {
      PathOld(st, st', p, i - 1);
      assert p[i] in st'[p[i - 1]].parents;
    }
  }

  lemma LeadsSame(st: Store, st': Store, p: seq<Id>, a: Id, c: Id)
    requires Extends(st, st') && a in st
    ensures Leads(st, p, a, c) <==> Leads(st', p, a, c)
  {
    if Leads(st', p, a, c) {
      forall i | 0 <= i < |p| - 1 ensures p[i] in st && p[i + 1] in st[p[i]].parents {
        PathOld(st, st', p, i);
      }
    }
  }

  lemma ReachesSame(st: Store, st': Store, a: Id, c: Id)
    requires Extends(st, st') && a in st
    ensures Reaches(st, a, c) <==> Reaches(st', a, c)
    ensures Reaches(st', a, c) && c in st' ==> c in st
  {
    forall p ensures Leads(st, p, a, c) <==> Leads(st', p, a, c) {
      LeadsSame(st, st', p, a, c);
    }
    if Reaches(st', a, c) {
      var p :| Leads(st', p, a, c);
      PathOld(st, st', p, |p| - 1);
    }
  }

  /** New commits change neither what two old commits share nor which shared one is best. */
  lemma BestSame(st: Store, st': Store, a: Id, b: Id, h: Id)
    requires Extends(st, st') && a in st && b in st
    ensures forall c :: Common(st, a, b, c) <==> Common(st', a, b, c)
    ensures Best(st, a, b, h) <==> Best(st', a, b, h)
  {
    forall c ensures Common(st, a, b, c) <==> Common(st', a, b, c) {
      ReachesSame(st, st', a, c);
      ReachesSame(st, st', b, c);
    }
  }

  /******** The walk ********/

  // What each side has flagged, what waits, and what was popped.
  datatype Walk = Walk(fa: set<Id>, fb: set<Id>, q: seq<Id>, popped: set<Id>)

  ghost predicate Shape(st: Store, w: Walk) {
    && (forall c :: c in w.fa || c in w.fb <==> c in w.q || c in w.popped)
    && (forall c :: c in w.q ==> c in st && c !in w.popped)
    && (forall c :: c in w.popped ==> c in st)
    && (forall i, j :: 0 <= i < j < |w.q| ==> w.q[i] != w.q[j])
  }

  ghost predicate Sound(st: Store, a: Id, b: Id, w: Walk) {
    && a in w.fa && b in w.fb
    && (forall c :: c in w.fa ==> Reaches(st, a, c)) && (forall c :: c in w.fb ==> Reaches(st, b, c))
  }

  // Nothing popped is below anything that waits, and none popped was common.
  ghost predicate Ordered(st: Store, w: Walk)
    requires Shape(st, w)
  {
    && (forall x, e :: x in w.popped && e in w.q ==> st[e].height <= st[x].height)
    && (forall x :: x in w.popped ==> !(x in w.fa && x in w.fb))
  }

  // A popped commit's flags are on its first n parents.
  ghost predicate Passed(st: Store, w: Walk, x: Id, n: nat)
    requires x in st && n <= |st[x].parents|
  {
    forall i :: 0 <= i < n ==> (x in w.fa ==> st[x].parents[i] in w.fa) && (x in w.fb ==> st[x].parents[i] in w.fb)
  }

  ghost predicate Walked(st: Store, a: Id, b: Id, w: Walk) {
    && Shape(st, w) && Sound(st, a, b, w) && Ordered(st, w)
    && forall x :: x in w.popped ==> Passed(st, w, x, |st[x].parents|)
  }

  // The same while c, just popped, is passing its flags on.
  ghost predicate Passing(st: Store, a: Id, b: Id, w: Walk, c: Id, n: nat) {
    && Shape(st, w) && Sound(st, a, b, w) && Ordered(st, w)
    && c in w.popped && n <= |st[c].parents| && Passed(st, w, c, n)
    && (forall x :: x in w.popped && x != c ==> Passed(st, w, x, |st[x].parents|))
    && (forall x :: x in w.popped ==> st[c].height <= st[x].height)
  }

  // Along any path from a, all is flagged up to a commit that still waits, or to the end.
  lemma {:induction false} PathFlagged(st: Store, w: Walk, p: seq<Id>, flagged: set<Id>) returns (i: nat)
    requires Shape(st, w) && Path(st, p) && p[0] in flagged && flagged in {w.fa, w.fb}
    requires forall x :: x in w.popped ==> Passed(st, w, x, |st[x].parents|)
    ensures i < |p| && p[i] in flagged && (i == |p| - 1 || p[i] in w.q)
  {
    i := 0;
    while i < |p| - 1 && p[i] !in w.q
      invariant 0 <= i < |p| && p[i] in flagged
    {
      var x := p[i];
      assert p[i + 1] in st[x].parents;
      var n :| 0 <= n < |st[x].parents| && st[x].parents[n] == p[i + 1];
      assert Passed(st, w, x, |st[x].parents|);
      i := i + 1;
    }
  }

  lemma {:induction false} PathHeights(st: Store, p: seq<Id>, i: nat)
    requires Heighted(st) && Path(st, p) && i < |p| && forall k :: 0 <= k < |p| ==> p[k] in st
    ensures st[p[|p| - 1]].height <= st[p[i]].height
    ensures p[i] != p[|p| - 1] ==> st[p[|p| - 1]].height < st[p[i]].height
    decreases |p| - i
  {
    if i < |p| - 1 {
      PathHeights(st, p, i + 1);
      assert p[i + 1] in st[p[i]].parents;
    }
  }

  // A stored commit one side reaches is flagged by it, or lies below one that waits.
  lemma FlaggedOrBelow(st: Store, w: Walk, a: Id, c: Id, flagged: set<Id>)
    requires Heighted(st) && Shape(st, w) && a in flagged && flagged in {w.fa, w.fb} && Reaches(st, a, c) && c in st
    requires forall x :: x in w.popped ==> Passed(st, w, x, |st[x].parents|)
    ensures c in flagged || exists e :: e in w.q && st[c].height < st[e].height
  {
    var p :| Leads(st, p, a, c);
    assert forall k :: 0 <= k < |p| - 1 ==> p[k] in st;
    var i := PathFlagged(st, w, p, flagged);
    PathHeights(st, p, i);
  }

  // The first commit popped with both flags is the best.
  lemma FirstCommonIsBest(st: Store, a: Id, b: Id, w: Walk, h: Id)
    requires Heighted(st) && Walked(st, a, b, w) && h in w.q && h in w.fa && h in w.fb
    requires forall e :: e in w.q && e != h ==> Before(st, h, e)
    ensures Best(st, a, b, h)
  {
    forall c | Common(st, a, b, c) && c != h ensures Before(st, h, c) {
      FlaggedOrBelow(st, w, a, c, w.fa);
      FlaggedOrBelow(st, w, b, c, w.fb);
    }
  }

  // With nothing waiting, nothing is common.
  lemma NothingLeft(st: Store, a: Id, b: Id, w: Walk)
    requires Heighted(st) && Walked(st, a, b, w) && w.q == []
    ensures forall c :: !Common(st, a, b, c)
  {
    forall c ensures !Common(st, a, b, c) {
      if Common(st, a, b, c) {
        FlaggedOrBelow(st, w, a, c, w.fa);
        FlaggedOrBelow(st, w, b, c, w.fb);
      }
    }
  }

  // Takes the first commit of the queue's order out of it.
  method Pop(st: Store, q: seq<Id>) returns (c: Id, rest: seq<Id>)
    requires q != [] && (forall e :: e in q ==> e in st) && (forall i, j :: 0 <= i < j < |q| ==> q[i] != q[j])
    ensures c in q && c !in rest && forall e :: e in rest <==> e in q && e != c
    ensures forall i, j :: 0 <= i < j < |rest| ==> rest[i] != rest[j]
    ensures forall e :: e in q && e != c ==> Before(st, c, e)
    ensures |rest| < |q|
  {
    var k := 0;
    for i := 1 to |q|
      invariant 0 <= k < i && forall j :: 0 <= j < i && j != k ==> Before(st, q[k], q[j])
    {
      if Before(st, q[i], q[k]) {
        k := i;
      }
    }
    c, rest := q[k], q[..k] + q[k + 1..];
    assert forall i :: 0 <= i < |rest| ==> rest[i] == if i < k then q[i] else q[i + 1];
    assert forall i :: 0 <= i < |q| && i != k ==> q[i] == rest[if i < k then i else i - 1];
  }

  lemma PopKeeps(st: Store, a: Id, b: Id, w: Walk, c: Id, rest: seq<Id>)
    requires Heighted(st) && Walked(st, a, b, w) && c in w.q && !(c in w.fa && c in w.fb)
    requires c !in rest && (forall e :: e in rest <==> e in w.q && e != c)
    requires forall i, j :: 0 <= i < j < |rest| ==> rest[i] != rest[j]
    requires forall e :: e in w.q && e != c ==> Before(st, c, e)
    ensures Passing(st, a, b, w.(q := rest, popped := w.popped + {c}), c, 0)
  {
    var w' := w.(q := rest, popped := w.popped + {c});
    assert forall x :: x in w.popped ==> Passed(st, w, x, |st[x].parents|) && Passed(st, w', x, |st[x].parents|);
  }

  // A parent p of c is flagged as c is, and waits if it was not flagged before.
  function Flag(w: Walk, c: Id, p: Id): Walk {
    Walk(if c in w.fa then w.fa + {p} else w.fa, if c in w.fb then w.fb + {p} else w.fb,
         if p in w.fa || p in w.fb then w.q else w.q + [p], w.popped)
  }

  lemma FlagKeeps(st: Store, a: Id, b: Id, w: Walk, c: Id, n: nat)
    requires Heighted(st) && Passing(st, a, b, w, c, n) && n < |st[c].parents| && st[c].parents[n] in st
    ensures Passing(st, a, b, Flag(w, c, st[c].parents[n]), c, n + 1)
  {
    var p := st[c].parents[n];
    var w' := Flag(w, c, p);
    assert st[p].height < st[c].height;
    assert p !in w.popped;
    assert Shape(st, w') by {
      assert forall i :: 0 <= i < |w.q| ==> w'.q[i] == w.q[i];
      assert forall e :: e in w'.q <==> e in w.q || (e == p && p !in w.fa && p !in w.fb);
    }
    if c in w.fa {
      ReachesParent(st, a, c, p);
    }
    if c in w.fb {
      ReachesParent(st, b, c, p);
    }
    assert forall x ::
             x in w.popped && x != c ==> Passed(st, w, x, |st[x].parents|) && Passed(st, w', x, |st[x].parents|);
  }

  lemma PassingDone(st: Store, a: Id, b: Id, w: Walk, c: Id)
    requires c in st && Passing(st, a, b, w, c, |st[c].parents|)
    ensures Walked(st, a, b, w)
  {
  }

  datatype BaseResult = Found(id: Id) | NoSharedHistory | Missing(id: Id)

  // Queues both starts.
  method Start(st: Store, a: Id, b: Id) returns (w: Walk, missing: Option<Id>)
    ensures missing.None? ==> Walked(st, a, b, w)
    ensures missing.Some? ==> missing.value !in st && (Reaches(st, a, missing.value) || Reaches(st, b, missing.value))
  {
    ReachesSelf(st, a);
    ReachesSelf(st, b);
    w := Walk({a}, {}, [a], {});
    if a !in st {
      return w, Some(a);
    }
    if b !in w.fa {
      if b !in st {
        return w, Some(b);
      }
      w := w.(q := w.q + [b]);
    }
    w := w.(fb := w.fb + {b});
    missing := None;
  }

  // Passes a popped commit's flags on to its parents.
  method PassFlags(st: Store, ghost a: Id, ghost b: Id, w0: Walk, c: Id) returns (w: Walk, missing: Option<Id>)
    requires Heighted(st) && c in st && Passing(st, a, b, w0, c, 0)
    ensures missing.None? ==> Walked(st, a, b, w) && w.popped == w0.popped
    ensures missing.Some? ==> missing.value !in st && (Reaches(st, a, missing.value) || Reaches(st, b, missing.value))
  {
    hide *;
    w := w0;
    for n := 0 to |st[c].parents|
      invariant Passing(st, a, b, w, c, n) && w.popped == w0.popped
    {
      var p := st[c].parents[n];
      if p !in w.fa && p !in w.fb && p !in st {
        MissingReached(st, a, b, w, c, n);
        return w, Some(p);
      }
      PassingMeans(st, a, b, w, c, n);
      FlagKeeps(st, a, b, w, c, n);
      FlagSame(w, c, p);
      w := Flag(w, c, p);
    }
    PassingDone(st, a, b, w, c);
    missing := None;
  }

  /** The best common ancestor: none is higher, and none as high has a lower id. It fails only when there is none or
      a commit cannot be read. */
  method MergeBase(st: Store, a: Id, b: Id) returns (r: BaseResult)
    requires Heighted(st)
    ensures r.Found? ==> Best(st, a, b, r.id)
    ensures r.NoSharedHistory? ==> forall c :: !Common(st, a, b, c)
    ensures r.Missing? ==> r.id !in st && (Reaches(st, a, r.id) || Reaches(st, b, r.id))
  {
    hide *;
    var w, missing := Start(st, a, b);
    if missing.Some? {
      return Missing(missing.value);
    }
    while w.q != []
      invariant Walked(st, a, b, w)
      decreases |st.Keys - w.popped|
    {
      WalkedMeans(st, a, b, w);
      var c, rest := Pop(st, w.q);
      if c in w.fa && c in w.fb {
        FirstCommonIsBest(st, a, b, w, c);
        return Found(c);
      }
      PopKeeps(st, a, b, w, c, rest);
      Shrinks(st.Keys, w.popped, c);
      w, missing := PassFlags(st, a, b, w.(q := rest, popped := w.popped + {c}), c);
      if missing.Some? {
        return Missing(missing.value);
      }
    }
    NothingLeft(st, a, b, w);
    r := NoSharedHistory;
  }

  lemma WalkedMeans(st: Store, a: Id, b: Id, w: Walk)
    requires Walked(st, a, b, w)
    ensures (forall e :: e in w.q ==> e in st && e !in w.popped)
            && (forall i, j :: 0 <= i < j < |w.q| ==> w.q[i] != w.q[j])
  {
  }

  // A flagged commit is stored.
  lemma PassingMeans(st: Store, a: Id, b: Id, w: Walk, c: Id, n: nat)
    requires Passing(st, a, b, w, c, n)
    ensures forall p :: p in w.fa || p in w.fb ==> p in st
  {
  }

  lemma MissingReached(st: Store, a: Id, b: Id, w: Walk, c: Id, n: nat)
    requires Passing(st, a, b, w, c, n) && n < |st[c].parents|
    ensures Reaches(st, a, st[c].parents[n]) || Reaches(st, b, st[c].parents[n])
  {
    if c in w.fa {
      ReachesParent(st, a, c, st[c].parents[n]);
    } else {
      ReachesParent(st, b, c, st[c].parents[n]);
    }
  }

  lemma FlagSame(w: Walk, c: Id, p: Id)
    ensures Flag(w, c, p).popped == w.popped
  {
  }

  lemma Shrinks(all: set<Id>, popped: set<Id>, c: Id)
    requires c in all && c !in popped
    ensures |all - (popped + {c})| < |all - popped|
  {
    assert all - popped == (all - (popped + {c})) + {c};
  }
}
