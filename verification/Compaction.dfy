/** Compacting index objects as they are published: small objects of one tier merged into larger ones, lowest
    tier first, so that what one pass wrote may be merged again later in it. */
module Compaction {
  import opened Basics
  import opened GcRound

  const FAN_IN := 8
  const MAX_MERGE := 64
  const SMALL := 524288
  const TIERS := 4

  // The tier of an object of an estimated size: how many powers of eight over the base it reaches.
  function TierOf(est: nat): nat {
    if est < 1024 then 0 else if est < 8192 then 1 else if est < 65536 then 2 else if est < 524288 then 3 else 4
  }

  // Where a tier starts.
  function Floor(k: nat): nat
    requires k <= 4
  {
    if k == 0 then 0 else if k == 1 then 1024 else if k == 2 then 8192 else if k == 3 then 65536 else 524288
  }

  ghost function NamesOf(infos: seq<Info>): set<Name> {
    set i | 0 <= i < |infos| :: infos[i].name
  }

  /** A set of index objects that lists each pack once. */
  ghost predicate Once(list: set<Sum>, objects: Objects) {
    && (forall a :: a in list ==> a in objects && objects[a] != [] && Distinct(objects[a]))
    && (forall a, b :: a in list && b in list && a != b ==> NamesOf(objects[a]) !! NamesOf(objects[b]))
  }

  // The packs a set of index objects lists.
  ghost predicate Locates(list: set<Sum>, objects: Objects, p: Info) {
    exists a :: a in list && a in objects && p in objects[a]
  }

  ghost predicate SameLocated(list: set<Sum>, objects: Objects, list': set<Sum>, objects': Objects) {
    forall p :: Locates(list, objects, p) <==> Locates(list', objects', p)
  }

  // The packs of a run of objects, in order.
  ghost function Gathered(merging: seq<Sum>, objects: Objects): seq<Info>
    requires forall a :: a in merging ==> a in objects
  {
    if merging == [] then [] else Gathered(merging[..|merging| - 1], objects) + objects[merging[|merging| - 1]]
  }

  ghost predicate NoRepeats(xs: seq<Sum>) {
    forall i, j :: 0 <= i < j < |xs| ==> xs[i] != xs[j]
  }

  ghost function SetOf(xs: seq<Sum>): set<Sum> {
    set i | 0 <= i < |xs| :: xs[i]
  }

  lemma {:induction false} GatheredIn(merging: seq<Sum>, objects: Objects, p: Info)
    requires forall a :: a in merging ==> a in objects
    ensures p in Gathered(merging, objects) <==> exists i :: 0 <= i < |merging| && p in objects[merging[i]]
    decreases |merging|
  {
    if merging != [] {
      var init := merging[..|merging| - 1];
      GatheredIn(init, objects, p);
      assert forall i :: 0 <= i < |init| ==> init[i] == merging[i];
    }
  }

  lemma DistinctAppend(a: seq<Info>, b: seq<Info>)
    requires Distinct(a) && Distinct(b) && NamesOf(a) !! NamesOf(b)
    ensures Distinct(a + b)
  {
    forall i, j | 0 <= i < j < |a + b| ensures (a + b)[i].name != (a + b)[j].name {
      if i < |a| <= j {
        assert a[i].name in NamesOf(a) && b[j - |a|].name in NamesOf(b);
      }
    }
  }

  // Objects that list each pack once gather each pack once.
  lemma {:induction false} GatheredDistinct(merging: seq<Sum>, list: set<Sum>, objects: Objects)
    requires Once(list, objects) && NoRepeats(merging) && forall a :: a in merging ==> a in list
    ensures (forall a :: a in merging ==> a in objects) && Distinct(Gathered(merging, objects))
    decreases |merging|
  {
    assert forall a :: a in merging ==> a in objects;
    if merging != [] {
      var init, last := merging[..|merging| - 1], merging[|merging| - 1];
      GatheredDistinct(init, list, objects);
      var g, o := Gathered(init, objects), objects[last];
      forall x | x in NamesOf(g) ensures x !in NamesOf(o) {
        var i :| 0 <= i < |g| && g[i].name == x;
        GatheredIn(init, objects, g[i]);
        var k :| 0 <= k < |init| && g[i] in objects[init[k]];
        assert init[k] == merging[k] != last;
        assert x in NamesOf(objects[init[k]]);
      }
      DistinctAppend(g, o);
    }
  }

  /******** One merge ********/

  // Batches of a list that names each pack once name each pack once between them.
  lemma {:induction false} BatchesOnce(batches: seq<seq<Info>>)
    requires Distinct(Concat(batches))
    ensures forall k :: 0 <= k < |batches| ==> Distinct(batches[k])
    ensures forall j, k :: 0 <= j < k < |batches| ==> NamesOf(batches[j]) !! NamesOf(batches[k])
    decreases |batches|
  {
    if batches != [] {
      var init, last := batches[..|batches| - 1], batches[|batches| - 1];
      var all := Concat(batches);
      assert all == Concat(init) + last;
      assert forall i :: 0 <= i < |Concat(init)| ==> all[i] == Concat(init)[i];
      assert forall i :: 0 <= i < |last| ==> all[|Concat(init)| + i] == last[i];
      BatchesOnce(init);
      assert forall k :: 0 <= k < |init| ==> init[k] == batches[k];
      forall j | 0 <= j < |init| ensures NamesOf(batches[j]) !! NamesOf(last) {
        forall x | x in NamesOf(batches[j]) ensures x !in NamesOf(last) {
          var i :| 0 <= i < |batches[j]| && batches[j][i].name == x;
          ConcatIn(init, batches[j][i]);
          var n :| 0 <= n < |Concat(init)| && Concat(init)[n] == batches[j][i];
          assert all[n].name == x;
        }
      }
    }
  }

  /** What one merge wrote: batches of the merged objects' packs, under new names. */
  ghost predicate Wrote(objects: Objects, merging: seq<Sum>, objects': Objects, sums: seq<Sum>,
                        batches: seq<seq<Info>>) {
    && (forall a :: a in merging ==> a in objects) && Concat(batches) == Gathered(merging, objects)
    && |sums| == |batches| && NoRepeats(sums)
    && (forall k ::
          0 <= k < |sums| ==>
            batches[k] != [] && sums[k] !in objects && sums[k] in objects' && objects'[sums[k]] == batches[k])
    && (forall a :: a in objects ==> a in objects' && objects'[a] == objects[a])
  }

  ghost function Replaced(list: set<Sum>, merging: seq<Sum>, sums: seq<Sum>): set<Sum> {
    list - SetOf(merging) + SetOf(sums)
  }

  lemma MergeOnce(list: set<Sum>, objects: Objects, merging: seq<Sum>, objects': Objects, sums: seq<Sum>,
                  batches: seq<seq<Info>>)
    requires Once(list, objects) && NoRepeats(merging) && (forall a :: a in merging ==> a in list)
             && Wrote(objects, merging, objects', sums, batches)
    ensures Once(Replaced(list, merging, sums), objects')
  {
    GatheredDistinct(merging, list, objects);
    BatchesOnce(batches);
    var list' := Replaced(list, merging, sums);
    forall a | a in list' ensures a in objects' && objects'[a] != [] && Distinct(objects'[a]) {
      if a in SetOf(sums) {
        var k :| 0 <= k < |sums| && sums[k] == a;
      }
    }
    forall a, b | a in list' && b in list' && a != b ensures NamesOf(objects'[a]) !! NamesOf(objects'[b]) {
      if a in SetOf(sums) && b in SetOf(sums) {
        var j :| 0 <= j < |sums| && sums[j] == a;
        var k :| 0 <= k < |sums| && sums[k] == b;
        assert j < k || k < j;
      } else if a in SetOf(sums) {
        NewApart(list, objects, merging, objects', sums, batches, a, b);
      } else if b in SetOf(sums) {
        NewApart(list, objects, merging, objects', sums, batches, b, a);
      }
    }
  }

  // A new object shares no pack with one that was not merged.
  lemma NewApart(list: set<Sum>, objects: Objects, merging: seq<Sum>, objects': Objects, sums: seq<Sum>,
                 batches: seq<seq<Info>>, a: Sum, b: Sum)
    requires Once(list, objects) && (forall x :: x in merging ==> x in list)
             && Wrote(objects, merging, objects', sums, batches)
    requires a in SetOf(sums) && b in list && b !in SetOf(merging)
    ensures a in objects' && b in objects' && NamesOf(objects'[a]) !! NamesOf(objects'[b])
  {
    var k :| 0 <= k < |sums| && sums[k] == a;
    forall x | x in NamesOf(batches[k]) ensures x !in NamesOf(objects[b]) {
      var i :| 0 <= i < |batches[k]| && batches[k][i].name == x;
      ConcatIn(batches, batches[k][i]);
      GatheredIn(merging, objects, batches[k][i]);
      var m :| 0 <= m < |merging| && batches[k][i] in objects[merging[m]];
      assert merging[m] in SetOf(merging) && merging[m] != b;
      assert x in NamesOf(objects[merging[m]]);
    }
  }

  lemma MergeLocates(list: set<Sum>, objects: Objects, merging: seq<Sum>, objects': Objects, sums: seq<Sum>,
                     batches: seq<seq<Info>>)
    requires Once(list, objects) && (forall a :: a in merging ==> a in list)
             && Wrote(objects, merging, objects', sums, batches)
    ensures SameLocated(list, objects, Replaced(list, merging, sums), objects')
  {
    var list' := Replaced(list, merging, sums);
    forall p ensures Locates(list, objects, p) <==> Locates(list', objects', p) {
      GatheredIn(merging, objects, p);
      ConcatIn(batches, p);
      if Locates(list, objects, p) {
        var a :| a in list && a in objects && p in objects[a];
        if a in SetOf(merging) {
          var k :| 0 <= k < |batches| && p in batches[k];
          assert sums[k] in list' && p in objects'[sums[k]];
        } else {
          assert a in list' && p in objects'[a];
        }
      }
      if Locates(list', objects', p) {
        var a :| a in list' && a in objects' && p in objects'[a];
        if a in SetOf(sums) {
          var k :| 0 <= k < |sums| && sums[k] == a;
          assert p in batches[k];
          var i :| 0 <= i < |merging| && p in objects[merging[i]];
          assert merging[i] in list;
        } else {
          assert a in list && p in objects[a];
        }
      }
    }
  }

  /******** Tiers ********/

  lemma {:induction false} SizeFloor(infos: seq<Info>)
    ensures Size(infos) >= 128 * |infos|
    decreases |infos|
  {
    if infos != [] {
      SizeFloor(infos[..|infos| - 1]);
    }
  }

  lemma {:induction false} SizeAppend(a: seq<Info>, b: seq<Info>)
    ensures Size(a + b) == Size(a) + Size(b)
    decreases |b|
  {
    if b == [] {
      assert a + b == a;
    } else {
      var init := b[..|b| - 1];
      SizeAppend(a, init);
      assert (a + b)[..|a + b| - 1] == a + init;
    }
  }

  lemma TimesNext(a: nat, n: nat)
    ensures a * (n + 1) == a * n + a
  {
  }

  lemma {:induction false} GatheredSize(merging: seq<Sum>, objects: Objects, least: nat)
    requires forall a :: a in merging ==> a in objects && Size(objects[a]) >= least
    ensures Size(Gathered(merging, objects)) >= least * |merging|
    decreases |merging|
  {
    if merging != [] {
      var init, last := merging[..|merging| - 1], merging[|merging| - 1];
      GatheredSize(init, objects, least);
      SizeAppend(Gathered(init, objects), objects[last]);
      TimesNext(least, |init|);
    }
  }

  // A full tier merged into one object makes one of a higher tier.
  lemma HigherTier(merging: seq<Sum>, objects: Objects, k: nat)
    requires |merging| >= FAN_IN && k < TIERS
    requires forall a :: a in merging ==> a in objects && objects[a] != [] && TierOf(Size(objects[a])) == k
    ensures TierOf(Size(Gathered(merging, objects))) > k
  {
    var least := if k == 0 then 128 else Floor(k);
    forall a | a in merging ensures Size(objects[a]) >= least {
      SizeFloor(objects[a]);
    }
    GatheredSize(merging, objects, least);
    assert least * |merging| >= least * 8;
  }

  /******** A pass ********/

  /** The name an object written in merge i gets: its bytes hold a salt of its own, so it is always new. */
  type Namer = (nat, seq<Info>) -> Sum

  ghost predicate AlwaysNew(name: Namer, objects: Objects, i: nat) {
    && (forall j, batch :: i <= j ==> name(j, batch) !in objects)
    && (forall j, k, a, b :: name(j, a) == name(k, b) ==> j == k && a == b)
  }

  function Namings(s: Setup, name: Namer, i: nat): Setup {
    s.(encode := (batch: seq<Info>) => name(i, batch))
  }

  lemma NamingsMean(s: Setup, name: Namer, i: nat, objects: Objects)
    requires AlwaysNew(name, objects, i)
    ensures Injective(Namings(s, name, i)) && Encodes(Namings(s, name, i), objects)
    ensures forall batch :: Namings(s, name, i).encode(batch) == name(i, batch)
  {
  }

  method AddAll(w: IndexWriter, infos: seq<Info>)
    requires w.Valid()
    modifies w
    ensures w.Valid() && w.Added() == old(w.Added()) + infos
  {
    hide *;
    ghost var was := w.Added();
    assert was + infos[..0] == was;
    for n := 0 to |infos|
      invariant w.Valid() && w.Added() == was + infos[..n]
    {
      w.Add(infos[n]);
      assert infos[..n + 1] == infos[..n] + [infos[n]];
      AppendAssoc(was, infos[..n], [infos[n]]);
    }
    assert infos[..|infos|] == infos;
  }

  // Writes the packs of a tier's objects as new objects.
  method MergeObjects(s: Setup, name: Namer, i: nat, objects: Objects, merging: seq<Sum>, ghost list: set<Sum>)
    returns (objects': Objects, sums: seq<Sum>)
    requires Once(list, objects) && NoRepeats(merging) && (forall a :: a in merging ==> a in list)
             && AlwaysNew(name, objects, i)
    ensures exists batches :: Wrote(objects, merging, objects', sums, batches)
    ensures AlwaysNew(name, objects', i + 1)
  {
    GatheredDistinct(merging, list, objects);
    hide *;
    NamingsMean(s, name, i, objects);
    var w := new IndexWriter(Namings(s, name, i), objects);
    GatheredNone(objects);
    assert merging[..0] == [];
    for m := 0 to |merging|
      invariant w.Valid() && fresh(w) && w.was == objects && w.Added() == Gathered(merging[..m], objects)
    {
      GatheredNext(merging, m, objects);
      AddAll(w, objects[merging[m]]);
    }
    assert merging[..|merging|] == merging;
    w.Finish();
    w.WrittenMeans();
    objects', sums := w.objects, w.sums;
    WroteIs(s, name, i, objects, merging, list, objects', sums, w.batches);
  }

  lemma GatheredNone(objects: Objects)
    ensures Gathered([], objects) == []
  {
  }

  lemma GatheredNext(merging: seq<Sum>, m: nat, objects: Objects)
    requires m < |merging| && forall a :: a in merging ==> a in objects
    ensures merging[m] in objects && Gathered(merging[..m + 1], objects) == Gathered(merging[..m], objects)
            + objects[merging[m]]
  {
    assert merging[..m + 1][..m] == merging[..m];
  }

  lemma WroteIs(s: Setup, name: Namer, i: nat, objects: Objects, merging: seq<Sum>, list: set<Sum>, objects': Objects,
                sums: seq<Sum>, batches: seq<seq<Info>>)
    requires (forall a :: a in merging ==> a in objects) && Distinct(Gathered(merging, objects))
             && AlwaysNew(name, objects, i)
    requires Written(Namings(s, name, i), objects', sums, batches, objects)
             && Concat(batches) == Gathered(merging, objects)
    ensures Wrote(objects, merging, objects', sums, batches) && AlwaysNew(name, objects', i + 1)
  {
    hide Gathered, Concat;
    BatchesOnce(batches);
    forall k | 0 <= k < |sums| ensures batches[k] != [] && sums[k] == name(i, batches[k]) && sums[k] !in objects
      && objects'[sums[k]] == batches[k] {
      assert Bounded(batches[k]);
    }
    forall j, k | 0 <= j < k < |sums| ensures sums[j] != sums[k] {
      assert batches[j][0].name in NamesOf(batches[j]);
      assert batches[j] != batches[k];
    }
    assert forall j, batch :: i + 1 <= j ==> name(j, batch) !in objects';
  }

  // The tiers from k on are apart, without repeats, and of objects that stand.
  ghost predicate TiersIn(tiers: seq<seq<Sum>>, k: nat, standing: set<Sum>) {
    && |tiers| == TIERS
    && (forall j :: k <= j < TIERS ==> NoRepeats(tiers[j]) && SetOf(tiers[j]) <= standing)
    && (forall i, j :: k <= i < j < TIERS ==> SetOf(tiers[i]) !! SetOf(tiers[j]))
  }

  lemma SetPush(xs: seq<Sum>, x: Sum)
    ensures SetOf(xs + [x]) == SetOf(xs) + {x} && (NoRepeats(xs) && x !in SetOf(xs) ==> NoRepeats(xs + [x]))
  {
    var ys := xs + [x];
    assert forall i :: 0 <= i < |xs| ==> ys[i] == xs[i];
    assert ys[|xs|] == x;
    forall y | y in SetOf(xs) + {x} ensures y in SetOf(ys) {
      if y in SetOf(xs) {
        var i :| 0 <= i < |xs| && xs[i] == y;
        assert ys[i] == y;
      }
    }
  }

  // An object that is in no tier goes to one.
  lemma TierPush(tiers: seq<seq<Sum>>, k: nat, standing: set<Sum>, t: nat, x: Sum)
    requires TiersIn(tiers, k, standing) && k <= t < TIERS && x !in standing
    ensures TiersIn(tiers[t := tiers[t] + [x]], k, standing + {x})
  {
    SetPush(tiers[t], x);
    hide SetOf, NoRepeats;
    var tiers' := tiers[t := tiers[t] + [x]];
    forall i, j | k <= i < j < TIERS ensures SetOf(tiers'[i]) !! SetOf(tiers'[j]) {
      assert SetOf(tiers[i]) <= standing && SetOf(tiers[j]) <= standing && SetOf(tiers[i]) !! SetOf(tiers[j]);
    }
  }

  lemma TiersMore(tiers: seq<seq<Sum>>, k: nat, standing: set<Sum>, standing': set<Sum>)
    requires TiersIn(tiers, k, standing) && standing <= standing'
    ensures TiersIn(tiers, k, standing')
  {
    hide SetOf, NoRepeats;
  }

  // Merging from tier k leaves the higher tiers standing.
  lemma TiersAfter(tiers: seq<seq<Sum>>, k: nat, standing: set<Sum>, merging: seq<Sum>)
    requires TiersIn(tiers, k, standing) && k < TIERS && SetOf(merging) <= SetOf(tiers[k])
    ensures TiersIn(tiers, k + 1, standing - SetOf(merging))
  {
    hide SetOf, NoRepeats;
    forall j | k + 1 <= j < TIERS ensures SetOf(tiers[j]) <= standing - SetOf(merging) {
      assert SetOf(tiers[k]) !! SetOf(tiers[j]);
    }
  }

  lemma TakeSome(xs: seq<Sum>, n: nat)
    requires n <= |xs| && NoRepeats(xs)
    ensures NoRepeats(xs[..n]) && SetOf(xs[..n]) <= SetOf(xs) && forall x :: x in xs[..n] <==> x in SetOf(xs[..n])
  {
    forall x | x in SetOf(xs[..n]) ensures x in SetOf(xs) {
      var i :| 0 <= i < n && xs[..n][i] == x;
      assert xs[i] == x;
    }
  }

  // A pass under way: the objects that stand list what the list did, each pack once.
  ghost predicate InPass(list: seq<Sum>, objects0: Objects, objects: Objects, written: seq<Sum>, replaced: set<Sum>,
                         standing: set<Sum>) {
    && standing == SetOf(list) + SetOf(written) - replaced && replaced <= SetOf(list) + SetOf(written)
    && Once(standing, objects) && SameLocated(SetOf(list), objects0, standing, objects)
    && NoRepeats(list) && NoRepeats(written) && SetOf(list) !! SetOf(written)
       && SetOf(list) + SetOf(written) <= objects.Keys
  }

  lemma SetAppend(a: seq<Sum>, b: seq<Sum>)
    ensures SetOf(a + b) == SetOf(a) + SetOf(b)
    ensures NoRepeats(a) && NoRepeats(b) && SetOf(a) !! SetOf(b) ==> NoRepeats(a + b)
  {
    var c := a + b;
    assert forall i :: 0 <= i < |a| ==> c[i] == a[i];
    assert forall i :: 0 <= i < |b| ==> c[|a| + i] == b[i];
    forall x | x in SetOf(a) + SetOf(b) ensures x in SetOf(c) {
      if x in SetOf(a) {
        var i :| 0 <= i < |a| && a[i] == x;
        assert c[i] == x;
      } else {
        var i :| 0 <= i < |b| && b[i] == x;
        assert c[|a| + i] == x;
      }
    }
    if NoRepeats(a) && NoRepeats(b) && SetOf(a) !! SetOf(b) {
      forall i, j | 0 <= i < j < |c| ensures c[i] != c[j] {
        if i < |a| <= j {
          assert a[i] in SetOf(a) && b[j - |a|] in SetOf(b);
        }
      }
    }
  }

  // One merge carries the pass on.
  lemma PassOn(list: seq<Sum>, objects0: Objects, objects: Objects, written: seq<Sum>, replaced: set<Sum>,
               standing: set<Sum>,
               merging: seq<Sum>, objects': Objects, sums: seq<Sum>, batches: seq<seq<Info>>)
    requires InPass(list, objects0, objects, written, replaced, standing) && NoRepeats(merging)
             && SetOf(merging) <= standing
    requires (forall x :: x in merging <==> x in SetOf(merging)) && Wrote(objects, merging, objects', sums, batches)
    ensures InPass(list, objects0, objects', written + sums, replaced + SetOf(merging),
            Replaced(standing, merging, sums))
    ensures SetOf(sums) !! standing && NoRepeats(sums) && SetOf(sums) <= objects'.Keys
  {
    SetAppend(written, sums);
    MergeOnce(standing, objects, merging, objects', sums, batches);
    MergeLocates(standing, objects, merging, objects', sums, batches);
    forall x | x in SetOf(sums) ensures x !in objects && x in objects' {
      var k :| 0 <= k < |sums| && sums[k] == x;
    }
    assert NoRepeats(sums) && forall a :: a in objects ==> a in objects';
    hide Once, Locates, NoRepeats, Wrote, SetOf;
  }

  // The listed objects of a tier: small, of known size, in order.
  ghost function InTier(list: seq<Sum>, sizes: map<Sum, nat>, k: nat): seq<Sum> {
    if list == [] then []
    else
      var sum := list[|list| - 1];
      InTier(list[..|list| - 1], sizes, k) + if sum in sizes && sizes[sum] < SMALL
        && TierOf(sizes[sum]) == k then [sum] else []
  }

  ghost predicate Sorted(list: seq<Sum>, sizes: map<Sum, nat>, tiers: seq<seq<Sum>>) {
    |tiers| == 4 && forall k :: 0 <= k < 4 ==> tiers[k] == InTier(list, sizes, k)
  }

  lemma SortedNext(list: seq<Sum>, n: nat, sizes: map<Sum, nat>, tiers: seq<seq<Sum>>)
    requires n < |list| && Sorted(list[..n], sizes, tiers)
    ensures var sum := list[n];
            if sum in sizes && sizes[sum] < SMALL then TierOf(sizes[sum]) < 4 && |tiers| == 4
              && Sorted(list[..n + 1], sizes, tiers[TierOf(sizes[sum]) := tiers[TierOf(sizes[sum])] + [sum]])
            else Sorted(list[..n + 1], sizes, tiers)
  {
    assert list[..n + 1][..n] == list[..n];
    var sum := list[n];
    if sum in sizes && sizes[sum] < SMALL {
      TierUnder(sizes[sum]);
    }
    forall k | 0 <= k < 4
      ensures InTier(list[..n + 1], sizes, k) == InTier(list[..n], sizes, k)
              + (if sum in sizes && sizes[sum] < SMALL && TierOf(sizes[sum]) == k then [sum] else [])
    {
    }
    hide InTier, TierOf;
    assert forall xs: seq<Sum> {:trigger xs + []} :: xs + [] == xs;
  }

  // The small objects of known size, by tier.
  method TiersOf(list: seq<Sum>, sizes: map<Sum, nat>) returns (tiers: seq<seq<Sum>>)
    requires NoRepeats(list)
    ensures TiersIn(tiers, 0, SetOf(list)) && Sorted(list, sizes, tiers)
  {
    tiers := [[], [], [], []];
    for n := 0 to |list|
      invariant TiersIn(tiers, 0, SetOf(list[..n])) && Sorted(list[..n], sizes, tiers)
    {
      hide *;
      var sum := list[n];
      ListNext(list, n);
      SortedNext(list, n, sizes, tiers);
      if sum in sizes && sizes[sum] < SMALL {
        TierUnder(sizes[sum]);
        TierPush(tiers, 0, SetOf(list[..n]), TierOf(sizes[sum]), sum);
        TiersMean(tiers, 0, SetOf(list[..n]));
        tiers := tiers[TierOf(sizes[sum]) := tiers[TierOf(sizes[sum])] + [sum]];
      } else {
        TiersMore(tiers, 0, SetOf(list[..n]), SetOf(list[..n + 1]));
      }
    }
    assert list[..|list|] == list;
  }

  lemma ListNext(list: seq<Sum>, n: nat)
    requires n < |list| && NoRepeats(list)
    ensures SetOf(list[..n + 1]) == SetOf(list[..n]) + {list[n]} && list[n] !in SetOf(list[..n])
  {
    assert list[..n + 1] == list[..n] + [list[n]];
    SetPush(list[..n], list[n]);
  }

  lemma TierUnder(est: nat)
    requires est < SMALL
    ensures TierOf(est) < TIERS
  {
  }

  lemma TiersMean(tiers: seq<seq<Sum>>, k: nat, standing: set<Sum>)
    requires TiersIn(tiers, k, standing)
    ensures |tiers| == TIERS == 4
    ensures forall j :: k <= j < 4 ==> NoRepeats(tiers[j]) && SetOf(tiers[j]) <= standing
  {
    hide SetOf, NoRepeats;
  }

  // Puts the objects a merge of tier k wrote in the higher tiers they reach.
  method Place(tiers0: seq<seq<Sum>>, k: nat, objects: Objects, sums: seq<Sum>, ghost standing: set<Sum>)
    returns (tiers: seq<seq<Sum>>)
    requires TiersIn(tiers0, k + 1, standing) && NoRepeats(sums) && SetOf(sums) !! standing
             && SetOf(sums) <= objects.Keys
    ensures TiersIn(tiers, k + 1, standing + SetOf(sums)) && Grown(tiers0, tiers)
  {
    hide *;
    tiers := tiers0;
    GrownSame(tiers);
    PlacedNone(sums, standing);
    for m := 0 to |sums|
      invariant TiersIn(tiers, k + 1, standing + SetOf(sums[..m])) && Grown(tiers0, tiers)
    {
      var sum := sums[m];
      ListNext(sums, m);
      InSet(sums, m);
      var est := Size(objects[sum]);
      ghost var here := standing + SetOf(sums[..m]);
      assert standing + SetOf(sums[..m + 1]) == here + {sum};
      if est < SMALL && TierOf(est) > k {
        TierUnder(est);
        TierPush(tiers, k + 1, here, TierOf(est), sum);
        TiersMean(tiers, k + 1, here);
        GrownPush(tiers0, tiers, TierOf(est), sum);
        tiers := tiers[TierOf(est) := tiers[TierOf(est)] + [sum]];
      } else {
        TiersMore(tiers, k + 1, here, here + {sum});
      }
    }
    assert sums[..|sums|] == sums;
  }

  // Tiers only grow at their ends.
  ghost predicate Grown(tiers: seq<seq<Sum>>, tiers': seq<seq<Sum>>) {
    |tiers'| == |tiers| && forall j :: 0 <= j < |tiers| ==> tiers[j] <= tiers'[j]
  }

  lemma GrownSame(tiers: seq<seq<Sum>>)
    ensures Grown(tiers, tiers)
  {
  }

  lemma GrownPush(tiers: seq<seq<Sum>>, tiers': seq<seq<Sum>>, t: nat, sum: Sum)
    requires Grown(tiers, tiers') && t < |tiers'|
    ensures Grown(tiers, tiers'[t := tiers'[t] + [sum]])
  {
  }

  // The full tiers below k were merged, as many of their objects as one merge takes.
  ghost predicate MergedBelow(list: seq<Sum>, sizes: map<Sum, nat>, k: nat, replaced: set<Sum>) {
    forall j :: 0 <= j < k && |InTier(list, sizes, j)| >= FAN_IN ==>
      forall i :: 0 <= i < |InTier(list, sizes, j)| && i < MAX_MERGE ==> InTier(list, sizes, j)[i] in replaced
  }

  ghost predicate TiersHold(list: seq<Sum>, sizes: map<Sum, nat>, tiers: seq<seq<Sum>>) {
    |tiers| == 4 && forall j :: 0 <= j < 4 ==> InTier(list, sizes, j) <= tiers[j]
  }

  lemma HoldStarts(list: seq<Sum>, sizes: map<Sum, nat>, tiers: seq<seq<Sum>>)
    requires Sorted(list, sizes, tiers)
    ensures TiersHold(list, sizes, tiers) && MergedBelow(list, sizes, 0, {})
  {
    hide InTier;
  }

  lemma HoldGrown(list: seq<Sum>, sizes: map<Sum, nat>, tiers: seq<seq<Sum>>, tiers': seq<seq<Sum>>)
    requires TiersHold(list, sizes, tiers) && Grown(tiers, tiers')
    ensures TiersHold(list, sizes, tiers')
  {
    hide InTier;
  }

  lemma MergedNext(list: seq<Sum>, sizes: map<Sum, nat>, tiers: seq<seq<Sum>>, k: nat, replaced: set<Sum>,
                   replaced': set<Sum>)
    requires TiersHold(list, sizes, tiers) && MergedBelow(list, sizes, k, replaced) && k < 4 && replaced <= replaced'
    requires |tiers[k]| >= 8 ==> forall i :: 0 <= i < |tiers[k]| && i < 64 ==> tiers[k][i] in replaced'
    ensures MergedBelow(list, sizes, k + 1, replaced')
  {
    hide InTier;
    forall i | 0 <= i < |InTier(list, sizes, k)| && i < MAX_MERGE
      && |InTier(list, sizes, k)| >= FAN_IN ensures InTier(list, sizes, k)[i] in replaced' {
      assert InTier(list, sizes, k) <= tiers[k];
      assert tiers[k][i] == InTier(list, sizes, k)[i];
    }
  }

  lemma PlacedNone(sums: seq<Sum>, standing: set<Sum>)
    ensures standing + SetOf(sums[..0]) == standing
  {
  }

  lemma InSet(xs: seq<Sum>, m: nat)
    requires m < |xs|
    ensures xs[m] in SetOf(xs)
  {
  }

  method Without(xs: seq<Sum>, gone: set<Sum>) returns (ys: seq<Sum>)
    requires NoRepeats(xs)
    ensures NoRepeats(ys) && SetOf(ys) == SetOf(xs) - gone
  {
    ys := [];
    for n := 0 to |xs|
      invariant NoRepeats(ys) && SetOf(ys) == SetOf(xs[..n]) - gone
    {
      ListNext(xs, n);
      if xs[n] !in gone {
        SetPush(ys, xs[n]);
        ys := ys + [xs[n]];
      }
    }
    assert xs[..|xs|] == xs;
  }

  /** Rewrites the full tiers from the lowest up. Whatever was merged or merged again, the packs located before and
      after are the same, no pack is in two objects, and no object merged away is still listed. */
  method Compact(s: Setup, name: Namer, objects0: Objects, list: seq<Sum>, sizes: map<Sum, nat>)
    returns (out: seq<Sum>, objects: Objects)
    requires NoRepeats(list) && Once(SetOf(list), objects0) && AlwaysNew(name, objects0, 0)
    ensures NoRepeats(out) && Once(SetOf(out), objects) && SameLocated(SetOf(list), objects0, SetOf(out), objects)
    // Nothing that was merged stays listed, and every full tier was merged.
    ensures exists replaced :: MergedBelow(list, sizes, TIERS, replaced) && SetOf(out) !! replaced
  {
    hide *;
    var tiers := TiersOf(list, sizes);
    HoldStarts(list, sizes, tiers);
    objects := objects0;
    var written: seq<Sum>, replaced: set<Sum> := [], {};
    ghost var standing := SetOf(list);
    PassStarts(list, objects0);
    for k := 0 to 4
      invariant AlwaysNew(name, objects, k) && InPass(list, objects0, objects, written, replaced, standing)
                && TiersIn(tiers, k, standing)
      invariant TiersHold(list, sizes, tiers) && MergedBelow(list, sizes, k, replaced)
    {
      ghost var tiers0, replaced0 := tiers, replaced;
      TiersMean(tiers, k, standing);
      if |tiers[k]| >= 8 {
        var merging := tiers[k][..if |tiers[k]| < 64 then |tiers[k]| else 64];
        TakeSome(tiers[k], |merging|);
        InPassOnce(list, objects0, objects, written, replaced, standing, merging);
        var objects', sums := MergeObjects(s, name, k, objects, merging, standing);
        ghost var batches :| Wrote(objects, merging, objects', sums, batches);
        PassOn(list, objects0, objects, written, replaced, standing, merging, objects', sums, batches);
        TiersAfter(tiers, k, standing, merging);
        tiers := Place(tiers, k, objects', sums, standing - SetOf(merging));
        ReplacedIs(standing, merging, sums);
        objects, written := objects', written + sums;
        var gone := set x | x in merging;
        MergedSet(merging, gone);
        replaced := replaced + gone;
        HoldGrown(list, sizes, tiers0, tiers);
        TakenAll(tiers0[k], merging);
        MergedNext(list, sizes, tiers0, k, replaced0, replaced);
        standing := Replaced(standing, merging, sums);
      } else {
        TiersNext(tiers, k, standing);
        NewNext(name, objects, k);
        MergedNext(list, sizes, tiers, k, replaced, replaced);
      }
    }
    InPassMeans(list, objects0, objects, written, replaced, standing);
    var kept := Without(list, replaced);
    var added := Without(written, replaced);
    SetAppend(kept, added);
    assert standing == SetOf(kept) + SetOf(added);
    out := kept + added;
    AllTiers(list, sizes, replaced);
  }

  lemma AllTiers(list: seq<Sum>, sizes: map<Sum, nat>, replaced: set<Sum>)
    requires MergedBelow(list, sizes, 4, replaced)
    ensures MergedBelow(list, sizes, TIERS, replaced)
  {
  }

  lemma TakenAll(tier: seq<Sum>, merging: seq<Sum>)
    requires merging == tier[..if |tier| < 64 then |tier| else 64]
    ensures forall i :: 0 <= i < |tier| && i < 64 ==> tier[i] in merging
  {
    assert forall i :: 0 <= i < |merging| ==> tier[i] == merging[i];
  }

  lemma MergedSet(merging: seq<Sum>, gone: set<Sum>)
    requires forall x :: x in gone <==> x in merging
    ensures gone == SetOf(merging)
  {
    forall x | x in merging ensures x in SetOf(merging) {
      var i :| 0 <= i < |merging| && merging[i] == x;
    }
  }

  lemma ReplacedIs(standing: set<Sum>, merging: seq<Sum>, sums: seq<Sum>)
    ensures Replaced(standing, merging, sums) == standing - SetOf(merging) + SetOf(sums)
  {
  }

  lemma TiersNext(tiers: seq<seq<Sum>>, k: nat, standing: set<Sum>)
    requires TiersIn(tiers, k, standing)
    ensures TiersIn(tiers, k + 1, standing)
  {
    hide SetOf, NoRepeats;
  }

  lemma NewNext(name: Namer, objects: Objects, k: nat)
    requires AlwaysNew(name, objects, k)
    ensures AlwaysNew(name, objects, k + 1)
  {
  }

  lemma PassStarts(list: seq<Sum>, objects: Objects)
    requires NoRepeats(list) && Once(SetOf(list), objects)
    ensures InPass(list, objects, objects, [], {}, SetOf(list))
  {
  }

  lemma InPassMeans(list: seq<Sum>, objects0: Objects, objects: Objects, written: seq<Sum>, replaced: set<Sum>,
                    standing: set<Sum>)
    requires InPass(list, objects0, objects, written, replaced, standing)
    ensures standing == SetOf(list) + SetOf(written) - replaced && Once(standing, objects)
            && SameLocated(SetOf(list), objects0, standing, objects)
    ensures NoRepeats(list) && NoRepeats(written) && SetOf(list) !! SetOf(written)
  {
    hide Once, SameLocated, SetOf, NoRepeats;
  }

  lemma InPassOnce(list: seq<Sum>, objects0: Objects, objects: Objects, written: seq<Sum>, replaced: set<Sum>,
                   standing: set<Sum>, merging: seq<Sum>)
    requires InPass(list, objects0, objects, written, replaced, standing) && SetOf(merging) <= standing && forall x ::
               x in merging <==> x in SetOf(merging)
    ensures Once(standing, objects) && forall a :: a in merging ==> a in standing
  {
    hide Once, SameLocated, NoRepeats, SetOf;
  }
}
