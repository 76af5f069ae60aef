/** A round can start: one setting, manifest and set of index objects that meet everything a round asks for. The same
    round shows a manifest outgrowing what a repository accepts when it is opened. */
module GcStart {
  import opened Basics
  import opened Tables
  import opened GcRound

  /******** Names that never collide ********/

  ghost function Pair(a: nat, b: nat): (r: nat)
    ensures r >= 1
  {
    Grown(a, b);
    Pow2(a) * (2 * b + 1)
  }

  lemma Grown(a: nat, b: nat)
    ensures Pow2(a) * (2 * b + 1) >= 1
  {
    assert Pow2(a) * (2 * b + 1) == Pow2(a) * (2 * b) + Pow2(a);
    assert Pow2(a) * (2 * b) >= 0;
  }

  lemma PairHalves(a: nat, b: nat)
    ensures a > 0 ==> Pair(a, b) == 2 * Pair(a - 1, b)
    ensures a == 0 ==> Pair(a, b) == 2 * b + 1
  {
    if a > 0 {
      var p, q := Pow2(a - 1), 2 * b + 1;
      assert (2 * p) * q == 2 * (p * q);
    }
  }

  lemma {:induction false} PairInjective(a: nat, b: nat, a': nat, b': nat)
    requires Pair(a, b) == Pair(a', b')
    ensures a == a' && b == b'
    decreases a
  {
    PairHalves(a, b);
    PairHalves(a', b');
    hide Pair;
    if a > 0 && a' > 0 {
      PairInjective(a - 1, b, a' - 1, b');
    }
  }

  ghost function EntryCode(e: Entry): nat {
    Pair(e.hash, Pair(e.len, e.offset))
  }

  lemma EntryInjective(e: Entry, f: Entry)
    requires EntryCode(e) == EntryCode(f)
    ensures e == f
  {
    PairInjective(e.hash, Pair(e.len, e.offset), f.hash, Pair(f.len, f.offset));
    PairInjective(e.len, e.offset, f.len, f.offset);
  }

  ghost function EntriesCode(es: seq<Entry>): nat {
    if es == [] then 0 else Pair(EntryCode(es[0]), EntriesCode(es[1..]))
  }

  lemma {:induction false} EntriesInjective(es: seq<Entry>, fs: seq<Entry>)
    requires EntriesCode(es) == EntriesCode(fs)
    ensures es == fs
  {
    if es != [] && fs != [] {
      PairInjective(EntryCode(es[0]), EntriesCode(es[1..]), EntryCode(fs[0]), EntriesCode(fs[1..]));
      EntryInjective(es[0], fs[0]);
      EntriesInjective(es[1..], fs[1..]);
      assert es == [es[0]] + es[1..] && fs == [fs[0]] + fs[1..];
    }
  }

  ghost function PackCode(p: Info): nat {
    Pair(p.name, Pair(p.size, EntriesCode(p.entries)))
  }

  lemma PackInjective(p: Info, q: Info)
    requires PackCode(p) == PackCode(q)
    ensures p == q
  {
    PairInjective(p.name, Pair(p.size, EntriesCode(p.entries)), q.name, Pair(q.size, EntriesCode(q.entries)));
    PairInjective(p.size, EntriesCode(p.entries), q.size, EntriesCode(q.entries));
    EntriesInjective(p.entries, q.entries);
  }

  ghost function BatchCode(ps: seq<Info>): (r: nat)
    ensures r >= 1
  {
    if ps == [] then 1 else 1 + Pair(PackCode(ps[0]), BatchCode(ps[1..]))
  }

  lemma {:induction false} BatchInjective(ps: seq<Info>, qs: seq<Info>)
    requires BatchCode(ps) == BatchCode(qs)
    ensures ps == qs
  {
    if ps != [] && qs != [] {
      PairInjective(PackCode(ps[0]), BatchCode(ps[1..]), PackCode(qs[0]), BatchCode(qs[1..]));
      PackInjective(ps[0], qs[0]);
      BatchInjective(ps[1..], qs[1..]);
      assert ps == [ps[0]] + ps[1..] && qs == [qs[0]] + qs[1..];
    }
  }

  /******** Sealing ********/

  // Entries in hash order, each hash once.
  ghost function Insert(es: seq<Entry>, e: Entry): seq<Entry> {
    if es == [] || e.hash < es[0].hash then [e] + es
    else if e.hash == es[0].hash then es
    else [es[0]] + Insert(es[1..], e)
  }

  ghost predicate Ordered(es: seq<Entry>) {
    forall i, j :: 0 <= i < j < |es| ==> es[i].hash < es[j].hash
  }

  lemma {:induction false} Inserts(es: seq<Entry>, e: Entry, h: Hash)
    ensures Holding(Insert(es, e), h) <==> Holding(es, h) || e.hash == h
  {
    if es == [] || e.hash < es[0].hash {
      HoldingAppend([e], es, h);
      assert [e][0] == e;
    } else if e.hash == es[0].hash {
    } else {
      Inserts(es[1..], e, h);
      HoldingAppend([es[0]], Insert(es[1..], e), h);
      HoldingAppend([es[0]], es[1..], h);
      assert [es[0]] + es[1..] == es;
    }
  }

  lemma {:induction false} InsertOrdered(es: seq<Entry>, e: Entry)
    requires Ordered(es)
    ensures Ordered(Insert(es, e))
  {
    if es != [] && e.hash > es[0].hash {
      InsertOrdered(es[1..], e);
      var more := Insert(es[1..], e);
      forall j | 0 <= j < |more| ensures es[0].hash < more[j].hash {
        Inserts(es[1..], e, more[j].hash);
      }
    }
  }

  ghost function InOrder(es: seq<Entry>): seq<Entry> {
    if es == [] then [] else Insert(InOrder(es[1..]), es[0])
  }

  lemma {:induction false} InOrderHolds(es: seq<Entry>, h: Hash)
    ensures Holding(InOrder(es), h) <==> Holding(es, h)
  {
    if es != [] {
      InOrderHolds(es[1..], h);
      Inserts(InOrder(es[1..]), es[0], h);
      HoldingAppend([es[0]], es[1..], h);
      assert [es[0]] + es[1..] == es && [es[0]][0] == es[0];
    }
  }

  lemma {:induction false} InOrderOrdered(es: seq<Entry>)
    ensures Ordered(InOrder(es))
  {
    if es != [] {
      InOrderOrdered(es[1..]);
      InsertOrdered(InOrder(es[1..]), es[0]);
    }
  }

  ghost function Example(): Setup {
    Setup(es => Info(1, 1, InOrder(es)), (es, e) => false, ps => 1 + BatchCode(ps), 1, 1)
  }

  lemma ExampleSeals()
    ensures Example().Seals() && Example().TakesFirst() && Injective(Example())
  {
    var s := Example();
    forall es: seq<Entry> ensures WellFormed(s.seal(es)) && forall h :: Has(s.seal(es), h) <==> Holding(es, h) {
      InOrderOrdered(es);
      forall h ensures Has(s.seal(es), h) <==> Holding(es, h) {
        InOrderHolds(es, h);
      }
    }
    forall a, b: seq<Info> | s.encode(a) == s.encode(b) ensures a == b {
      BatchInjective(a, b);
    }
  }

  /******** One round ********/

  // A live chunk in one pack, and a dead one in a pack condemned at time 0.
  const CHUNK := Entry(7, 1, 40)
  const PACK := Info(0, 1, [CHUNK])
  const DEAD_CHUNK := Entry(9, 1, 40)
  const DEAD := Info(2, 1, [DEAD_CHUNK])
  const OBJECTS: Objects := map[0 := [PACK], 1 := [DEAD]]

  // As many records as may be: what other rounds deleted, all of them recent, and the condemned pack.
  ghost function Deleted(n: nat): (r: seq<Condemned>)
    ensures |r| == n && forall c :: c in r ==> c.kind == DeletedPack && c.at == 1
  {
    if n == 0 then [] else Deleted(n - 1) + [Condemned(DeletedPack, n + 2, 1)]
  }

  ghost const LEDGER := Deleted(MAX_CONDEMNED - 1) + [Condemned(CondemnedPack, 2, 0)]
  ghost const MANIFEST := Manifest(7, [0, 1], LEDGER, 0, 0)
  const TABLE := Table([Record(7, Loc(0, 1)), Record(9, Loc(1, 1))], [7], [7])

  lemma OnlyPacks(p: Info)
    ensures Lists([0, 1], OBJECTS, p) <==> p == PACK || p == DEAD
  {
    assert PACK in OBJECTS[0] && 0 in [0, 1] && DEAD in OBJECTS[1] && 1 in [0, 1];
  }

  lemma LedgerHas(c: Condemned)
    ensures c in LEDGER ==> c == Condemned(CondemnedPack, 2, 0) || (c.kind == DeletedPack && c.at == 1)
    ensures Condemned(CondemnedPack, 2, 0) in LEDGER && |LEDGER| == MAX_CONDEMNED
  {
    assert LEDGER[MAX_CONDEMNED - 1] == Condemned(CondemnedPack, 2, 0);
  }

  lemma ExampleLoaded()
    ensures Loaded(MANIFEST, OBJECTS, [PACK, DEAD])
  {
    hide Lists, Deleted;
    forall p ensures Lists(MANIFEST.indexes, OBJECTS, p) <==> p == PACK || p == DEAD {
      OnlyPacks(p);
    }
    assert [PACK, DEAD][0].name == 0 && [PACK, DEAD][1].name == 2;
    forall c | c in MANIFEST.condemned && c.kind in {CondemnedPack, RepackedPack} ensures c.sum == 2 {
      LedgerHas(c);
    }
  }

  lemma ExampleTable()
    ensures TABLE.Valid() && SameFirsts(TABLE.records, PackRecords([PACK, DEAD]))
  {
    assert EntryRecords(0, [CHUNK][..0]) == [] && EntryRecords(1, [DEAD_CHUNK][..0]) == [];
    assert [PACK, DEAD][..1] == [PACK] && PackRecords([PACK][..0]) == [];
    assert PackRecords([PACK]) == [Record(7, Loc(0, 1))];
    assert PackRecords([PACK, DEAD]) == TABLE.records;
    hide PackRecords, First;
  }

  lemma ExampleObjects()
    ensures SamePacks(OBJECTS) && AllWellFormed(OBJECTS) && forall a :: a in MANIFEST.indexes ==> a in OBJECTS
  {
    hide Deleted;
    assert OBJECTS.Keys == {0, 1} && OBJECTS[0] == [PACK] && OBJECTS[1] == [DEAD];
  }

  lemma ExampleTidy()
    ensures Tidy(MANIFEST)
  {
    hide Deleted;
    forall c | c in MANIFEST.condemned ensures c.kind != CondemnedIndex {
      LedgerHas(c);
    }
  }

  lemma ExampleNames()
    ensures NewNames(Example(), MANIFEST, OBJECTS)
  {
    ExampleSeals();
    hide Injective, Lists, Deleted;
    forall p | Lists(MANIFEST.indexes, OBJECTS, p) ensures p.name in {0, 2} {
      OnlyPacks(p);
    }
    forall c | c in MANIFEST.condemned ensures c.kind != CondemnedIndex {
      LedgerHas(c);
    }
  }

  lemma ExampleBegun()
    ensures Begun(Example(), MANIFEST, OBJECTS, [PACK, DEAD], TABLE, [7])
  {
    ExampleLoaded();
    ExampleTable();
    ExampleObjects();
    ExampleTidy();
    ExampleNames();
    ExampleSeals();
    hide Loaded, NewNames, SamePacks, AllWellFormed, Tidy, SameFirsts, PackRecords, Table.Valid, Setup.Seals,
      Setup.TakesFirst, Example;
  }

  /** A round over a live pack and a dead one has everything it asks for. */
  lemma RoundCanStart()
    ensures exists s, man, objects, packs, t, live ::
              Begun(s, man, objects, packs, t, live) && live != [] && man.root in live
  {
    ExampleBegun();
    hide Begun;
    assert Begun(Example(), MANIFEST, OBJECTS, [PACK, DEAD], TABLE, [7]);
  }

  /******** Too many records ********/

  lemma {:induction false} DeletedStay(s: Setup, n: nat)
    requires s.grace + s.recheck > 0
    ensures StaysOf(s, 1, Deleted(n)) == Deleted(n)
  {
    if n > 0 {
      DeletedStay(s, n - 1);
      assert Deleted(n)[..n - 1] == Deleted(n - 1);
    }
  }

  lemma LedgerStays()
    ensures |StaysOf(Example(), 1, LEDGER)| == MAX_CONDEMNED - 1
  {
    DeletedStay(Example(), MAX_CONDEMNED - 1);
    assert LEDGER[..MAX_CONDEMNED - 1] == Deleted(MAX_CONDEMNED - 1);
    hide Deleted;
  }

  lemma NoneLiveInDead(count: seq<nat>, frames: seq<nat>)
    requires CountsLive(TABLE.records, [7], count, frames) && |count| == 2
    ensures count[1] == 0
  {
    LiveInSome(TABLE.records, [7], 1);
  }

  lemma DeadDies(c: Case)
    requires c.at == 1 && CaseOf(Example(), MANIFEST, OBJECTS, [PACK, DEAD], TABLE, [7], c)
    ensures c.Dies(1) && |c.l.next| == MAX_CONDEMNED - 1
  {
    LedgerStays();
    NoneLiveInDead(c.count, c.frames);
    assert Since(LEDGER, CondemnedPack, c.l.packs) && Since(LEDGER, RepackedPack, c.l.repacked);
    hide CountsLive, StaysOf, Lists, WellFormed, Deleted;
    LedgerHas(Condemned(CondemnedPack, 2, 0));
    assert 2 in c.l.packs;
    LedgerHas(Condemned(CondemnedPack, 2, c.l.packs[2]));
    if 2 in c.l.repacked {
      LedgerHas(Condemned(RepackedPack, 2, c.l.repacked[2]));
    }
  }

  /** A full manifest, which can be opened, and a round that drops one condemned pack: the manifest it puts in place
      records both replaced index objects, and cannot be opened again. */
  lemma LedgerOverflows(c: Case, p: Plan, o: Outcome)
    requires Executes(Example(), MANIFEST, OBJECTS, [PACK, DEAD], TABLE, [7], 1, c, p, o)
    ensures Reopens(MANIFEST) && o.swapped && !Reopens(o.man)
  {
    LedgerHas(Condemned(CondemnedPack, 2, 0));
    ExecutesMeans(Example(), MANIFEST, OBJECTS, [PACK, DEAD], TABLE, [7], 1, c, p, o);
    DeadDies(c);
    hide Executes, CaseOf, KeptRight, Deleted, Case.Dies;
    assert c.packs == [PACK, DEAD] by {
      CasePacks(Example(), MANIFEST, OBJECTS, [PACK, DEAD], TABLE, [7], c);
    }
    DeadExpires(c, p);
    assert PackObject(2) in o.expired;
  }

  lemma CasePacks(s: Setup, man: Manifest, objects: Objects, packs: seq<Info>, t: Table<Loc>, live: seq<Hash>, c: Case)
    requires CaseOf(s, man, objects, packs, t, live, c)
    ensures c.packs == packs
  {
  }

  lemma ExecutesMeans(s: Setup, man: Manifest, objects: Objects, packs: seq<Info>, t: Table<Loc>, live: seq<Hash>,
                      at: int, c: Case, p: Plan, o: Outcome)
    requires Executes(s, man, objects, packs, t, live, at, c, p, o)
    ensures c.at == at && CaseOf(s, man, objects, packs, t, live, c) && c.Valid() && KeptRight(c, |c.packs|, p)
    ensures c.l.next <= p.next && (o.swapped ==> Ledgered(p, man, o)) && (!o.swapped ==> o.expired == [])
    ensures forall name :: name in p.expired ==> PackObject(name) in o.expired
  {
    hide CaseOf, KeptRight, Ledgered;
  }

  lemma DeadExpires(c: Case, p: Plan)
    requires c.Valid() && KeptRight(c, |c.packs|, p) && c.packs == [PACK, DEAD] && c.Dies(1)
    ensures 2 in p.expired
  {
    assert c.packs[1].name == 2;
  }
}
