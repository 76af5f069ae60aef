/** One collection round: every listed pack's chunks indexed, the live ones counted against it, and packs
    condemned, reprieved, expired and repacked in a manifest swapped against the one read. */
module GcRound {
  import opened Basics
  import opened Tables

  type Name = nat
  type Sum = nat

  const MAX_CONDEMNED := 100_000

  datatype Entry = Entry(hash: Hash, len: nat, offset: nat)

  datatype Info = Info(name: Name, size: nat, entries: seq<Entry>)

  datatype Kind = CondemnedPack | RepackedPack | CondemnedIndex | DeletedPack | DeletedIndex

  datatype Condemned = Condemned(kind: Kind, sum: nat, at: int)

  datatype Manifest = Manifest(root: Hash, indexes: seq<Sum>, condemned: seq<Condemned>, seqNo: nat, gcGen: nat)

  // The index objects in the backend, by what each lists.
  type Objects = map<Sum, seq<Info>>

  // Where the round's table says a chunk is.
  datatype Loc = Loc(pack: nat, len: nat)

  ghost predicate Has(p: Info, h: Hash) {
    exists e :: e in p.entries && e.hash == h
  }

  // A size, and entries that ascend by hash, as an index object's decoder demands.
  ghost predicate WellFormed(p: Info) {
    p.size > 0 && forall i, j :: 0 <= i < j < |p.entries| ==> p.entries[i].hash < p.entries[j].hash
  }

  ghost predicate Distinct(packs: seq<Info>) {
    forall i, j :: 0 <= i < j < |packs| ==> packs[i].name != packs[j].name
  }

  // A pack is named by its bytes: wherever it is listed, it is the same.
  ghost predicate SamePacks(objects: Objects) {
    forall a, b, p, q ::
      a in objects && b in objects && p in objects[a] && q in objects[b] && p.name == q.name ==> p == q
  }

  ghost predicate AllWellFormed(objects: Objects) {
    forall a, p :: a in objects && p in objects[a] ==> WellFormed(p)
  }

  // Some listed index object lists the pack.
  ghost predicate Lists(indexes: seq<Sum>, objects: Objects, p: Info) {
    exists a :: a in indexes && a in objects && p in objects[a]
  }

  predicate Marked(man: Manifest, name: Name, kind: Kind) {
    exists c :: c in man.condemned && c.kind == kind && c.sum == name
  }

  predicate OutOfService(man: Manifest, name: Name) {
    Marked(man, name, CondemnedPack) || Marked(man, name, RepackedPack)
  }

  /******** Loading ********/

  ghost function EntryRecords(i: nat, es: seq<Entry>): seq<Record<Loc>> {
    if es == [] then [] else EntryRecords(i, es[..|es| - 1]) + [Record(es[|es| - 1].hash, Loc(i, es[|es| - 1].len))]
  }

  ghost function PackRecords(packs: seq<Info>): seq<Record<Loc>> {
    if packs == [] then []
    else PackRecords(packs[..|packs| - 1]) + EntryRecords(|packs| - 1, packs[|packs| - 1].entries)
  }

  lemma {:induction false} EntryFirst(i: nat, es: seq<Entry>, h: Hash)
    ensures First(EntryRecords(i, es), h).Some? <==> exists e :: e in es && e.hash == h
    ensures First(EntryRecords(i, es), h).Some? ==> First(EntryRecords(i, es), h).value.pack == i
    decreases |es|
  {
    if es != [] {
      var init, e := es[..|es| - 1], es[|es| - 1];
      EntryFirst(i, init, h);
      var r := Record(e.hash, Loc(i, e.len));
      FirstAppend(EntryRecords(i, init), [r], h);
      assert First([r], h) == if e.hash == h then Some(r.val) else First([r][1..], h);
      assert es == init + [e];
    }
  }

  // A chunk is credited to the first pack that holds it.
  lemma {:induction false} CreditIs(packs: seq<Info>, h: Hash)
    ensures First(PackRecords(packs), h).Some? <==> exists i :: 0 <= i < |packs| && Has(packs[i], h)
    ensures First(PackRecords(packs), h).Some? ==>
              var i := First(PackRecords(packs), h).value.pack;
                i < |packs| && Has(packs[i], h) && forall j :: 0 <= j < i ==> !Has(packs[j], h)
    decreases |packs|
  {
    if packs != [] {
      var init, p := packs[..|packs| - 1], packs[|packs| - 1];
      CreditIs(init, h);
      EntryFirst(|packs| - 1, p.entries, h);
      FirstAppend(PackRecords(init), EntryRecords(|packs| - 1, p.entries), h);
      assert forall i :: 0 <= i < |init| ==> init[i] == packs[i];
      hide Has;
    }
  }

  ghost predicate Named(packs: seq<Info>, name: Name) {
    exists i :: 0 <= i < |packs| && packs[i].name == name
  }

  // In service first: nothing out of service comes before a pack in service.
  ghost predicate ServiceFirst(man: Manifest, packs: seq<Info>) {
    forall i, j :: 0 <= i < j < |packs| && OutOfService(man, packs[i].name) ==> OutOfService(man, packs[j].name)
  }

  // What a round has loaded: packs listed by the manifest, each name once.
  ghost predicate Loading(man: Manifest, objects: Objects, packs: seq<Info>) {
    && Distinct(packs) && ServiceFirst(man, packs)
    && forall i :: 0 <= i < |packs| ==> Lists(man.indexes, objects, packs[i])
  }

  lemma LoadingPush(man: Manifest, objects: Objects, packs: seq<Info>, p: Info)
    requires Loading(man, objects, packs) && !Named(packs, p.name) && Lists(man.indexes, objects, p)
    requires OutOfService(man, p.name) || forall i :: 0 <= i < |packs| ==> !OutOfService(man, packs[i].name)
    ensures Loading(man, objects, packs + [p])
  {
    hide OutOfService, Lists;
  }

  lemma NamedPush(packs: seq<Info>, p: Info, name: Name)
    ensures Named(packs + [p], name) <==> Named(packs, name) || p.name == name
  {
    if Named(packs, name) {
      var i :| 0 <= i < |packs| && packs[i].name == name;
      assert (packs + [p])[i] == packs[i];
    }
    assert (packs + [p])[|packs|] == p;
  }

  // Indexes one pack's chunks.
  method IndexPack(b: Builder<Loc>, packs: seq<Info>, p: Info)
    requires b.Valid() && b.added == PackRecords(packs)
    modifies b
    ensures b.Valid() && b.added == PackRecords(packs + [p])
  {
    hide Builder.Valid;
    ghost var was := PackRecords(packs);
    assert was + [] == was;
    for n := 0 to |p.entries|
      invariant b.Valid() && b.added == was + EntryRecords(|packs|, p.entries[..n])
    {
      var e := p.entries[n];
      b.Add(e.hash, Loc(|packs|, e.len));
      assert p.entries[..n + 1][..n] == p.entries[..n];
      AppendAssoc(was, EntryRecords(|packs|, p.entries[..n]), [Record(e.hash, Loc(|packs|, e.len))]);
    }
    assert p.entries[..|p.entries|] == p.entries;
    assert (packs + [p])[..|packs|] == packs;
  }

  // The packs of one index object that are in service and new, then with late those that are not.
  method LoadObject(b: Builder<Loc>, man: Manifest, objects: Objects, sum: Sum, packs0: seq<Info>, late: bool)
    returns (packs: seq<Info>, outOfService: bool)
    requires b.Valid() && b.added == PackRecords(packs0) && Loading(man, objects, packs0) && sum in man.indexes
             && sum in objects
    requires !late ==> forall i :: 0 <= i < |packs0| ==> !OutOfService(man, packs0[i].name)
    requires late ==> forall p :: p in objects[sum] && !OutOfService(man, p.name) ==> Named(packs0, p.name)
    modifies b
    ensures b.Valid() && b.added == PackRecords(packs) && Loading(man, objects, packs)
    ensures !late ==> forall i :: 0 <= i < |packs| ==> !OutOfService(man, packs[i].name)
    ensures forall name :: Named(packs0, name) ==> Named(packs, name)
    ensures forall p ::
              p in objects[sum] ==> Named(packs, p.name) || (!late && OutOfService(man, p.name) && outOfService)
  {
    hide *;
    packs, outOfService := packs0, false;
    var infos := objects[sum];
    for n := 0 to |infos|
      invariant b.Valid() && b.added == PackRecords(packs) && Loading(man, objects, packs)
      invariant !late ==> forall i :: 0 <= i < |packs| ==> !OutOfService(man, packs[i].name)
      invariant forall name :: Named(packs0, name) ==> Named(packs, name)
      invariant forall p ::
                  p in infos[..n] ==> Named(packs, p.name) || (!late && OutOfService(man, p.name) && outOfService)
    {
      var p := infos[n];
      assert infos[..n + 1] == infos[..n] + [p];
      var seen := Seen(packs, p.name);
      if !seen {
        if !late && OutOfService(man, p.name) {
          outOfService := true;
        } else {
          ListsIs(man.indexes, objects, sum, p);
          LoadingPush(man, objects, packs, p);
          IndexPack(b, packs, p);
          forall name ensures Named(packs + [p], name) <==> Named(packs, name) || p.name == name {
            NamedPush(packs, p, name);
          }
          packs := packs + [p];
        }
      }
    }
    assert infos[..|infos|] == infos;
  }

  lemma ListsIs(indexes: seq<Sum>, objects: Objects, sum: Sum, p: Info)
    requires sum in indexes && sum in objects && p in objects[sum]
    ensures Lists(indexes, objects, p)
  {
  }

  method Seen(packs: seq<Info>, name: Name) returns (seen: bool)
    ensures seen <==> Named(packs, name)
  {
    for n := 0 to |packs|
      invariant forall i :: 0 <= i < n ==> packs[i].name != name
    {
      if packs[n].name == name {
        return true;
      }
    }
    seen := false;
  }

  // Every pack the manifest lists is loaded.
  ghost predicate Loaded(man: Manifest, objects: Objects, packs: seq<Info>) {
    Loading(man, objects, packs) && forall p :: Lists(man.indexes, objects, p) ==> Named(packs, p.name)
  }

  /** The table of every chunk listed, crediting each to the first pack in service that holds it, and to a pack
      leaving service only when no pack in service does. */
  method Load(man: Manifest, objects: Objects) returns (r: Option<(seq<Info>, Table<Loc>)>)
    ensures r.None? <==> exists a :: a in man.indexes && a !in objects
    ensures r.Some? ==>
              Loaded(man, objects, r.value.0) && r.value.1.Valid()
                && SameFirsts(r.value.1.records, PackRecords(r.value.0))
  {
    hide *;
    var b := new Builder<Loc>(0x8_0000);
    var packs: seq<Info>, later: seq<Sum> := [], [];
    LoadStarts(man, objects);
    for n := 0 to |man.indexes|
      invariant b.Valid() && fresh(b) && b.added == PackRecords(packs) && Loading(man, objects, packs)
      invariant forall i :: 0 <= i < |packs| ==> !OutOfService(man, packs[i].name)
      invariant forall a :: a in man.indexes[..n] ==> a in objects
      invariant forall a, p ::
                  a in man.indexes[..n] && p in objects[a] ==>
                    Named(packs, p.name) || (a in later && OutOfService(man, p.name))
      invariant forall a :: a in later ==> a in man.indexes && a in objects
    {
      var sum := man.indexes[n];
      assert man.indexes[..n + 1] == man.indexes[..n] + [sum];
      if sum !in objects {
        return None;
      }
      var outOfService;
      packs, outOfService := LoadObject(b, man, objects, sum, packs, false);
      if outOfService {
        later := later + [sum];
      }
    }
    assert man.indexes[..|man.indexes|] == man.indexes;
    for n := 0 to |later|
      invariant b.Valid() && fresh(b) && b.added == PackRecords(packs) && Loading(man, objects, packs)
      invariant forall a, p ::
                  a in man.indexes && p in objects[a] ==>
                    Named(packs, p.name) || (a in later[n..] && OutOfService(man, p.name))
    {
      var sum := later[n];
      assert later[n..] == [sum] + later[n + 1..];
      var outOfService;
      packs, outOfService := LoadObject(b, man, objects, sum, packs, true);
    }
    LoadEnds(man, objects, packs);
    var t := b.Finish();
    r := Some((packs, t));
  }

  lemma LoadStarts(man: Manifest, objects: Objects)
    ensures PackRecords([]) == [] && Loading(man, objects, [])
  {
  }

  lemma LoadEnds(man: Manifest, objects: Objects, packs: seq<Info>)
    requires Loading(man, objects, packs) && forall a :: a in man.indexes ==> a in objects
    requires forall a, p :: a in man.indexes && p in objects[a] ==> Named(packs, p.name)
    ensures Loaded(man, objects, packs)
  {
    hide Loading, Named;
  }

  /******** Counting what is live ********/

  ghost predicate CreditedTo(recs: seq<Record<Loc>>, h: Hash, i: nat) {
    First(recs, h).Some? && First(recs, h).value.pack == i
  }

  // How many of the live chunks a pack is credited with, and their bytes.
  ghost function LiveIn(recs: seq<Record<Loc>>, live: seq<Hash>, i: nat): nat {
    if live == [] then 0
    else LiveIn(recs, live[..|live| - 1], i) + (if CreditedTo(recs, live[|live| - 1], i) then 1 else 0)
  }

  ghost function LiveBytes(recs: seq<Record<Loc>>, live: seq<Hash>, i: nat): nat {
    if live == [] then 0
    else LiveBytes(recs, live[..|live| - 1], i)
         + (if CreditedTo(recs, live[|live| - 1], i) then First(recs, live[|live| - 1]).value.len else 0)
  }

  lemma {:induction false} LiveInSome(recs: seq<Record<Loc>>, live: seq<Hash>, i: nat)
    ensures LiveIn(recs, live, i) > 0 <==> exists h :: h in live && CreditedTo(recs, h, i)
    decreases |live|
  {
    if live != [] {
      var init, h := live[..|live| - 1], live[|live| - 1];
      LiveInSome(recs, init, i);
      assert live == init + [h];
    }
  }

  ghost predicate SortedHashes(live: seq<Hash>) {
    forall i, j :: 0 <= i < j < |live| ==> live[i] < live[j]
  }

  // Every record passed is under every live chunk still to come.
  ghost predicate Passed(recs: seq<Record<Loc>>, p: nat, live: seq<Hash>, n: nat) {
    p <= |recs| && n <= |live| && forall q, m :: 0 <= q < p && n <= m < |live| ==> recs[q].key < live[m]
  }

  lemma FoundAt(recs: seq<Record<Loc>>, p: nat, live: seq<Hash>, n: nat)
    requires Ascending(recs) && SortedHashes(live) && Passed(recs, p, live, n) && n < |live|
    requires p < |recs| ==> live[n] <= recs[p].key
    ensures p < |recs| && recs[p].key == live[n] ==>
              First(recs, live[n]) == Some(recs[p].val) && Passed(recs, p + 1, live, n + 1)
    ensures p == |recs| || recs[p].key != live[n] ==> First(recs, live[n]).None?
    ensures Passed(recs, p, live, n + 1)
  {
    FirstNone(recs, live[n]);
    if p < |recs| && recs[p].key == live[n] {
      FirstSorted(recs, p);
    } else if p < |recs| {
      assert forall q :: p < q < |recs| ==> recs[p].key < recs[q].key;
    }
  }

  lemma LivePush(recs: seq<Record<Loc>>, live: seq<Hash>, n: nat, i: nat)
    requires n < |live|
    ensures LiveIn(recs, live[..n + 1], i) == LiveIn(recs, live[..n], i)
            + (if CreditedTo(recs, live[n], i) then 1 else 0)
    ensures LiveBytes(recs, live[..n + 1], i) ==
            LiveBytes(recs, live[..n], i) + (if CreditedTo(recs, live[n], i) then First(recs, live[n]).value.len else 0)
  {
    assert live[..n + 1][..n] == live[..n];
  }

  ghost predicate CountsLive(recs: seq<Record<Loc>>, live: seq<Hash>, count: seq<nat>, frames: seq<nat>) {
    |count| == |frames| && forall i ::
      0 <= i < |count| ==> count[i] == LiveIn(recs, live, i) && frames[i] == LiveBytes(recs, live, i)
  }

  lemma CountStep(recs: seq<Record<Loc>>, live: seq<Hash>, n: nat, count: seq<nat>, frames: seq<nat>)
    requires n < |live| && CountsLive(recs, live[..n], count, frames)
    ensures First(recs, live[n]).None? ==> CountsLive(recs, live[..n + 1], count, frames)
    ensures First(recs, live[n]).Some? && First(recs, live[n]).value.pack < |count| ==>
              var l := First(recs, live[n]).value;
              CountsLive(recs, live[..n + 1], count[l.pack := count[l.pack] + 1],
                         frames[l.pack := frames[l.pack] + l.len])
  {
    hide LiveIn, LiveBytes, First;
    forall i | 0 <= i < |count|
      ensures LiveIn(recs, live[..n + 1], i) == LiveIn(recs, live[..n], i)
              + (if CreditedTo(recs, live[n], i) then 1 else 0)
      ensures LiveBytes(recs, live[..n + 1], i) ==
              LiveBytes(recs, live[..n], i) + (if CreditedTo(recs, live[n], i) then First(recs, live[n]).value.len
                                               else 0)
    {
      LivePush(recs, live, n, i);
    }
  }

  /** For each pack, how many live chunks are credited to it and how many bytes their frames take. It fails only
      when a live chunk is credited to a pack that is not listed. */
  method Join(packs: nat, t: Table<Loc>, live: seq<Hash>) returns (count: array<nat>, frames: array<nat>, ok: bool)
    requires t.Valid() && SortedHashes(live)
    ensures fresh(count) && fresh(frames) && count.Length == frames.Length == packs
    ensures ok ==> CountsLive(t.records, live, count[..], frames[..])
    ensures !ok ==> exists h :: h in live && First(t.records, h).Some? && First(t.records, h).value.pack >= packs
  {
    var recs := t.records;
    assert Ascending(recs);
    count, frames := new nat[packs](i => 0), new nat[packs](i => 0);
    var p := 0;
    assert live[..0] == [];
    assert CountsLive(recs, live[..0], count[..], frames[..]);
    hide *;
    PassedStarts(recs, live);
    for n := 0 to |live|
      invariant Passed(recs, p, live, n) && p <= |recs| && CountsLive(recs, live[..n], count[..], frames[..])
    {
      while p < |recs| && recs[p].key < live[n]
        invariant Passed(recs, p, live, n) && p <= |recs| && CountsLive(recs, live[..n], count[..], frames[..])
      {
        PassedOn(recs, p, live, n);
        p := p + 1;
      }
      FoundAt(recs, p, live, n);
      CountStep(recs, live, n, count[..], frames[..]);
      if p < |recs| && recs[p].key == live[n] {
        var l := recs[p].val;
        if l.pack >= packs {
          return count, frames, false;
        }
        ghost var c, f := count[..], frames[..];
        count[l.pack] := count[l.pack] + 1;
        frames[l.pack] := frames[l.pack] + l.len;
        assert count[..] == c[l.pack := c[l.pack] + 1] && frames[..] == f[l.pack := f[l.pack] + l.len];
        p := p + 1;
      }
    }
    assert live[..|live|] == live;
    ok := true;
  }

  lemma PassedStarts(recs: seq<Record<Loc>>, live: seq<Hash>)
    ensures Passed(recs, 0, live, 0)
  {
  }

  lemma PassedOn(recs: seq<Record<Loc>>, p: nat, live: seq<Hash>, n: nat)
    requires Passed(recs, p, live, n) && n < |live| && p < |recs| && recs[p].key < live[n] && SortedHashes(live)
    ensures Passed(recs, p + 1, live, n)
  {
  }

  /******** Repacking ********/

  /** A pack worth repacking: its place among the packs, its live share and its live bytes. */
  datatype Candidate = Candidate(i: nat, share: real, live: nat)

  /** How a pack is sealed from its entries, when it is full, and how index objects are named. */
  datatype Setup = Setup(seal: seq<Entry> -> Info, full: (seq<Entry>, Entry) -> bool, encode: seq<Info> -> Sum,
                         grace: nat, recheck: nat)
  {
    // A sealed pack holds what was added to it.
    ghost predicate Seals() {
      forall es: seq<Entry> :: WellFormed(seal(es)) && forall h :: Has(seal(es), h) <==> Holding(es, h)
    }

    // An empty pack takes any chunk.
    ghost predicate TakesFirst() {
      forall e :: !full([], e)
    }
  }

  ghost predicate Holding(es: seq<Entry>, h: Hash) {
    exists i :: 0 <= i < |es| && es[i].hash == h
  }

  ghost predicate OneEach(es: seq<Entry>) {
    forall i, j :: 0 <= i < j < |es| ==> es[i].hash != es[j].hash
  }

  ghost predicate ByOffset(es: seq<Entry>) {
    forall i, j :: 0 <= i < j < |es| ==> es[i].offset <= es[j].offset
  }

  // Sorted by offset.
  method SortByOffset(es: seq<Entry>) returns (out: seq<Entry>)
    requires OneEach(es)
    ensures ByOffset(out) && OneEach(out) && |out| == |es| && forall e :: e in out <==> e in es
  {
    out := [];
    for n := 0 to |es|
      invariant ByOffset(out) && OneEach(out) && |out| == n && forall e :: e in out <==> e in es[..n]
    {
      var e, i := es[n], |out|;
      while i > 0 && e.offset < out[i - 1].offset
        invariant 0 <= i <= |out| && forall j :: i <= j < |out| ==> e.offset < out[j].offset
      {
        i := i - 1;
      }
      forall j | 0 <= j < |out| ensures out[j].hash != e.hash {
        assert out[j] in es[..n];
      }
      OffsetInsert(out, e, i);
      out := out[..i] + [e] + out[i..];
      assert es[..n + 1] == es[..n] + [e];
    }
    assert es[..|es|] == es;
  }

  lemma OffsetInsert(es: seq<Entry>, e: Entry, i: nat)
    requires ByOffset(es) && OneEach(es) && i <= |es| && (i > 0 ==> es[i - 1].offset <= e.offset)
    requires forall j :: i <= j < |es| ==> e.offset < es[j].offset
    requires forall j :: 0 <= j < |es| ==> es[j].hash != e.hash
    ensures var out := es[..i] + [e] + es[i..];
            ByOffset(out) && OneEach(out) && forall x :: x in out <==> x in es || x == e
  {
    InsertedIn(es, i, e);
    OffsetOrder(es, e, i);
    InsertOneEach(es, e, i);
  }

  lemma OffsetOrder(es: seq<Entry>, e: Entry, i: nat)
    requires ByOffset(es) && i <= |es| && (i > 0 ==> es[i - 1].offset <= e.offset)
    requires forall j :: i <= j < |es| ==> e.offset < es[j].offset
    ensures ByOffset(es[..i] + [e] + es[i..])
  {
    InsertedAt(es, i, e);
  }

  lemma InsertOneEach(es: seq<Entry>, e: Entry, i: nat)
    requires OneEach(es) && i <= |es| && forall j :: 0 <= j < |es| ==> es[j].hash != e.hash
    ensures OneEach(es[..i] + [e] + es[i..])
  {
    InsertedAt(es, i, e);
  }

  // The live chunks a pack is credited with.
  ghost predicate ToMove(recs: seq<Record<Loc>>, live: seq<Hash>, i: nat, h: Hash) {
    h in live && CreditedTo(recs, h, i)
  }

  method FramesOf(p: Info, i: nat, t: Table<Loc>, live: seq<Hash>) returns (frames: seq<Entry>)
    requires t.Valid() && WellFormed(p) && forall h :: CreditedTo(t.records, h, i) ==> Has(p, h)
    ensures OneEach(frames) && ByOffset(frames) && forall h :: Holding(frames, h) <==> ToMove(t.records, live, i, h)
  {
    frames := [];
    var es := p.entries;
    for n := 0 to |es|
      invariant OneEach(frames) && forall e :: e in frames <==> e in es[..n] && ToMove(t.records, live, i, e.hash)
    {
      var e := es[n];
      assert es[..n + 1] == es[..n] + [e];
      var l := Lookup(t, e.hash);
      if l.Some? && l.value.pack == i && e.hash in live {
        forall j | 0 <= j < |frames| ensures frames[j].hash != e.hash {
          assert frames[j] in es[..n];
        }
        frames := frames + [e];
      }
    }
    assert es[..|es|] == es;
    forall h ensures (exists e :: e in frames && e.hash == h) <==> ToMove(t.records, live, i, h) {
      if ToMove(t.records, live, i, h) {
        var e :| e in es && e.hash == h;
        assert e in frames;
      }
    }
    frames := SortByOffset(frames);
    forall h ensures Holding(frames, h) <==> exists e :: e in frames && e.hash == h {
    }
  }

  ghost function Bytes(es: seq<Entry>): nat {
    if es == [] then 0 else Bytes(es[..|es| - 1]) + es[|es| - 1].len
  }

  lemma BytesPush(es: seq<Entry>, e: Entry)
    ensures Bytes(es + [e]) == Bytes(es) + e.len
  {
    assert (es + [e])[..|es|] == es;
  }

  // The packs sealed, from the parts of what was copied.
  ghost predicate Sealed(s: Setup, packs: seq<Info>, parts: seq<seq<Entry>>) {
    |packs| == |parts| && forall k :: 0 <= k < |parts| ==> packs[k] == s.seal(parts[k])
  }

  /** Copies frames into new packs, sealing each when it is full. */
  class Copier {
    const s: Setup
    var w: seq<Entry>
    var sealed: seq<Info>
    var copied: nat
    ghost var parts: seq<seq<Entry>>

    // Everything copied, in order.
    ghost function Moved(): seq<Entry>
      reads this
    {
      Concat(parts) + w
    }

    ghost predicate Valid()
      reads this
    {
      Sealed(s, sealed, parts) && copied == Bytes(Moved())
    }

    constructor (s: Setup)
      ensures Valid() && this.s == s && Moved() == [] && w == [] && sealed == []
    {
      this.s := s;
      w, sealed, copied, parts := [], [], 0, [];
    }

    lemma ValidMeans()
      requires Valid() && w == []
      ensures Sealed(s, sealed, parts) && Moved() == Concat(parts) && copied == Bytes(Concat(parts))
    {
      assert Concat(parts) + [] == Concat(parts);
    }

    // Seals the pack being filled, if it has anything.
    method Finish()
      requires Valid()
      modifies this
      ensures Valid() && Moved() == old(Moved()) && w == [] && copied == old(copied)
      ensures old(w) == [] ==> sealed == old(sealed)
    {
      if |w| == 0 {
        return;
      }
      ConcatPush(parts, w);
      assert Concat(parts + [w]) + [] == Concat(parts + [w]);
      sealed := sealed + [s.seal(w)];
      parts := parts + [w];
      w := [];
    }

    // Copies one frame; false when not even an empty pack takes it.
    method Copy(e: Entry) returns (ok: bool)
      requires Valid()
      modifies this
      ensures ok ==> Valid() && Moved() == old(Moved()) + [e]
      ensures !ok ==> s.full([], e)
    {
      hide Sealed, Concat, Bytes;
      if s.full(w, e) {
        Finish();
        if s.full([], e) {
          return false;
        }
      }
      AppendAssoc(Concat(parts), w, [e]);
      BytesPush(Moved(), e);
      w := w + [e];
      copied := copied + e.len;
      ok := true;
    }

    method CopyAll(frames: seq<Entry>) returns (ok: bool)
      requires Valid()
      modifies this
      ensures ok ==> Valid() && Moved() == old(Moved()) + frames
      ensures !ok ==> exists e :: s.full([], e)
    {
      hide Valid, Moved;
      ghost var was := Moved();
      assert was + frames[..0] == was;
      for n := 0 to |frames|
        invariant Valid() && Moved() == was + frames[..n]
      {
        ok := Copy(frames[n]);
        if !ok {
          return;
        }
        assert frames[..n + 1] == frames[..n] + [frames[n]];
        AppendAssoc(was, frames[..n], [frames[n]]);
      }
      assert frames[..|frames|] == frames;
      ok := true;
    }
  }

  ghost predicate DistinctCandidates(cs: seq<Candidate>) {
    forall a, b :: 0 <= a < b < |cs| ==> cs[a].i != cs[b].i
  }

  // Emptier first, then by name.
  predicate Sooner(packs: seq<Info>, a: Candidate, b: Candidate)
    requires a.i < |packs| && b.i < |packs|
  {
    a.share < b.share || (a.share == b.share && packs[a.i].name < packs[b.i].name)
  }

  ghost predicate Indexed(packs: seq<Info>, cs: seq<Candidate>) {
    forall k :: 0 <= k < |cs| ==> cs[k].i < |packs|
  }

  ghost predicate Emptiest(packs: seq<Info>, cs: seq<Candidate>)
    requires Indexed(packs, cs)
  {
    forall a, b :: 0 <= a < b < |cs| ==> !Sooner(packs, cs[b], cs[a])
  }

  method SortCandidates(packs: seq<Info>, cs: seq<Candidate>) returns (out: seq<Candidate>)
    requires Indexed(packs, cs) && DistinctCandidates(cs)
    ensures Indexed(packs, out) && DistinctCandidates(out) && Emptiest(packs, out) && |out| == |cs|
    ensures forall c :: c in out <==> c in cs
  {
    out := [];
    for n := 0 to |cs|
      invariant Indexed(packs, out) && DistinctCandidates(out) && Emptiest(packs, out) && |out| == n
      invariant forall c :: c in out <==> c in cs[..n]
    {
      var c, i := cs[n], |out|;
      while i > 0 && Sooner(packs, c, out[i - 1])
        invariant 0 <= i <= |out| && forall j :: i <= j < |out| ==> Sooner(packs, c, out[j])
      {
        i := i - 1;
      }
      forall j | 0 <= j < |out| ensures out[j].i != c.i {
        assert out[j] in cs[..n];
      }
      CandidateInsert(packs, out, c, i);
      out := out[..i] + [c] + out[i..];
      assert cs[..n + 1] == cs[..n] + [c];
    }
    assert cs[..|cs|] == cs;
  }

  lemma CandidateInsert(packs: seq<Info>, cs: seq<Candidate>, c: Candidate, i: nat)
    requires Indexed(packs, cs) && DistinctCandidates(cs) && Emptiest(packs, cs) && c.i < |packs| && i <= |cs|
    requires (i > 0 ==> !Sooner(packs, c, cs[i - 1])) && forall j :: i <= j < |cs| ==> Sooner(packs, c, cs[j])
    requires forall j :: 0 <= j < |cs| ==> cs[j].i != c.i
    ensures var out := cs[..i] + [c] + cs[i..];
            Indexed(packs, out) && DistinctCandidates(out) && Emptiest(packs, out) && forall x ::
              x in out <==> x in cs || x == c
  {
    InsertedIn(cs, i, c);
    DistinctInsert(cs, c, i);
    IndexedInsert(packs, cs, c, i);
    EmptiestInsert(packs, cs, c, i);
  }

  lemma DistinctInsert(cs: seq<Candidate>, c: Candidate, i: nat)
    requires DistinctCandidates(cs) && i <= |cs| && forall j :: 0 <= j < |cs| ==> cs[j].i != c.i
    ensures DistinctCandidates(cs[..i] + [c] + cs[i..])
  {
    InsertedAt(cs, i, c);
  }

  lemma IndexedInsert(packs: seq<Info>, cs: seq<Candidate>, c: Candidate, i: nat)
    requires Indexed(packs, cs) && c.i < |packs| && i <= |cs|
    ensures Indexed(packs, cs[..i] + [c] + cs[i..])
  {
    InsertedAt(cs, i, c);
  }

  lemma EmptiestInsert(packs: seq<Info>, cs: seq<Candidate>, c: Candidate, i: nat)
    requires Indexed(packs, cs) && Emptiest(packs, cs) && c.i < |packs| && i <= |cs|
             && Indexed(packs, cs[..i] + [c] + cs[i..])
    requires (i > 0 ==> !Sooner(packs, c, cs[i - 1])) && forall j :: i <= j < |cs| ==> Sooner(packs, c, cs[j])
    ensures Emptiest(packs, cs[..i] + [c] + cs[i..])
  {
    InsertedAt(cs, i, c);
    forall j | 0 <= j < i ensures !Sooner(packs, c, cs[j]) {
      assert j < i - 1 ==> !Sooner(packs, cs[i - 1], cs[j]);
    }
  }

  // A chunk one of the first n candidates is credited with.
  ghost predicate Chosen(recs: seq<Record<Loc>>, live: seq<Hash>, cs: seq<Candidate>, n: nat, h: Hash)
    requires n <= |cs|
  {
    exists k :: 0 <= k < n && ToMove(recs, live, cs[k].i, h)
  }

  // What the first n candidates are credited with was copied, each chunk once, and nothing else.
  ghost predicate MovedOnce(recs: seq<Record<Loc>>, live: seq<Hash>, cs: seq<Candidate>, n: nat, moved: seq<Entry>) {
    n <= |cs| && OneEach(moved) && forall h :: Holding(moved, h) <==> Chosen(recs, live, cs, n, h)
  }

  lemma HoldingAppend(a: seq<Entry>, b: seq<Entry>, h: Hash)
    ensures Holding(a + b, h) <==> Holding(a, h) || Holding(b, h)
  {
    if Holding(a, h) {
      var i :| 0 <= i < |a| && a[i].hash == h;
      assert (a + b)[i] == a[i];
    }
    if Holding(b, h) {
      var i :| 0 <= i < |b| && b[i].hash == h;
      assert (a + b)[|a| + i] == b[i];
    }
  }

  lemma MoveStep(recs: seq<Record<Loc>>, live: seq<Hash>, cs: seq<Candidate>, n: nat, moved: seq<Entry>,
                 frames: seq<Entry>)
    requires MovedOnce(recs, live, cs, n, moved) && n < |cs| && DistinctCandidates(cs)
    requires OneEach(frames) && forall h :: Holding(frames, h) <==> ToMove(recs, live, cs[n].i, h)
    ensures MovedOnce(recs, live, cs, n + 1, moved + frames)
  {
    hide First, CreditedTo;
    forall h ensures Holding(moved + frames, h) <==> Chosen(recs, live, cs, n + 1, h) {
      HoldingAppend(moved, frames, h);
    }
    forall a, b | 0 <= a < |moved| && 0 <= b < |frames| ensures moved[a].hash != frames[b].hash {
      var h := moved[a].hash;
      assert Holding(moved, h) && Holding(frames, frames[b].hash);
      OneCredit(recs, live, cs, n, h);
    }
  }

  // No chunk is credited to two candidates.
  lemma OneCredit(recs: seq<Record<Loc>>, live: seq<Hash>, cs: seq<Candidate>, n: nat, h: Hash)
    requires n < |cs| && DistinctCandidates(cs) && Chosen(recs, live, cs, n, h)
    ensures !ToMove(recs, live, cs[n].i, h)
  {
  }

  /** Moves the live chunks of some candidates into new packs: all of a pack's or none, each chunk once. */
  method CopyLive(s: Setup, packs: seq<Info>, t: Table<Loc>, live: seq<Hash>, candidates: seq<Candidate>, budget: nat)
    returns (cs: seq<Candidate>, n: nat, made: seq<Info>, copied: nat, ok: bool)
    requires t.Valid() && SameFirsts(t.records, PackRecords(packs)) && forall i ::
               0 <= i < |packs| ==> WellFormed(packs[i])
    requires Indexed(packs, candidates) && DistinctCandidates(candidates)
    ensures Indexed(packs, cs) && DistinctCandidates(cs) && Emptiest(packs, cs) && |cs| == |candidates| && forall c ::
              c in cs <==> c in candidates
    ensures n <= |cs|
    ensures ok ==> exists parts :: Copies(s, t.records, live, cs, n, made, copied, parts)
    ensures ok && n < |cs| ==> copied >= budget
    ensures n == 0 ==> made == []
    ensures !ok ==> exists e :: s.full([], e)
  {
    hide *;
    cs := SortCandidates(packs, candidates);
    var w := new Copier(s);
    made, copied := [], 0;
    n := 0;
    MovedNone(t.records, live, cs);
    while n < |cs| && w.copied < budget
      invariant n <= |cs| && w.Valid() && fresh(w) && w.s == s && MovedOnce(t.records, live, cs, n, w.Moved())
      invariant n == 0 ==> w.w == [] && w.sealed == []
    {
      var i := cs[n].i;
      IndexedMeans(packs, cs, n);
      CreditedHas(packs, t, i);
      var frames := FramesOf(packs[i], i, t, live);
      MoveStep(t.records, live, cs, n, w.Moved(), frames);
      ok := w.CopyAll(frames);
      if !ok {
        return;
      }
      n := n + 1;
    }
    w.Finish();
    w.ValidMeans();
    made, copied, ok := w.sealed, w.copied, true;
    CopiesIs(s, t.records, live, cs, n, made, copied, w.parts);
  }

  // The new packs are sealed from what was copied, each chunk once.
  ghost predicate Copies(s: Setup, recs: seq<Record<Loc>>, live: seq<Hash>, cs: seq<Candidate>, n: nat, made: seq<Info>,
                         copied: nat, parts: seq<seq<Entry>>) {
    Sealed(s, made, parts) && MovedOnce(recs, live, cs, n, Concat(parts)) && copied == Bytes(Concat(parts))
  }

  lemma CopiesIs(s: Setup, recs: seq<Record<Loc>>, live: seq<Hash>, cs: seq<Candidate>, n: nat, made: seq<Info>,
                 copied: nat, parts: seq<seq<Entry>>)
    ensures Copies(s, recs, live, cs, n, made, copied, parts) <==>
            Sealed(s, made, parts) && MovedOnce(recs, live, cs, n, Concat(parts)) && copied == Bytes(Concat(parts))
  {
    hide Sealed, MovedOnce, Concat, Bytes;
  }

  lemma MovedNone(recs: seq<Record<Loc>>, live: seq<Hash>, cs: seq<Candidate>)
    ensures MovedOnce(recs, live, cs, 0, [])
  {
  }

  lemma IndexedMeans(packs: seq<Info>, cs: seq<Candidate>, n: nat)
    requires Indexed(packs, cs) && n < |cs|
    ensures cs[n].i < |packs|
  {
  }

  lemma CreditedHas(packs: seq<Info>, t: Table<Loc>, i: nat)
    requires SameFirsts(t.records, PackRecords(packs)) && i < |packs|
    ensures forall h :: CreditedTo(t.records, h, i) ==> Has(packs[i], h)
  {
    hide Has, First, PackRecords;
    forall h | CreditedTo(t.records, h, i) ensures Has(packs[i], h) {
      CreditIs(packs, h);
    }
  }

  /******** Index objects ********/

  const MAX_PACKS_PER_OBJECT := 0x1_0000
  const MAX_INDEX_OBJECT := 0x80_0000

  function Estimate(p: Info): nat {
    128 + 64 * |p.entries|
  }

  function Size(infos: seq<Info>): nat {
    if infos == [] then 0 else Size(infos[..|infos| - 1]) + Estimate(infos[|infos| - 1])
  }

  lemma {:induction false} ConcatIn(batches: seq<seq<Info>>, p: Info)
    ensures p in Concat(batches) <==> exists k :: 0 <= k < |batches| && p in batches[k]
    decreases |batches|
  {
    if batches != [] {
      var init, last := batches[..|batches| - 1], batches[|batches| - 1];
      ConcatIn(init, p);
      assert forall k :: 0 <= k < |init| ==> init[k] == batches[k];
    }
  }

  // An object's name is its contents': the same name, the same packs.
  ghost predicate Encodes(s: Setup, objects: Objects) {
    forall batch: seq<Info> :: s.encode(batch) in objects ==> objects[s.encode(batch)] == batch
  }

  ghost predicate Injective(s: Setup) {
    forall a, b: seq<Info> :: s.encode(a) == s.encode(b) ==> a == b
  }

  // An object stays within its limits, or lists a single pack.
  ghost predicate Bounded(batch: seq<Info>) {
    0 < |batch| <= MAX_PACKS_PER_OBJECT && (Size(batch) <= MAX_INDEX_OBJECT || |batch| == 1)
  }

  ghost predicate Sealing(s: Setup, a: Sum) {
    exists batch :: s.encode(batch) == a
  }

  // The objects written, each under its name and within its limits, beside those there were.
  ghost predicate Written(s: Setup, objects: Objects, sums: seq<Sum>, batches: seq<seq<Info>>, was: Objects) {
    && Injective(s) && Encodes(s, objects) && |sums| == |batches|
    && (forall k :: 0 <= k < |sums| ==> Bounded(batches[k]) && sums[k] == s.encode(batches[k]) && sums[k] in objects)
    && (forall a :: a in was ==> a in objects && objects[a] == was[a])
    && (forall a :: a in objects ==> a in was || a in sums)
  }

  lemma WriteStep(s: Setup, objects: Objects, sums: seq<Sum>, batches: seq<seq<Info>>, was: Objects, batch: seq<Info>)
    requires Written(s, objects, sums, batches, was) && Bounded(batch)
    ensures Written(s, objects[s.encode(batch) := batch], sums + [s.encode(batch)], batches + [batch], was)
  {
    hide Bounded;
  }

  lemma SizeNone()
    ensures Size([]) == 0
  {
  }

  lemma BatchPush(batch: seq<Info>, p: Info)
    requires batch == [] || (Bounded(batch) && |batch| < MAX_PACKS_PER_OBJECT
             && Size(batch) + Estimate(p) <= MAX_INDEX_OBJECT)
    ensures Size(batch + [p]) == Size(batch) + Estimate(p) && Bounded(batch + [p])
  {
    hide Estimate;
    assert (batch + [p])[..|batch|] == batch;
    assert (batch + [p])[|batch|] == p;
  }

  /** Batches packs into index objects. */
  class IndexWriter {
    const s: Setup
    var objects: Objects
    var batch: seq<Info>
    var size: nat
    var sums: seq<Sum>
    ghost var batches: seq<seq<Info>>
    ghost const was: Objects

    // Every pack added, in order.
    ghost function Added(): seq<Info>
      reads this
    {
      Concat(batches) + batch
    }

    ghost predicate Valid()
      reads this
    {
      Written(s, objects, sums, batches, was) && size == Size(batch) && (batch != [] ==> Bounded(batch))
    }

    constructor (s: Setup, objects: Objects)
      requires Injective(s) && Encodes(s, objects)
      ensures Valid() && this.s == s && was == objects && Added() == []
    {
      this.s, this.objects, was := s, objects, objects;
      batch, size, sums, batches := [], 0, [], [];
    }

    method Flush()
      requires Valid()
      modifies this
      ensures Valid() && Added() == old(Added()) && batch == []
    {
      if |batch| == 0 {
        return;
      }
      ConcatPush(batches, batch);
      assert Concat(batches + [batch]) + [] == Concat(batches + [batch]);
      WriteStep(s, objects, sums, batches, was, batch);
      hide Concat, Bounded, Written;
      var sum := s.encode(batch);
      objects := objects[sum := batch];
      sums, batches := sums + [sum], batches + [batch];
      batch, size := [], 0;
    }

    method Add(p: Info)
      requires Valid()
      modifies this
      ensures Valid() && Added() == old(Added()) + [p]
    {
      hide Written, Concat, Bounded, Size;
      if |batch| > 0 && (|batch| >= MAX_PACKS_PER_OBJECT || size + Estimate(p) > MAX_INDEX_OBJECT) {
        Flush();
      }
      AppendAssoc(Concat(batches), batch, [p]);
      SizeNone();
      BatchPush(batch, p);
      batch, size := batch + [p], size + Estimate(p);
    }

    lemma ValidMeans()
      requires Valid()
      ensures forall a :: a in sums ==> a in objects && Bounded(objects[a]) && Sealing(s, a)
      ensures forall a :: a in was ==> a in objects && objects[a] == was[a]
    {
      forall a | a in sums ensures a in objects && Bounded(objects[a]) && Sealing(s, a) {
        var k :| 0 <= k < |sums| && sums[k] == a;
        assert objects[a] == batches[k];
      }
    }

    lemma WrittenMeans()
      requires Valid() && batch == []
      ensures Written(s, objects, sums, batches, was) && Added() == Concat(batches)
    {
      hide Written;
      assert Concat(batches) + [] == Concat(batches);
    }

    // Writes the last object; the objects written list exactly what was added.
    method Finish()
      requires Valid()
      modifies this
      ensures Valid() && Added() == old(Added()) == Concat(batches) && batch == []
      ensures forall p :: Lists(sums, objects, p) <==> p in old(Added())
    {
      Flush();
      assert Added() == Concat(batches);
      forall p ensures Lists(sums, objects, p) <==> p in Added() {
        ConcatIn(batches, p);
        assert forall k :: 0 <= k < |sums| ==> objects[sums[k]] == batches[k];
        if Lists(sums, objects, p) {
          var a :| a in sums && a in objects && p in objects[a];
          var k :| 0 <= k < |sums| && sums[k] == a;
          assert p in batches[k];
        }
        if p in Added() {
          var k :| 0 <= k < |batches| && p in batches[k];
          assert sums[k] in sums && p in objects[sums[k]];
        }
      }
    }
  }

  // What a rewrite keeps: the listed packs with a kept name, each once, then the new ones.
  ghost predicate Rewrites(man: Manifest, objects: Objects, keep: set<Name>, made: seq<Info>, sums: seq<Sum>,
                           objects': Objects) {
    && (forall a :: a in objects ==> a in objects' && objects'[a] == objects[a])
    && (forall a :: a in sums ==> a in objects' && Bounded(objects'[a]))
    && (forall p :: Lists(sums, objects', p) <==> (Lists(man.indexes, objects, p) && p.name in keep) || p in made)
  }

  // Each kept pack of a prefix of the index objects was taken once.
  ghost predicate Taken(indexes: seq<Sum>, objects: Objects, keep: set<Name>, taken: seq<Info>) {
    && Distinct(taken)
    && (forall p :: p in taken ==> p.name in keep && Lists(indexes, objects, p))
    && (forall p :: Lists(indexes, objects, p) && p.name in keep ==> p in taken)
  }

  lemma ListsPush(indexes: seq<Sum>, sum: Sum, objects: Objects, p: Info)
    requires sum in objects
    ensures Lists(indexes + [sum], objects, p) <==> Lists(indexes, objects, p) || p in objects[sum]
  {
  }

  // Takes one object's kept packs that were not taken before.
  method TakeObject(w: IndexWriter, man: Manifest, objects: Objects, n: nat, keep: set<Name>, taken0: seq<Info>)
    returns (taken: seq<Info>)
    requires w.Valid() && w.Added() == taken0 && SamePacks(objects) && n < |man.indexes|
    requires (forall a :: a in man.indexes ==> a in objects) && Taken(man.indexes[..n], objects, keep, taken0)
    modifies w
    ensures w.Valid() && w.Added() == taken && Taken(man.indexes[..n + 1], objects, keep, taken)
  {
    hide *;
    taken := taken0;
    var sum := man.indexes[n];
    assert man.indexes[..n + 1] == man.indexes[..n] + [sum];
    var infos := objects[sum];
    PartStarts(man.indexes[..n], sum, objects, keep, taken);
    for m := 0 to |infos|
      invariant w.Valid() && w.Added() == taken && PartTaken(man.indexes[..n], sum, objects, m, keep, taken)
    {
      var p := infos[m];
      var seen := Seen(taken, p.name);
      PartStep(man.indexes[..n], sum, objects, m, keep, taken);
      if p.name in keep && !seen {
        w.Add(p);
        taken := taken + [p];
      }
    }
    PartEnds(man.indexes[..n], sum, objects, keep, taken);
  }

  ghost predicate PartTaken(indexes: seq<Sum>, sum: Sum, objects: Objects, m: nat, keep: set<Name>, taken: seq<Info>) {
    && sum in objects && m <= |objects[sum]| && Distinct(taken)
    && (forall p :: p in taken ==> p.name in keep && (Lists(indexes, objects, p) || p in objects[sum]))
    && (forall p :: (Lists(indexes, objects, p) || p in objects[sum][..m]) && p.name in keep ==> p in taken)
  }

  lemma PartStarts(indexes: seq<Sum>, sum: Sum, objects: Objects, keep: set<Name>, taken: seq<Info>)
    requires Taken(indexes, objects, keep, taken) && sum in objects
    ensures PartTaken(indexes, sum, objects, 0, keep, taken)
  {
    hide Lists;
  }

  lemma PartStep(indexes: seq<Sum>, sum: Sum, objects: Objects, m: nat, keep: set<Name>, taken: seq<Info>)
    requires PartTaken(indexes, sum, objects, m, keep, taken) && sum in objects && m < |objects[sum]|
             && SamePacks(objects)
    ensures var p := objects[sum][m];
            PartTaken(indexes, sum, objects, m + 1, keep, if p.name in keep
                      && !Named(taken, p.name) then taken + [p] else taken)
  {
    hide *;
    var p := objects[sum][m];
    if p.name in keep && !Named(taken, p.name) {
      PartTakes(indexes, sum, objects, m, keep, taken);
    } else {
      if p.name in keep {
        AlreadyTaken(indexes, sum, objects, m, keep, taken);
      }
      PartSkips(indexes, sum, objects, m, keep, taken);
    }
  }

  lemma AlreadyTaken(indexes: seq<Sum>, sum: Sum, objects: Objects, m: nat, keep: set<Name>, taken: seq<Info>)
    requires PartTaken(indexes, sum, objects, m, keep, taken) && sum in objects && m < |objects[sum]|
             && SamePacks(objects)
    requires Named(taken, objects[sum][m].name)
    ensures objects[sum][m] in taken
  {
    var i :| 0 <= i < |taken| && taken[i].name == objects[sum][m].name;
    assert taken[i] in taken;
  }

  lemma PartSkips(indexes: seq<Sum>, sum: Sum, objects: Objects, m: nat, keep: set<Name>, taken: seq<Info>)
    requires PartTaken(indexes, sum, objects, m, keep, taken) && sum in objects && m < |objects[sum]|
    requires objects[sum][m].name in keep ==> objects[sum][m] in taken
    ensures PartTaken(indexes, sum, objects, m + 1, keep, taken)
  {
    hide Lists, Distinct;
    assert objects[sum][..m + 1] == objects[sum][..m] + [objects[sum][m]];
  }

  lemma PartTakes(indexes: seq<Sum>, sum: Sum, objects: Objects, m: nat, keep: set<Name>, taken: seq<Info>)
    requires PartTaken(indexes, sum, objects, m, keep, taken) && sum in objects && m < |objects[sum]|
    requires objects[sum][m].name in keep && !Named(taken, objects[sum][m].name)
    ensures PartTaken(indexes, sum, objects, m + 1, keep, taken + [objects[sum][m]])
  {
    DistinctPush(taken, objects[sum][m]);
    hide Lists, Distinct, Named;
    assert objects[sum][..m + 1] == objects[sum][..m] + [objects[sum][m]];
  }

  lemma DistinctPush(packs: seq<Info>, p: Info)
    requires Distinct(packs) && !Named(packs, p.name)
    ensures Distinct(packs + [p])
  {
  }

  lemma PartEnds(indexes: seq<Sum>, sum: Sum, objects: Objects, keep: set<Name>, taken: seq<Info>)
    requires sum in objects && PartTaken(indexes, sum, objects, |objects[sum]|, keep, taken)
    ensures Taken(indexes + [sum], objects, keep, taken)
  {
    forall p ensures Lists(indexes + [sum], objects, p) <==> Lists(indexes, objects, p) || p in objects[sum] {
      ListsPush(indexes, sum, objects, p);
    }
    hide Lists;
    assert objects[sum][..|objects[sum]|] == objects[sum];
  }

  method SortSums(sums: seq<Sum>) returns (out: seq<Sum>)
    ensures (forall a :: a in out <==> a in sums) && forall i, j :: 0 <= i < j < |out| ==> out[i] <= out[j]
  {
    out := [];
    for n := 0 to |sums|
      invariant (forall a :: a in out <==> a in sums[..n]) && forall i, j :: 0 <= i < j < |out| ==> out[i] <= out[j]
    {
      var a, i := sums[n], |out|;
      while i > 0 && a < out[i - 1]
        invariant 0 <= i <= |out| && forall j :: i <= j < |out| ==> a < out[j]
      {
        i := i - 1;
      }
      InsertedIn(out, i, a);
      InsertedAt(out, i, a);
      out := out[..i] + [a] + out[i..];
      assert sums[..n + 1] == sums[..n] + [a];
    }
    assert sums[..|sums|] == sums;
  }

  /** New index objects listing exactly the packs to keep and the packs made. */
  method WriteIndexes(s: Setup, man: Manifest, objects: Objects, keep: set<Name>, made: seq<Info>)
    returns (sums: seq<Sum>, objects': Objects)
    requires (forall a :: a in man.indexes ==> a in objects) && SamePacks(objects) && Injective(s)
             && Encodes(s, objects)
    ensures Rewrites(man, objects, keep, made, sums, objects')
    ensures forall a :: a in sums ==> Sealing(s, a)
  {
    hide *;
    var w := new IndexWriter(s, objects);
    var taken: seq<Info> := [];
    TakenNone(objects, keep);
    assert man.indexes[..0] == [];
    for n := 0 to |man.indexes|
      invariant w.Valid() && fresh(w) && w.was == objects && w.Added() == taken
                && Taken(man.indexes[..n], objects, keep, taken)
    {
      taken := TakeObject(w, man, objects, n, keep, taken);
    }
    assert man.indexes[..|man.indexes|] == man.indexes;
    assert taken + made[..0] == taken;
    for n := 0 to |made|
      invariant w.Valid() && fresh(w) && w.was == objects && w.Added() == taken + made[..n]
    {
      w.Add(made[n]);
      assert made[..n + 1] == made[..n] + [made[n]];
      AppendAssoc(taken, made[..n], [made[n]]);
    }
    assert made[..|made|] == made;
    w.Finish();
    w.ValidMeans();
    sums := SortSums(w.sums);
    objects' := w.objects;
    RewritesIs(man, objects, keep, made, taken, w.sums, sums, objects');
  }

  lemma TakenNone(objects: Objects, keep: set<Name>)
    ensures Taken([], objects, keep, [])
  {
  }

  lemma RewritesIs(man: Manifest, objects: Objects, keep: set<Name>, made: seq<Info>, taken: seq<Info>, sums0: seq<Sum>,
                   sums: seq<Sum>, objects': Objects)
    requires Taken(man.indexes, objects, keep, taken) && forall a :: a in sums <==> a in sums0
    requires forall a :: a in objects ==> a in objects' && objects'[a] == objects[a]
    requires forall a :: a in sums0 ==> a in objects' && Bounded(objects'[a])
    requires forall p :: Lists(sums0, objects', p) <==> p in taken + made
    ensures Rewrites(man, objects, keep, made, sums, objects')
  {
    forall p ensures Lists(sums, objects', p) <==> Lists(sums0, objects', p) {
    }
    hide Lists, Bounded;
  }

  /******** Deciding ********/

  /** The manifest's records, sorted out: packs condemned and repacked with when, the records that stay as they
      are, and the index objects whose time is up. */
  datatype Ledger = Ledger(packs: map<Name, int>, repacked: map<Name, int>, next: seq<Condemned>, expired: seq<Sum>,
                           lapsed: nat)

  predicate Over(at: int, since: int, window: nat) {
    at - since >= window
  }

  // What stays on record whatever the packs.
  predicate Stays(s: Setup, at: int, c: Condemned) {
    match c.kind
    case CondemnedIndex => !Over(at, c.at, s.grace)
    case DeletedPack => !Over(at, c.at, s.grace + s.recheck)
    case DeletedIndex => !Over(at, c.at, s.grace + s.recheck)
    case _ => false
  }

  // The packs with a record of a kind, each with a record's time.
  ghost predicate Since(cs: seq<Condemned>, kind: Kind, m: map<Name, int>) {
    && (forall name :: name in m <==> exists c :: c in cs && c.kind == kind && c.sum == name)
    && (forall name :: name in m ==> Condemned(kind, name, m[name]) in cs)
  }

  // The records that stay, in their order.
  ghost function StaysOf(s: Setup, at: int, cs: seq<Condemned>): seq<Condemned> {
    if cs == [] then []
    else StaysOf(s, at, cs[..|cs| - 1]) + if Stays(s, at, cs[|cs| - 1]) then [cs[|cs| - 1]] else []
  }

  lemma StaysPush(s: Setup, at: int, cs: seq<Condemned>, c: Condemned)
    ensures StaysOf(s, at, cs + [c]) == StaysOf(s, at, cs) + if Stays(s, at, c) then [c] else []
  {
    assert (cs + [c])[..|cs|] == cs;
  }

  ghost predicate SortedOut(s: Setup, cs: seq<Condemned>, at: int, l: Ledger) {
    && Since(cs, CondemnedPack, l.packs) && Since(cs, RepackedPack, l.repacked) && l.next == StaysOf(s, at, cs)
    && Staying(s, at, cs, l.next) && Lapsing(s, at, cs, l.expired)
  }

  ghost predicate Staying(s: Setup, at: int, cs: seq<Condemned>, next: seq<Condemned>) {
    forall c :: c in next <==> c in cs && Stays(s, at, c)
  }

  // The index objects whose time is up.
  ghost predicate Lapsing(s: Setup, at: int, cs: seq<Condemned>, expired: seq<Sum>) {
    forall a ::
      a in expired <==> exists c :: c in cs && c.kind == CondemnedIndex && c.sum == a && Over(at, c.at, s.grace)
  }

  function Sort1(s: Setup, at: int, l: Ledger, c: Condemned): Ledger {
    match c.kind
    case CondemnedPack => l.(packs := l.packs[c.sum := c.at])
    case RepackedPack => l.(repacked := l.repacked[c.sum := c.at])
    case CondemnedIndex =>
      if Over(at, c.at, s.grace) then l.(expired := l.expired + [c.sum]) else l.(next := l.next + [c])
    case _ => if Over(at, c.at, s.grace + s.recheck) then l.(lapsed := l.lapsed + 1) else l.(next := l.next + [c])
  }

  lemma SinceStep(cs: seq<Condemned>, kind: Kind, m: map<Name, int>, c: Condemned)
    requires Since(cs, kind, m)
    ensures Since(cs + [c], kind, if c.kind == kind then m[c.sum := c.at] else m)
  {
  }

  lemma SortStep(s: Setup, cs: seq<Condemned>, at: int, l: Ledger, c: Condemned)
    requires SortedOut(s, cs, at, l)
    ensures SortedOut(s, cs + [c], at, Sort1(s, at, l, c))
  {
    SinceStep(cs, CondemnedPack, l.packs, c);
    SinceStep(cs, RepackedPack, l.repacked, c);
    StaysPush(s, at, cs, c);
    Sort1Is(s, at, l, c);
    hide Since, StaysOf, Sort1, Stays, Over, Staying, Lapsing;
    StayingStep(s, at, cs, l.next, c);
    LapsingStep(s, at, cs, l.expired, c);
  }

  // What a record does to each part of the ledger.
  lemma Sort1Is(s: Setup, at: int, l: Ledger, c: Condemned)
    ensures var l' := Sort1(s, at, l, c);
            && l'.packs == (if c.kind == CondemnedPack then l.packs[c.sum := c.at] else l.packs)
            && l'.repacked == (if c.kind == RepackedPack then l.repacked[c.sum := c.at] else l.repacked)
            && l'.next == l.next + (if Stays(s, at, c) then [c] else [])
            && l'.expired == l.expired + (if Lapses(s, at, c) then [c.sum] else [])
  {
    assert l.next + [] == l.next && l.expired + [] == l.expired;
  }

  // An index object's time is up.
  predicate Lapses(s: Setup, at: int, c: Condemned) {
    c.kind == CondemnedIndex && Over(at, c.at, s.grace)
  }

  lemma StayingStep(s: Setup, at: int, cs: seq<Condemned>, next: seq<Condemned>, c: Condemned)
    requires Staying(s, at, cs, next)
    ensures Staying(s, at, cs + [c], next + if Stays(s, at, c) then [c] else [])
  {
    hide Stays;
  }

  lemma LapsingStep(s: Setup, at: int, cs: seq<Condemned>, expired: seq<Sum>, c: Condemned)
    requires Lapsing(s, at, cs, expired)
    ensures Lapsing(s, at, cs + [c], expired + if Lapses(s, at, c) then [c.sum] else [])
  {
    hide Over;
    var expired' := expired + if Lapses(s, at, c) then [c.sum] else [];
    forall a ensures a in expired' <==>
      exists d :: d in cs + [c] && d.kind == CondemnedIndex && d.sum == a && Over(at, d.at, s.grace) {
      if a in expired {
        var d :| d in cs && d.kind == CondemnedIndex && d.sum == a && Over(at, d.at, s.grace);
        assert d in cs + [c];
      }
      if Lapses(s, at, c) && a == c.sum {
        assert c in cs + [c];
      }
    }
  }

  method SortOut(s: Setup, man: Manifest, at: int) returns (l: Ledger)
    ensures SortedOut(s, man.condemned, at, l)
  {
    l := Ledger(map[], map[], [], [], 0);
    var cs := man.condemned;
    assert cs[..0] == [];
    for n := 0 to |cs|
      invariant SortedOut(s, cs[..n], at, l)
    {
      hide *;
      SortStep(s, cs[..n], at, l, cs[n]);
      assert cs[..n + 1] == cs[..n] + [cs[n]];
      l := Sort1(s, at, l, cs[n]);
    }
    assert cs[..|cs|] == cs;
  }

  datatype Policy = Policy(maxLive: real, budget: nat, off: bool)

  datatype Plan = Plan(keep: set<Name>, next: seq<Condemned>, expired: seq<Name>, candidates: seq<Candidate>,
                       condemned: nat, reprieved: nat)

  // A pack leaves: repacked long enough ago, or condemned long enough ago and still without a live chunk.
  predicate Leaves(s: Setup, at: int, l: Ledger, name: Name, live: nat) {
    if name in l.repacked then Over(at, l.repacked[name], s.grace)
    else live == 0 && name in l.packs && Over(at, l.packs[name], s.grace)
  }

  predicate Candidates(l: Ledger, p: Info, live: nat, bytes: nat, policy: Policy)
    requires p.size > 0
  {
    && !policy.off && p.name !in l.repacked && live > 0 && live < |p.entries|
    && bytes as real / p.size as real < policy.maxLive
  }

  // One pack's turn.
  function Plan1(s: Setup, at: int, l: Ledger, plan: Plan, i: nat, p: Info, live: nat, bytes: nat, policy: Policy): Plan
    requires p.size > 0
  {
    var kept := plan.(keep := plan.keep + {p.name});
    if p.name in l.repacked then
      if Over(at, l.repacked[p.name], s.grace) then plan.(expired := plan.expired + [p.name])
      else kept.(next := plan.next + [Condemned(RepackedPack, p.name, l.repacked[p.name])])
    else if live > 0 then
      var some := if Candidates(l, p, live, bytes, policy)
                  then kept.(candidates := plan.candidates + [Candidate(i, bytes as real / p.size as real, bytes)])
                    else kept;
      if p.name in l.packs then some.(reprieved := plan.reprieved + 1) else some
    else if p.name in l.packs then
      if Over(at, l.packs[p.name], s.grace) then plan.(expired := plan.expired + [p.name])
      else kept.(next := plan.next + [Condemned(CondemnedPack, p.name, l.packs[p.name])])
    else if |plan.next| < MAX_CONDEMNED / 2 then
      kept.(next := plan.next + [Condemned(CondemnedPack, p.name, at)], condemned := plan.condemned + 1)
    else kept
  }

  /** What a round decides against: the packs, how many live chunks and bytes each is credited with, the
      records and the clock. */
  datatype Case = Case(s: Setup, at: int, l: Ledger, packs: seq<Info>, count: seq<nat>, frames: seq<nat>,
                       policy: Policy)
  {
    ghost predicate Valid() {
      |count| == |frames| == |packs| && Distinct(packs) && forall i :: 0 <= i < |packs| ==> packs[i].size > 0
    }

    predicate Dies(i: nat)
      requires i < |packs| == |count|
    {
      Leaves(s, at, l, packs[i].name, count[i])
    }

    // In service or back in it: a live chunk, and not already repacked.
    predicate InUse(i: nat)
      requires i < |packs| == |count|
    {
      packs[i].name !in l.repacked && count[i] > 0
    }
  }

  // The packs kept and expired are the ones that stay and that die.
  ghost predicate KeptRight(c: Case, n: nat, p: Plan)
    requires c.Valid() && n <= |c.packs|
  {
    && (forall i ::
          0 <= i < n ==> (c.packs[i].name in p.keep <==> !c.Dies(i)) && (c.packs[i].name in p.expired <==> c.Dies(i)))
    && (forall name :: name in p.keep || name in p.expired ==> exists i :: 0 <= i < n && c.packs[i].name == name)
  }

  // The record of a pack that stays out of service.
  ghost predicate OnRecord(c: Case, i: nat, r: Condemned)
    requires c.Valid() && i < |c.packs|
  {
    && r.sum == c.packs[i].name && !c.Dies(i) && !c.InUse(i)
    && (r.kind == RepackedPack ==> r.sum in c.l.repacked && r.at == c.l.repacked[r.sum])
    && (r.kind == CondemnedPack ==>
          r.sum !in c.l.repacked && r.at == if r.sum in c.l.packs then c.l.packs[r.sum] else c.at)
    && r.kind in {RepackedPack, CondemnedPack}
  }

  // The records are those that stay and those of packs out of service; none of a pack in use.
  ghost predicate NextRight(c: Case, n: nat, p: Plan)
    requires c.Valid() && n <= |c.packs|
  {
    && c.l.next <= p.next && (forall r :: r in c.l.next ==> r in p.next)
    && (forall r :: r in p.next ==> r in c.l.next || exists i :: 0 <= i < n && OnRecord(c, i, r))
    && (forall i :: 0 <= i < n && !c.Dies(i) && c.packs[i].name in c.l.repacked ==>
          Condemned(RepackedPack, c.packs[i].name, c.l.repacked[c.packs[i].name]) in p.next)
    && (forall i ::
          0 <= i < n && !c.Dies(i) && !c.InUse(i) && c.packs[i].name !in c.l.repacked
            && c.packs[i].name in c.l.packs ==>
          Condemned(CondemnedPack, c.packs[i].name, c.l.packs[c.packs[i].name]) in p.next)
    && (forall i :: 0 <= i < n && !c.InUse(i) && c.packs[i].name !in c.l.repacked && c.packs[i].name !in c.l.packs ==>
          Condemned(CondemnedPack, c.packs[i].name, c.at) in p.next || |p.next| >= MAX_CONDEMNED / 2)
  }

  // A pack is a candidate when it is in use, holds something dead, and its live share is under the policy's.
  ghost predicate Repackable(c: Case, i: nat)
    requires c.Valid() && i < |c.packs|
  {
    Candidates(c.l, c.packs[i], c.count[i], c.frames[i], c.policy)
  }

  function CandidateOf(c: Case, i: nat): Candidate
    requires i < |c.packs| == |c.frames| && c.packs[i].size > 0
  {
    Candidate(i, c.frames[i] as real / c.packs[i].size as real, c.frames[i])
  }

  ghost predicate CandidatesRight(c: Case, n: nat, p: Plan)
    requires c.Valid() && n <= |c.packs|
  {
    && DistinctCandidates(p.candidates)
    && (forall k :: 0 <= k < |p.candidates| ==> p.candidates[k].i < n && c.InUse(p.candidates[k].i))
    && (forall i :: 0 <= i < n ==> (CandidateOf(c, i) in p.candidates <==> Repackable(c, i)))
    && (forall x :: x in p.candidates ==> x.i < n && x == CandidateOf(c, x.i))
  }

  ghost predicate ReprievedRight(c: Case, n: nat, p: Plan)
    requires c.Valid() && n <= |c.packs|
  {
    p.reprieved == 0 ==> forall i :: 0 <= i < n && c.InUse(i) ==> c.packs[i].name !in c.l.packs
  }

  ghost predicate Planned(c: Case, n: nat, p: Plan)
    requires c.Valid() && n <= |c.packs|
  {
    KeptRight(c, n, p) && NextRight(c, n, p) && CandidatesRight(c, n, p) && ReprievedRight(c, n, p)
  }

  function Turn(c: Case, p: Plan, i: nat): Plan
    requires i < |c.packs| == |c.count| == |c.frames| && c.packs[i].size > 0
  {
    Plan1(c.s, c.at, c.l, p, i, c.packs[i], c.count[i], c.frames[i], c.policy)
  }

  lemma KeptStep(c: Case, n: nat, p: Plan)
    requires c.Valid() && n < |c.packs| && KeptRight(c, n, p)
    ensures KeptRight(c, n + 1, Turn(c, p, n))
  {
    var p' := Turn(c, p, n);
    assert p'.keep == if c.Dies(n) then p.keep else p.keep + {c.packs[n].name};
    assert p'.expired == if c.Dies(n) then p.expired + [c.packs[n].name] else p.expired;
    hide Plan1, Leaves;
  }

  lemma NextStep(c: Case, n: nat, p: Plan)
    requires c.Valid() && n < |c.packs| && NextRight(c, n, p)
    ensures NextRight(c, n + 1, Turn(c, p, n))
  {
    var p' := Turn(c, p, n);
    assert p'.next == p.next || (p'.next == p.next + [p'.next[|p.next|]] && OnRecord(c, n, p'.next[|p.next|]));
    assert !c.Dies(n) && c.packs[n].name in c.l.repacked ==>
        p'.next == p.next + [Condemned(RepackedPack, c.packs[n].name, c.l.repacked[c.packs[n].name])];
    assert !c.Dies(n) && !c.InUse(n) && c.packs[n].name !in c.l.repacked && c.packs[n].name in c.l.packs ==>
        p'.next == p.next + [Condemned(CondemnedPack, c.packs[n].name, c.l.packs[c.packs[n].name])];
    assert !c.InUse(n) && c.packs[n].name !in c.l.repacked && c.packs[n].name !in c.l.packs
           && |p.next| < MAX_CONDEMNED / 2 ==>
        p'.next == p.next + [Condemned(CondemnedPack, c.packs[n].name, c.at)];
    hide Plan1, Leaves, Turn;
  }

  lemma CandidatesStep(c: Case, n: nat, p: Plan)
    requires c.Valid() && n < |c.packs| && CandidatesRight(c, n, p)
    ensures CandidatesRight(c, n + 1, Turn(c, p, n))
  {
    var p' := Turn(c, p, n);
    assert p'.candidates == if Repackable(c, n) then p.candidates + [CandidateOf(c, n)] else p.candidates;
    assert Repackable(c, n) ==> c.InUse(n);
    hide Plan1, Leaves, Turn, Repackable;
    assert CandidateOf(c, n).i == n;
    forall i | 0 <= i < n + 1 ensures CandidateOf(c, i) in p'.candidates <==> Repackable(c, i) {
      assert CandidateOf(c, i).i == i;
    }
  }

  lemma ReprievedStep(c: Case, n: nat, p: Plan)
    requires c.Valid() && n < |c.packs| && ReprievedRight(c, n, p)
    ensures ReprievedRight(c, n + 1, Turn(c, p, n))
  {
    var p' := Turn(c, p, n);
    assert p'.reprieved == p.reprieved + if c.InUse(n) && c.packs[n].name in c.l.packs then 1 else 0;
    hide Plan1, Leaves, Turn;
  }

  /** Decides every pack's fate. */
  method Decide(c: Case) returns (p: Plan)
    requires c.Valid()
    ensures Planned(c, |c.packs|, p)
  {
    p := Plan({}, c.l.next, [], [], 0, 0);
    for n := 0 to |c.packs|
      invariant Planned(c, n, p)
    {
      hide Turn, Plan1, KeptRight, NextRight, CandidatesRight, ReprievedRight;
      KeptStep(c, n, p);
      NextStep(c, n, p);
      CandidatesStep(c, n, p);
      ReprievedStep(c, n, p);
      p := Turn(c, p, n);
    }
  }

  /******** The round's swap ********/

  // What is sealed now has a name nothing had before.
  ghost predicate NewNames(s: Setup, man: Manifest, objects: Objects) {
    && (forall batch: seq<Info> :: s.encode(batch) !in objects && !Marked(man, s.encode(batch), CondemnedIndex))
    && (forall es: seq<Entry>, p :: Lists(man.indexes, objects, p) ==> s.seal(es).name != p.name)
    && Injective(s)
  }

  // The records after the packs' and the repacked ones, with the old index objects where they were replaced.
  function RepackRecords(packs: seq<Info>, cs: seq<Candidate>, n: nat, at: int): (rs: seq<Condemned>)
    requires n <= |cs| && forall k :: 0 <= k < |cs| ==> cs[k].i < |packs|
    ensures |rs| == n && forall k :: 0 <= k < n ==> rs[k] == Condemned(RepackedPack, packs[cs[k].i].name, at)
  {
    seq(n, k requires 0 <= k < n => Condemned(RepackedPack, packs[cs[k].i].name, at))
  }

  function IndexRecords(indexes: seq<Sum>, sums: seq<Sum>, at: int): (rs: seq<Condemned>)
    ensures forall r :: r in rs <==> r.kind == CondemnedIndex && r.at == at && r.sum in indexes && r.sum !in sums
  {
    if indexes == [] then []
    else
      var rs := IndexRecords(indexes[..|indexes| - 1], sums, at);
      var sum := indexes[|indexes| - 1];
      if sum in sums then rs else rs + [Condemned(CondemnedIndex, sum, at)]
  }

  lemma {:induction false} JoinedHolding(parts: seq<seq<Entry>>, h: Hash)
    ensures Holding(Concat(parts), h) <==> exists k :: 0 <= k < |parts| && Holding(parts[k], h)
    decreases |parts|
  {
    if parts != [] {
      var init, last := parts[..|parts| - 1], parts[|parts| - 1];
      JoinedHolding(init, h);
      HoldingAppend(Concat(init), last, h);
      assert forall k :: 0 <= k < |init| ==> init[k] == parts[k];
      hide Holding, Concat;
    }
  }

  // A chunk is held by a listed pack in service.
  ghost predicate Kept(man: Manifest, objects: Objects, h: Hash) {
    exists q :: Lists(man.indexes, objects, q) && Has(q, h) && !OutOfService(man, q.name)
  }

  // What became of the packs: their records, and the index objects if they were rewritten.
  ghost predicate Follows(c: Case, p: Plan, cs: seq<Candidate>, n: nat, man: Manifest, objects: Objects,
                          made: seq<Info>, man': Manifest, objects': Objects)
    requires c.Valid() && n <= |cs| && Indexed(c.packs, cs)
  {
    && (forall r :: r in man'.condemned && r.kind in {CondemnedPack, RepackedPack} ==>
          r in p.next || exists k :: 0 <= k < n && r.sum == c.packs[cs[k].i].name)
    && (forall q :: Lists(man.indexes, objects, q) && q.name in p.keep ==> Lists(man'.indexes, objects', q))
    && (forall q :: q in made ==> Lists(man'.indexes, objects', q))
  }

  lemma InUseStays(c: Case, p: Plan, i: nat)
    requires c.Valid() && i < |c.packs| && c.InUse(i) && Planned(c, |c.packs|, p)
    requires forall r :: r in c.l.next ==> r.kind !in {CondemnedPack, RepackedPack}
    ensures c.packs[i].name in p.keep && forall r ::
              r in p.next && r.kind in {CondemnedPack, RepackedPack} ==> r.sum != c.packs[i].name
  {
    forall r | r in p.next && r.kind in {CondemnedPack, RepackedPack} ensures r.sum != c.packs[i].name {
      var j :| 0 <= j < |c.packs| && OnRecord(c, j, r);
    }
  }

  // A live chunk of a pack in use that was not repacked stays where it is.
  lemma StaysPut(c: Case, p: Plan, cs: seq<Candidate>, n: nat, man: Manifest, objects: Objects, made: seq<Info>,
                 man': Manifest, objects': Objects, i: nat, h: Hash)
    requires c.Valid() && n <= |cs| && Indexed(c.packs, cs) && Planned(c, |c.packs|, p) && i < |c.packs| && c.InUse(i)
             && Has(c.packs[i], h)
    requires forall r :: r in c.l.next ==> r.kind !in {CondemnedPack, RepackedPack}
    requires Follows(c, p, cs, n, man, objects, made, man', objects') && Lists(man.indexes, objects, c.packs[i])
    requires forall k :: 0 <= k < n ==> cs[k].i != i
    ensures Kept(man', objects', h)
  {
    hide Planned, Has, Lists;
    InUseStays(c, p, i);
    var q := c.packs[i];
    forall r | r in man'.condemned && r.kind in {CondemnedPack, RepackedPack} ensures r.sum != q.name {
      if k :| 0 <= k < n && r.sum == c.packs[cs[k].i].name {
        assert cs[k].i != i;
      }
    }
    assert Lists(man'.indexes, objects', q) && !OutOfService(man', q.name);
  }

  // One of a repacked pack is in a new pack.
  lemma MovesOver(c: Case, p: Plan, cs: seq<Candidate>, n: nat, man: Manifest, objects: Objects, made: seq<Info>,
                  man': Manifest, objects': Objects,
                  recs: seq<Record<Loc>>, live: seq<Hash>, parts: seq<seq<Entry>>, k: nat, h: Hash)
    requires c.Valid() && n <= |cs| && Indexed(c.packs, cs) && Planned(c, |c.packs|, p) && k < n
             && ToMove(recs, live, cs[k].i, h)
    requires forall r :: r in c.l.next ==> r.kind !in {CondemnedPack, RepackedPack}
    requires Follows(c, p, cs, n, man, objects, made, man', objects')
    requires c.s.Seals() && Sealed(c.s, made, parts) && MovedOnce(recs, live, cs, n, Concat(parts))
    requires NewNames(c.s, man, objects) && forall i :: 0 <= i < |c.packs| ==> Lists(man.indexes, objects, c.packs[i])
    ensures Kept(man', objects', h)
  {
    assert Chosen(recs, live, cs, n, h);
    assert Holding(Concat(parts), h);
    JoinedHolding(parts, h);
    var j :| 0 <= j < |parts| && Holding(parts[j], h);
    var q := made[j];
    assert q == c.s.seal(parts[j]) && Has(q, h) && q in made;
    NewInService(c, p, cs, n, man, objects, made, man', objects', parts[j]);
  }

  lemma NewInService(c: Case, p: Plan, cs: seq<Candidate>, n: nat, man: Manifest, objects: Objects, made: seq<Info>,
                     man': Manifest, objects': Objects, part: seq<Entry>)
    requires c.Valid() && n <= |cs| && Indexed(c.packs, cs) && Planned(c, |c.packs|, p)
    requires forall r :: r in c.l.next ==> r.kind !in {CondemnedPack, RepackedPack}
    requires Follows(c, p, cs, n, man, objects, made, man', objects')
    requires NewNames(c.s, man, objects) && forall i :: 0 <= i < |c.packs| ==> Lists(man.indexes, objects, c.packs[i])
    ensures !OutOfService(man', c.s.seal(part).name)
  {
    var name := c.s.seal(part).name;
    forall i | 0 <= i < |c.packs| ensures c.packs[i].name != name {
      assert Lists(man.indexes, objects, c.packs[i]);
    }
    hide Lists, NewNames;
    forall r | r in man'.condemned && r.kind in {CondemnedPack, RepackedPack} ensures r.sum != name {
      if r in p.next {
        var j :| 0 <= j < |c.packs| && OnRecord(c, j, r);
      } else {
        var k :| 0 <= k < n && r.sum == c.packs[cs[k].i].name;
      }
    }
  }

  /******** Orphans ********/

  /** A stored object: a pack, an index object, or a name neither has. */
  datatype Object = PackObject(name: Name) | IndexObject(sum: Sum) | OtherObject(id: nat)

  // What the manifest records when an object is deleted; nothing for other kinds of object.
  function Deletion(o: Object, at: int): Option<Condemned> {
    match o
    case PackObject(name) => Some(Condemned(DeletedPack, name, at))
    case IndexObject(sum) => Some(Condemned(DeletedIndex, sum, at))
    case OtherObject(_) => None
  }

  predicate Recorded(next: seq<Condemned>, o: Object) {
    exists r :: r in next && Deletion(o, r.at) == Some(r)
  }

  /** Records as deleted each old object the manifest does not name, while there is room. */
  method RecordOrphans(next0: seq<Condemned>, aged: seq<Object>, named: set<Object>, expiring: seq<Object>, at: int)
    returns (next: seq<Condemned>, orphans: seq<Object>, added: nat)
    ensures next0 <= next && (added == 0 ==> next == next0)
    ensures |next| <= MAX_CONDEMNED <==> |next0| <= MAX_CONDEMNED
    ensures forall r :: r in next ==> r in next0 || r.kind in {DeletedPack, DeletedIndex}
    ensures forall o ::
              o in orphans ==> o in aged && o !in named && o !in expiring && (o.OtherObject? || Recorded(next, o))
    ensures AllTaken(aged, named, expiring, orphans, next)
  {
    next, orphans, added := next0, [], 0;
    for n := 0 to |aged|
      invariant next0 <= next && (added == 0 ==> next == next0)
      invariant |next| <= MAX_CONDEMNED <==> |next0| <= MAX_CONDEMNED
      invariant forall r :: r in next ==> r in next0 || r.kind in {DeletedPack, DeletedIndex}
      invariant forall o ::
                  o in orphans ==> o in aged && o !in named && o !in expiring && (o.OtherObject? || Recorded(next, o))
      invariant forall i :: 0 <= i < n ==> aged[i] in named || aged[i] in expiring || aged[i] in orphans
    {
      var o := aged[n];
      if o !in named && o !in expiring {
        var r := Deletion(o, at);
        if r.Some? && !Recorded(next, o) {
          if |next| >= MAX_CONDEMNED {
            return;
          }
          RecordedMore(next, r.value);
          assert r.value in next + [r.value];
          next, added := next + [r.value], added + 1;
        }
        orphans := orphans + [o];
      }
    }
  }

  // Every old object nothing names goes, unless the ledger is full.
  ghost predicate AllTaken(aged: seq<Object>, named: set<Object>, expiring: seq<Object>, orphans: seq<Object>,
                           next: seq<Condemned>) {
    || |next| >= MAX_CONDEMNED
    || forall i :: 0 <= i < |aged| ==> aged[i] in named || aged[i] in expiring || aged[i] in orphans
  }

  lemma RecordedMore(next: seq<Condemned>, r: Condemned)
    ensures forall o :: Recorded(next, o) ==> Recorded(next + [r], o)
  {
  }

  /******** Applying ********/

  datatype Outcome = Outcome(man: Manifest, objects: Objects, swapped: bool, expired: seq<Object>, orphans: seq<Object>,
                             named: set<Object>, repacked: nat, copied: nat)

  datatype Result = Refused | Applied(o: Outcome)

  // What a manifest names: the packs listed, the index objects, and the replaced ones still in their window.
  ghost predicate Names(man: Manifest, objects: Objects, o: Object) {
    match o
    case PackObject(name) => exists q :: Lists(man.indexes, objects, q) && q.name == name
    case IndexObject(sum) => sum in man.indexes || Marked(man, sum, CondemnedIndex)
    case OtherObject(_) => false
  }

  // An index object is listed or condemned, not both, and condemned once.
  ghost predicate Tidy(man: Manifest) {
    && (forall c :: c in man.condemned && c.kind == CondemnedIndex ==> c.sum !in man.indexes)
    && (forall c, d ::
          c in man.condemned && d in man.condemned && c.kind == d.kind == CondemnedIndex && c.sum == d.sum ==> c == d)
  }

  // The manifest after a round, from its plan and what was repacked.
  ghost predicate Updated(c: Case, p: Plan, cs: seq<Candidate>, n: nat, man: Manifest, objects: Objects,
                          made: seq<Info>, upd: Manifest, objects': Objects)
    requires n <= |cs| && forall k :: 0 <= k < |cs| ==> cs[k].i < |c.packs|
  {
    if p.expired == [] && n == 0 then
      upd.indexes == man.indexes && objects' == objects && upd.condemned == p.next && made == []
    else
      && Rewrites(man, objects, p.keep, made, upd.indexes, objects')
      && upd.condemned == p.next + RepackRecords(c.packs, cs, n, c.at) + IndexRecords(man.indexes, upd.indexes, c.at)
  }

  lemma UpdatedFollows(c: Case, p: Plan, cs: seq<Candidate>, n: nat, man: Manifest, objects: Objects, made: seq<Info>,
                       upd: Manifest, objects': Objects, next: seq<Condemned>)
    requires c.Valid() && n <= |cs| && Indexed(c.packs, cs) && Updated(c, p, cs, n, man, objects, made, upd, objects')
    requires forall r :: r in next ==> r in upd.condemned || r.kind in {DeletedPack, DeletedIndex}
    ensures Follows(c, p, cs, n, man, objects, made, upd.(condemned := next), objects')
  {
    hide Lists, IndexRecords, RepackRecords;
    forall r | r in next && r.kind in {CondemnedPack, RepackedPack} ensures r in p.next || exists k ::
      0 <= k < n && r.sum == c.packs[cs[k].i].name {
      if r !in p.next {
        var rs := RepackRecords(c.packs, cs, n, c.at);
        assert r in rs;
        var k :| 0 <= k < |rs| && rs[k] == r;
      }
    }
  }

  // Every live chunk credited to a pack not already repacked is held by a listed pack in service.
  ghost predicate AllKept(man: Manifest, packs: seq<Info>, recs: seq<Record<Loc>>, live: seq<Hash>, man': Manifest,
                          objects': Objects) {
    forall h, i ::
      h in live && 0 <= i < |packs| && CreditedTo(recs, h, i) && !Marked(man, packs[i].name, RepackedPack) ==>
        Kept(man', objects', h)
  }

  /** What a round starts from. */
  ghost predicate Begun(s: Setup, man: Manifest, objects: Objects, packs: seq<Info>, t: Table<Loc>, live: seq<Hash>) {
    && Loaded(man, objects, packs) && t.Valid() && SameFirsts(t.records, PackRecords(packs)) && SortedHashes(live)
    && SamePacks(objects) && AllWellFormed(objects) && (forall a :: a in man.indexes ==> a in objects)
    && NewNames(s, man, objects) && s.Seals() && s.TakesFirst() && Tidy(man)
  }

  ghost predicate CaseOf(s: Setup, man: Manifest, objects: Objects, packs: seq<Info>, t: Table<Loc>, live: seq<Hash>,
                         c: Case) {
    && c.Valid() && c.s == s && c.packs == packs && SortedOut(s, man.condemned, c.at, c.l)
    && CountsLive(t.records, live, c.count, c.frames)
    && (forall i :: 0 <= i < |packs| ==> Lists(man.indexes, objects, packs[i]) && WellFormed(packs[i]))
  }

  lemma UsedByLive(s: Setup, man: Manifest, objects: Objects, packs: seq<Info>, t: Table<Loc>, live: seq<Hash>, c: Case,
                   h: Hash, i: nat)
    requires CaseOf(s, man, objects, packs, t, live, c) && h in live && i < |packs| && CreditedTo(t.records, h, i)
    requires !Marked(man, packs[i].name, RepackedPack) && SameFirsts(t.records, PackRecords(packs))
    ensures i < |c.packs| == |c.count| && c.InUse(i) && Has(packs[i], h)
    ensures forall r :: r in c.l.next ==> r.kind !in {CondemnedPack, RepackedPack}
  {
    LiveInSome(t.records, live, i);
    CreditedHas(packs, t, i);
    hide LiveIn, First, CreditedTo, PackRecords, Has, WellFormed, Lists;
  }

  lemma SwapKeepsLive(s: Setup, man: Manifest, objects: Objects, packs: seq<Info>, t: Table<Loc>, live: seq<Hash>,
                      c: Case, p: Plan,
                      cs: seq<Candidate>, n: nat, made: seq<Info>, parts: seq<seq<Entry>>, man': Manifest,
                        objects': Objects)
    requires CaseOf(s, man, objects, packs, t, live, c) && SameFirsts(t.records, PackRecords(packs)) && c.Valid()
             && Planned(c, |c.packs|, p)
    requires n <= |cs| && Indexed(c.packs, cs) && Follows(c, p, cs, n, man, objects, made, man', objects')
    requires s.Seals() && Sealed(s, made, parts) && MovedOnce(t.records, live, cs, n, Concat(parts))
             && NewNames(s, man, objects)
    ensures AllKept(man, packs, t.records, live, man', objects')
  {
    hide *;
    CaseMeans(s, man, objects, packs, t, live, c);
    forall h, i | h in live && 0 <= i < |packs| && CreditedTo(t.records, h, i)
      && !Marked(man, packs[i].name, RepackedPack)
      ensures Kept(man', objects', h)
    {
      UsedByLive(s, man, objects, packs, t, live, c, h, i);
      if k :| 0 <= k < n && cs[k].i == i {
        ToMoveIs(t.records, live, i, h);
        MovesOver(c, p, cs, n, man, objects, made, man', objects', t.records, live, parts, k, h);
      } else {
        StaysPut(c, p, cs, n, man, objects, made, man', objects', i, h);
      }
    }
    AllKeptIs(man, packs, t.records, live, man', objects');
  }

  lemma ToMoveIs(recs: seq<Record<Loc>>, live: seq<Hash>, i: nat, h: Hash)
    requires h in live && CreditedTo(recs, h, i)
    ensures ToMove(recs, live, i, h)
  {
  }

  lemma AllKeptIs(man: Manifest, packs: seq<Info>, recs: seq<Record<Loc>>, live: seq<Hash>, man': Manifest,
                  objects': Objects)
    requires forall h, i ::
               h in live && 0 <= i < |packs| && CreditedTo(recs, h, i) && !Marked(man, packs[i].name, RepackedPack) ==>
                 Kept(man', objects', h)
    ensures AllKept(man, packs, recs, live, man', objects')
  {
    hide Kept, CreditedTo, Marked;
  }

  lemma CaseMeans(s: Setup, man: Manifest, objects: Objects, packs: seq<Info>, t: Table<Loc>, live: seq<Hash>, c: Case)
    requires CaseOf(s, man, objects, packs, t, live, c)
    ensures c.Valid() && c.s == s && c.packs == packs && |c.count| == |c.frames| == |packs|
    ensures forall i :: 0 <= i < |packs| ==> Lists(man.indexes, objects, packs[i]) && WellFormed(packs[i])
    ensures SortedOut(s, man.condemned, c.at, c.l)
  {
    hide Lists, WellFormed, SortedOut, CountsLive, Distinct;
  }

  // A round that finds nothing to change leaves every live chunk where it is, in service.
  lemma QuietKeepsLive(s: Setup, man: Manifest, objects: Objects, packs: seq<Info>, t: Table<Loc>, live: seq<Hash>,
                       c: Case, p: Plan)
    requires CaseOf(s, man, objects, packs, t, live, c) && SameFirsts(t.records, PackRecords(packs)) && c.Valid()
             && Planned(c, |c.packs|, p)
    requires p.reprieved == 0
    ensures AllKept(man, packs, t.records, live, man, objects)
  {
    hide *;
    CaseMeans(s, man, objects, packs, t, live, c);
    forall h, i | h in live && 0 <= i < |packs| && CreditedTo(t.records, h, i)
      && !Marked(man, packs[i].name, RepackedPack)
      ensures Kept(man, objects, h)
    {
      UsedByLive(s, man, objects, packs, t, live, c, h, i);
      NotCondemned(s, man, c, p, i);
      KeptIs(man, objects, packs[i], h);
    }
    AllKeptIs(man, packs, t.records, live, man, objects);
  }

  lemma NotCondemned(s: Setup, man: Manifest, c: Case, p: Plan, i: nat)
    requires c.Valid() && Planned(c, |c.packs|, p) && p.reprieved == 0 && i < |c.packs| && c.InUse(i)
             && SortedOut(s, man.condemned, c.at, c.l)
    ensures !OutOfService(man, c.packs[i].name)
  {
    assert c.packs[i].name !in c.l.packs && c.packs[i].name !in c.l.repacked;
  }

  lemma KeptIs(man: Manifest, objects: Objects, q: Info, h: Hash)
    requires Lists(man.indexes, objects, q) && Has(q, h) && !OutOfService(man, q.name)
    ensures Kept(man, objects, h)
  {
  }

  // The records of a round: those of its plan, the packs repacked and the index objects replaced, then orphans'.
  ghost predicate Records(c: Case, p: Plan, man: Manifest, indexes: seq<Sum>, next: seq<Condemned>)
  {
    forall r :: r in next && r.kind == CondemnedIndex ==>
      r in p.next || (r.at == c.at && r.sum in man.indexes && r.sum !in indexes)
  }

  lemma PlanIndexes(s: Setup, man: Manifest, c: Case, p: Plan, r: Condemned)
    requires c.Valid() && c.s == s && Planned(c, |c.packs|, p) && SortedOut(s, man.condemned, c.at, c.l) && r in p.next
             && r.kind == CondemnedIndex
    ensures r in man.condemned && !Over(c.at, r.at, s.grace)
  {
    assert r in c.l.next;
  }

  lemma StaysTidy(s: Setup, man: Manifest, objects: Objects, c: Case, p: Plan, man': Manifest)
    requires c.Valid() && c.s == s && Planned(c, |c.packs|, p) && SortedOut(s, man.condemned, c.at, c.l) && Tidy(man)
             && NewNames(s, man, objects)
    requires Records(c, p, man, man'.indexes, man'.condemned)
    requires man'.indexes == man.indexes || forall a :: a in man'.indexes ==> Sealing(s, a)
    ensures Tidy(man')
    ensures forall a :: a in c.l.expired ==> a !in man'.indexes && !Marked(man', a, CondemnedIndex)
  {
    forall r | r in p.next && r.kind == CondemnedIndex ensures r in man.condemned && !Over(c.at, r.at, s.grace) {
      PlanIndexes(s, man, c, p, r);
    }
    forall a | a in c.l.expired ensures exists d ::
      d in man.condemned && d.kind == CondemnedIndex && d.sum == a && Over(c.at, d.at, s.grace) {
    }
    forall a | a in man'.indexes ensures a in man.indexes || !Marked(man, a, CondemnedIndex) {
      if a !in man.indexes {
        var batch :| s.encode(batch) == a;
      }
    }
    hide Planned, SortedOut, NewNames, Over;
  }

  // The objects a round says the manifest now names.
  ghost predicate NamesAll(p: Plan, made: seq<Info>, indexes: seq<Sum>, next: seq<Condemned>, named: set<Object>) {
    forall o :: o in named <==>
      match o
      case PackObject(name) => name in p.keep || exists q :: q in made && q.name == name
      case IndexObject(sum) => sum in indexes || exists r :: r in next && r.kind == CondemnedIndex && r.sum == sum
      case OtherObject(_) => false
  }

  lemma NamedRight(c: Case, p: Plan, cs: seq<Candidate>, n: nat, man: Manifest, objects: Objects, made: seq<Info>,
                   upd: Manifest, objects': Objects, named: set<Object>, o: Object)
    requires c.Valid() && Planned(c, |c.packs|, p) && n <= |cs| && (forall k :: 0 <= k < |cs| ==> cs[k].i < |c.packs|)
    requires Updated(c, p, cs, n, man, objects, made, upd, objects') && Loaded(man, objects, c.packs)
    requires NamesAll(p, made, upd.indexes, upd.condemned, named) && Names(upd, objects', o)
    ensures o in named
  {
    if o.PackObject? {
      var q :| Lists(upd.indexes, objects', q) && q.name == o.name;
      if p.expired == [] && n == 0 {
        assert Named(c.packs, q.name);
        var i :| 0 <= i < |c.packs| && c.packs[i].name == q.name;
        assert c.packs[i].name !in p.expired;
      }
    }
  }

  lemma ExpiredGone(c: Case, p: Plan, cs: seq<Candidate>, n: nat, man: Manifest, objects: Objects, made: seq<Info>,
                    parts: seq<seq<Entry>>, upd: Manifest, objects': Objects, name: Name)
    requires c.Valid() && Planned(c, |c.packs|, p) && n <= |cs| && (forall k :: 0 <= k < |cs| ==> cs[k].i < |c.packs|)
    requires Updated(c, p, cs, n, man, objects, made, upd, objects') && Sealed(c.s, made, parts)
             && NewNames(c.s, man, objects)
    requires (forall i :: 0 <= i < |c.packs| ==> Lists(man.indexes, objects, c.packs[i])) && name in p.expired
    ensures !Names(upd, objects', PackObject(name))
  {
    var i :| 0 <= i < |c.packs| && c.packs[i].name == name;
    assert c.Dies(i) && name !in p.keep;
    assert Lists(man.indexes, objects, c.packs[i]);
    forall q | q in made ensures q.name != name {
      var k :| 0 <= k < |made| && made[k] == q;
      assert q == c.s.seal(parts[k]);
    }
    hide Lists, NewNames, Sealed, KeptRight, NextRight, CandidatesRight, ReprievedRight;
  }

  /** The host's repacking policy; zero values stand for the defaults. */
  datatype Repack = Repack(maxLive: real, budget: int, off: bool)
  {
    function Resolved(): Option<Policy> {
      var m := if maxLive == 0.0 then 0.5 else maxLive;
      var b := if budget == 0 then 0x4000_0000 else budget;
      if m < 0.0 || m > 1.0 || b < 0 then None else Some(Policy(m, b, off))
    }
  }

  // Writes the manifest's index objects again if packs left or came.
  method Update(c: Case, p: Plan, cs: seq<Candidate>, n: nat, man: Manifest, objects: Objects, made: seq<Info>)
    returns (upd: Manifest, objects': Objects)
    requires n <= |cs| && (forall k :: 0 <= k < |cs| ==> cs[k].i < |c.packs|)
             && (p.expired == [] && n == 0 ==> made == [])
    requires (forall a :: a in man.indexes ==> a in objects) && SamePacks(objects) && NewNames(c.s, man, objects)
    ensures Updated(c, p, cs, n, man, objects, made, upd, objects') && upd.root == man.root
            && upd.seqNo == man.seqNo + 1
    ensures upd.indexes == man.indexes || forall a :: a in upd.indexes ==> Sealing(c.s, a)
    ensures |upd.condemned| == LedgerSize(p, man, n)
    ensures forall r :: r in upd.condemned && r.kind == CondemnedIndex ==>
              r in p.next || (r.at == c.at && r.sum in man.indexes && r.sum !in upd.indexes)
  {
    upd, objects' := man.(seqNo := man.seqNo + 1, condemned := p.next), objects;
    if |p.expired| > 0 || n > 0 {
      NewEncodes(c.s, man, objects);
      hide Rewrites, Sealing, NewNames, SamePacks;
      var sums;
      sums, objects' := WriteIndexes(c.s, man, objects, p.keep, made);
      AllReplaced(c.s, man, objects, sums, c.at);
      upd := upd.(indexes := sums, gcGen := man.gcGen + 1,
                  condemned := p.next + RepackRecords(c.packs, cs, n, c.at) + IndexRecords(man.indexes, sums, c.at));
    }
  }

  // How many records the new manifest has before orphans: those the plan leaves, and when the index is written anew
  // one for each pack repacked and each old index object.
  ghost function LedgerSize(p: Plan, man: Manifest, repacked: nat): nat {
    |p.next| + if p.expired == [] && repacked == 0 then 0 else repacked + |man.indexes|
  }

  lemma {:induction false} IndexRecordsAll(indexes: seq<Sum>, sums: seq<Sum>, at: int)
    requires forall a :: a in indexes ==> a !in sums
    ensures |IndexRecords(indexes, sums, at)| == |indexes|
    decreases |indexes|
  {
    if indexes != [] {
      IndexRecordsAll(indexes[..|indexes| - 1], sums, at);
    }
  }

  // New index objects are none of the old ones.
  lemma AllReplaced(s: Setup, man: Manifest, objects: Objects, sums: seq<Sum>, at: int)
    requires NewNames(s, man, objects) && (forall a :: a in sums ==> Sealing(s, a))
    requires forall a :: a in man.indexes ==> a in objects
    ensures |IndexRecords(man.indexes, sums, at)| == |man.indexes|
  {
    forall a | a in sums ensures a !in objects {
      var batch :| s.encode(batch) == a;
    }
    IndexRecordsAll(man.indexes, sums, at);
  }

  lemma NewEncodes(s: Setup, man: Manifest, objects: Objects)
    requires NewNames(s, man, objects)
    ensures Encodes(s, objects) && Injective(s)
  {
  }

  // The set of objects a manifest names.
  method NameAll(p: Plan, made: seq<Info>, upd: Manifest) returns (named: set<Object>)
    ensures NamesAll(p, made, upd.indexes, upd.condemned, named)
  {
    named := (set name | name in p.keep :: PackObject(name)) + (set q | q in made :: PackObject(q.name))
             + (set sum | sum in upd.indexes :: IndexObject(sum))
             + (set r | r in upd.condemned && r.kind == CondemnedIndex :: IndexObject(r.sum));
  }

  // What a round promises of the manifest it leaves.
  ghost predicate Right(man: Manifest, packs: seq<Info>, recs: seq<Record<Loc>>, live: seq<Hash>, o: Outcome) {
    && AllKept(man, packs, recs, live, o.man, o.objects) && Tidy(o.man) && o.man.root == man.root
    // What it names it says it names, and it deletes nothing named.
    && (forall x :: Names(o.man, o.objects, x) ==> x in o.named)
    && (forall x :: x in o.expired || x in o.orphans ==> !Names(o.man, o.objects, x))
    // An orphan's deletion is on record before it is deleted.
    && (forall x :: x in o.orphans ==> x.OtherObject? || Recorded(o.man.condemned, x))
  }

  lemma BegunMeans(s: Setup, man: Manifest, objects: Objects, packs: seq<Info>, t: Table<Loc>, live: seq<Hash>)
    requires Begun(s, man, objects, packs, t, live)
    ensures Loaded(man, objects, packs) && t.Valid() && SameFirsts(t.records, PackRecords(packs)) && SortedHashes(live)
    ensures SamePacks(objects) && (forall a :: a in man.indexes ==> a in objects) && NewNames(s, man, objects)
            && s.Seals() && Tidy(man)
    ensures s.TakesFirst()
    ensures Distinct(packs)
    ensures forall i ::
              0 <= i < |packs| ==> Lists(man.indexes, objects, packs[i]) && WellFormed(packs[i]) && packs[i].size > 0
  {
    hide Tables.SameFirsts, PackRecords, NewNames, Setup.Seals, Setup.TakesFirst, Tidy, SortedHashes, Named,
      ServiceFirst, Table.Valid, Has;
    forall i | 0 <= i < |packs| ensures Lists(man.indexes, objects, packs[i]) && WellFormed(packs[i])
      && packs[i].size > 0 {
      assert Lists(man.indexes, objects, packs[i]);
      var a :| a in man.indexes && a in objects && packs[i] in objects[a];
    }
  }

  lemma CaseIs(s: Setup, man: Manifest, objects: Objects, packs: seq<Info>, t: Table<Loc>, live: seq<Hash>, c: Case)
    requires |c.count| == |c.frames| == |packs| && c.s == s && c.packs == packs && Distinct(packs)
    requires SortedOut(s, man.condemned, c.at, c.l) && CountsLive(t.records, live, c.count, c.frames)
    requires forall i ::
               0 <= i < |packs| ==> Lists(man.indexes, objects, packs[i]) && WellFormed(packs[i]) && packs[i].size > 0
    ensures c.Valid() && CaseOf(s, man, objects, packs, t, live, c)
  {
    hide Lists, WellFormed, SortedOut, CountsLive, Distinct;
  }

  lemma CandidatesMean(c: Case, p: Plan)
    requires c.Valid() && Planned(c, |c.packs|, p)
    ensures Indexed(c.packs, p.candidates) && DistinctCandidates(p.candidates)
  {
    assert CandidatesRight(c, |c.packs|, p);
    hide KeptRight, NextRight, ReprievedRight, Leaves;
  }

  // The manifest swapped in is right.
  lemma SwapRight(s: Setup, man: Manifest, objects: Objects, packs: seq<Info>, t: Table<Loc>, live: seq<Hash>, c: Case,
                  p: Plan,
                  cs: seq<Candidate>, n: nat, made: seq<Info>, parts: seq<seq<Entry>>, upd: Manifest, o: Outcome)
    requires Begun(s, man, objects, packs, t, live) && CaseOf(s, man, objects, packs, t, live, c) && c.Valid()
             && Planned(c, |c.packs|, p)
    requires n <= |cs| && Indexed(c.packs, cs) && (forall k :: 0 <= k < |cs| ==> cs[k].i < |c.packs|)
    requires Sealed(s, made, parts) && MovedOnce(t.records, live, cs, n, Concat(parts))
    requires Updated(c, p, cs, n, man, objects, made, upd, o.objects) && upd.root == man.root
    requires upd.indexes == man.indexes || forall a :: a in upd.indexes ==> Sealing(s, a)
    requires forall r ::
               r in upd.condemned && r.kind == CondemnedIndex ==>
                 r in p.next || (r.at == c.at && r.sum in man.indexes && r.sum !in upd.indexes)
    requires o.man == upd.(condemned := o.man.condemned) && upd.condemned <= o.man.condemned
    requires forall r :: r in o.man.condemned ==> r in upd.condemned || r.kind in {DeletedPack, DeletedIndex}
    requires NamesAll(p, made, upd.indexes, upd.condemned, o.named)
    requires forall x ::
               x in o.expired <==> (x.IndexObject? && x.sum in c.l.expired) || (x.PackObject? && x.name in p.expired)
    requires forall x :: x in o.orphans ==> x !in o.named && (x.OtherObject? || Recorded(o.man.condemned, x))
    ensures Right(man, packs, t.records, live, o)
  {
    hide *;
    BegunMeans(s, man, objects, packs, t, live);
    CaseMeans(s, man, objects, packs, t, live, c);
    UpdatedFollows(c, p, cs, n, man, objects, made, upd, o.objects, o.man.condemned);
    SwapKeepsLive(s, man, objects, packs, t, live, c, p, cs, n, made, parts, o.man, o.objects);
    RecordsAre(c, p, man, upd, o.man);
    StaysTidy(s, man, objects, c, p, o.man);
    forall x | Names(o.man, o.objects, x) ensures x in o.named {
      SameNames(upd, o.man, o.objects, x);
      NamedRight(c, p, cs, n, man, objects, made, upd, o.objects, o.named, x);
    }
    forall x | x in o.expired ensures !Names(o.man, o.objects, x) {
      SameNames(upd, o.man, o.objects, x);
      if x.PackObject? {
        ExpiredGone(c, p, cs, n, man, objects, made, parts, upd, o.objects, x.name);
        assert x == PackObject(x.name);
      } else {
        IndexNames(o.man, o.objects, x.sum);
        assert x == IndexObject(x.sum);
      }
    }
    RightIs(man, packs, t.records, live, o);
  }

  lemma IndexNames(man: Manifest, objects: Objects, sum: Sum)
    ensures Names(man, objects, IndexObject(sum)) <==> sum in man.indexes || Marked(man, sum, CondemnedIndex)
  {
  }

  lemma RecordsAre(c: Case, p: Plan, man: Manifest, upd: Manifest, man': Manifest)
    requires man' == upd.(condemned := man'.condemned) && upd.condemned <= man'.condemned
    requires forall r :: r in man'.condemned ==> r in upd.condemned || r.kind in {DeletedPack, DeletedIndex}
    requires forall r ::
               r in upd.condemned && r.kind == CondemnedIndex ==>
                 r in p.next || (r.at == c.at && r.sum in man.indexes && r.sum !in upd.indexes)
    ensures Records(c, p, man, man'.indexes, man'.condemned)
  {
  }

  // The orphans' records name nothing.
  lemma SameNames(upd: Manifest, man': Manifest, objects: Objects, x: Object)
    requires man' == upd.(condemned := man'.condemned) && upd.condemned <= man'.condemned
    requires forall r :: r in man'.condemned ==> r in upd.condemned || r.kind in {DeletedPack, DeletedIndex}
    ensures Names(man', objects, x) <==> Names(upd, objects, x)
  {
    assert forall r :: r in upd.condemned ==> r in man'.condemned;
    hide Lists;
  }

  lemma RightIs(man: Manifest, packs: seq<Info>, recs: seq<Record<Loc>>, live: seq<Hash>, o: Outcome)
    requires AllKept(man, packs, recs, live, o.man, o.objects) && Tidy(o.man) && o.man.root == man.root
    requires forall x :: Names(o.man, o.objects, x) ==> x in o.named
    requires forall x :: x in o.expired ==> !Names(o.man, o.objects, x)
    requires forall x :: x in o.orphans ==> x !in o.named && (x.OtherObject? || Recorded(o.man.condemned, x))
    ensures Right(man, packs, recs, live, o)
  {
    hide AllKept, Tidy, Names, Recorded;
  }

  // A round with nothing to record leaves the manifest it read, and that is right too.
  lemma QuietRight(s: Setup, man: Manifest, objects: Objects, packs: seq<Info>, t: Table<Loc>, live: seq<Hash>, c: Case,
                   p: Plan,
                   cs: seq<Candidate>, upd: Manifest, o: Outcome)
    requires Begun(s, man, objects, packs, t, live) && CaseOf(s, man, objects, packs, t, live, c) && c.Valid()
             && Planned(c, |c.packs|, p)
    requires p.expired == [] && c.l.expired == [] && p.reprieved == 0
             && (forall k :: 0 <= k < |cs| ==> cs[k].i < |c.packs|)
    requires Updated(c, p, cs, 0, man, objects, [], upd, objects) && o.man == man && o.objects == objects
             && o.expired == []
    requires NamesAll(p, [], upd.indexes, upd.condemned, o.named)
    requires forall x :: x in o.orphans ==> x !in o.named && (x.OtherObject? || Recorded(upd.condemned, x))
    ensures Right(man, packs, t.records, live, o)
  {
    hide *;
    BegunMeans(s, man, objects, packs, t, live);
    CaseMeans(s, man, objects, packs, t, live, c);
    QuietKeepsLive(s, man, objects, packs, t, live, c, p);
    forall x | Names(man, objects, x) ensures x in o.named {
      QuietNames(s, man, objects, c, p, cs, upd, x);
      NamedRight(c, p, cs, 0, man, objects, [], upd, objects, o.named, x);
    }
    forall x | x in o.orphans && !x.OtherObject? ensures Recorded(man.condemned, x) {
      QuietRecorded(s, man, objects, c, p, cs, upd, x);
    }
    RightIs(man, packs, t.records, live, o);
  }

  lemma QuietNames(s: Setup, man: Manifest, objects: Objects, c: Case, p: Plan, cs: seq<Candidate>, upd: Manifest,
                   x: Object)
    requires c.Valid() && c.s == s && Planned(c, |c.packs|, p) && SortedOut(s, man.condemned, c.at, c.l)
             && p.expired == [] && c.l.expired == []
    requires (forall k :: 0 <= k < |cs| ==> cs[k].i < |c.packs|) && Updated(c, p, cs, 0, man, objects, [], upd, objects)
             && Names(man, objects, x)
    ensures Names(upd, objects, x)
  {
    hide Lists, KeptRight, CandidatesRight, ReprievedRight, Rewrites, OnRecord;
    if x.IndexObject? && x.sum !in man.indexes {
      var r :| r in man.condemned && r.kind == CondemnedIndex && r.sum == x.sum;
      assert x.sum !in c.l.expired;
      assert r in c.l.next;
      assert r in upd.condemned;
    }
  }

  lemma QuietRecorded(s: Setup, man: Manifest, objects: Objects, c: Case, p: Plan, cs: seq<Candidate>, upd: Manifest,
                      x: Object)
    requires c.Valid() && c.s == s && Planned(c, |c.packs|, p) && SortedOut(s, man.condemned, c.at, c.l)
             && p.expired == []
    requires (forall k :: 0 <= k < |cs| ==> cs[k].i < |c.packs|) && Updated(c, p, cs, 0, man, objects, [], upd, objects)
             && Recorded(upd.condemned, x)
    ensures Recorded(man.condemned, x)
  {
    hide Lists, KeptRight, CandidatesRight, ReprievedRight, Rewrites;
    var r :| r in upd.condemned && Deletion(x, r.at) == Some(r);
    assert r in p.next && r.kind in {DeletedPack, DeletedIndex};
    assert r in c.l.next;
  }

  // The round carried out the plan of its case.
  ghost predicate Executes(s: Setup, man: Manifest, objects: Objects, packs: seq<Info>, t: Table<Loc>, live: seq<Hash>,
                           at: int, c: Case, p: Plan, o: Outcome) {
    && c.at == at && CaseOf(s, man, objects, packs, t, live, c) && c.Valid() && Planned(c, |c.packs|, p)
    && (forall x ::
          x in o.expired <==> (x.IndexObject? && x.sum in c.l.expired) || (x.PackObject? && x.name in p.expired))
    && (if o.swapped then (forall r :: r in p.next ==> r in o.man.condemned) && Ledgered(p, man, o)
        else o.man == man && o.objects == objects && p.condemned == 0 && p.reprieved == 0 && o.expired == [])
  }

  // A manifest can be opened again only with so many records.
  ghost predicate Reopens(man: Manifest) {
    |man.condemned| <= MAX_CONDEMNED
  }

  // The new manifest can be opened again exactly when what it must record fits.
  ghost predicate Ledgered(p: Plan, man: Manifest, o: Outcome) {
    Reopens(o.man) <==> LedgerSize(p, man, o.repacked) <= MAX_CONDEMNED
  }

  lemma ExecutesIs(s: Setup, man: Manifest, objects: Objects, packs: seq<Info>, t: Table<Loc>, live: seq<Hash>, at: int,
                   c: Case, p: Plan, o: Outcome)
    requires c.at == at && CaseOf(s, man, objects, packs, t, live, c) && c.Valid() && Planned(c, |c.packs|, p)
    requires forall x ::
               x in o.expired <==> (x.IndexObject? && x.sum in c.l.expired) || (x.PackObject? && x.name in p.expired)
    requires o.swapped ==> (forall r :: r in p.next ==> r in o.man.condemned) && Ledgered(p, man, o)
    requires !o.swapped ==>
               o.man == man && o.objects == objects && p.condemned == 0 && p.reprieved == 0 && o.expired == []
    ensures Executes(s, man, objects, packs, t, live, at, c, p, o)
  {
    hide CaseOf, Planned;
  }

  lemma PlanIn(c: Case, p: Plan, cs: seq<Candidate>, n: nat, man: Manifest, objects: Objects, made: seq<Info>,
               upd: Manifest, objects': Objects)
    requires n <= |cs| && (forall k :: 0 <= k < |cs| ==> cs[k].i < |c.packs|)
             && Updated(c, p, cs, n, man, objects, made, upd, objects')
    ensures forall r :: r in p.next ==> r in upd.condemned
  {
    hide Rewrites;
  }

  // A loaded table credits chunks to loaded packs only.
  lemma LoadedInRange(packs: seq<Info>, t: Table<Loc>, live: seq<Hash>)
    requires SameFirsts(t.records, PackRecords(packs))
    ensures !exists h :: h in live && First(t.records, h).Some? && First(t.records, h).value.pack >= |packs|
  {
    forall h | First(t.records, h).Some? ensures First(t.records, h).value.pack < |packs| {
      CreditIs(packs, h);
    }
  }

  // The packs a round made: what it lists and did not find listed. No two hold the same chunk, and they hold live
  // chunks only.
  ghost predicate CopiedOnce(man: Manifest, objects: Objects, live: seq<Hash>, o: Outcome) {
    exists made: seq<Info> :: MadeOnce(live, made) && NewlyListed(man, objects, o.man, o.objects, made)
  }

  ghost predicate MadeOnce(live: seq<Hash>, made: seq<Info>) {
    && (forall i, j, h :: 0 <= i < j < |made| && Has(made[i], h) ==> !Has(made[j], h))
    && (forall i, h :: 0 <= i < |made| && Has(made[i], h) ==> h in live)
  }

  ghost predicate NewlyListed(man: Manifest, objects: Objects, man': Manifest, objects': Objects, made: seq<Info>) {
    forall q :: Lists(man'.indexes, objects', q) ==> Lists(man.indexes, objects, q) || q in made
  }

  lemma {:induction false} PartsApart(parts: seq<seq<Entry>>, i: nat, j: nat, h: Hash)
    requires OneEach(Concat(parts)) && i < j < |parts| && Holding(parts[i], h)
    ensures !Holding(parts[j], h)
    decreases |parts|
  {
    var init, last := parts[..|parts| - 1], parts[|parts| - 1];
    var a := Concat(init);
    assert Concat(parts) == a + last;
    if j < |init| {
      assert forall x, y :: 0 <= x < y < |a| ==> (a + last)[x] == a[x] && (a + last)[y] == a[y];
      PartsApart(init, i, j, h);
    } else {
      hide Concat;
      JoinedHolding(init, h);
      assert Holding(init[i], h);
      var x :| 0 <= x < |a| && a[x].hash == h;
      assert forall y :: 0 <= y < |last| ==> (a + last)[|a| + y] == last[y] && (a + last)[x] == a[x];
    }
  }

  lemma SealedOnce(s: Setup, recs: seq<Record<Loc>>, live: seq<Hash>, cs: seq<Candidate>, n: nat, made: seq<Info>,
                   parts: seq<seq<Entry>>)
    requires s.Seals() && Sealed(s, made, parts) && MovedOnce(recs, live, cs, n, Concat(parts))
    ensures MadeOnce(live, made)
  {
    hide Concat, Has, Holding;
    forall i, j, h | 0 <= i < j < |made| && Has(made[i], h) ensures !Has(made[j], h) {
      assert Holding(parts[i], h);
      PartsApart(parts, i, j, h);
    }
    forall i, h | 0 <= i < |made| && Has(made[i], h) ensures h in live {
      assert Holding(parts[i], h);
      JoinedHolding(parts, h);
      assert Chosen(recs, live, cs, n, h);
    }
  }

  lemma UpdatedLists(c: Case, p: Plan, cs: seq<Candidate>, n: nat, man: Manifest, objects: Objects, made: seq<Info>,
                     upd: Manifest, objects': Objects, man': Manifest)
    requires n <= |cs| && (forall k :: 0 <= k < |cs| ==> cs[k].i < |c.packs|)
             && Updated(c, p, cs, n, man, objects, made, upd, objects')
    requires man'.indexes == upd.indexes
    ensures NewlyListed(man, objects, man', objects', made)
  {
    hide Lists;
  }

  lemma CopiedIs(man: Manifest, objects: Objects, live: seq<Hash>, o: Outcome, made: seq<Info>)
    requires MadeOnce(live, made) && NewlyListed(man, objects, o.man, o.objects, made)
    ensures CopiedOnce(man, objects, live, o)
  {
  }

  lemma QuietCopied(man: Manifest, objects: Objects, live: seq<Hash>, o: Outcome)
    requires o.man == man && o.objects == objects
    ensures CopiedOnce(man, objects, live, o)
  {
    CopiedIs(man, objects, live, o, []);
  }

  /** A whole round: the manifest to swap in and what may be deleted after it. */
  method Apply(s: Setup, man: Manifest, objects: Objects, packs: seq<Info>, t: Table<Loc>, live: seq<Hash>,
               aged: seq<Object>, at: int, repack: Repack)
    returns (r: Result)
    requires Begun(s, man, objects, packs, t, live)
    ensures r.Applied? ==> Right(man, packs, t.records, live, r.o)
    ensures r.Applied? ==> exists c, p :: Executes(s, man, objects, packs, t, live, at, c, p, r.o)
    ensures r.Applied? ==> Aged(man, at, s.grace, r.o.expired)
    ensures r.Applied? ==> CopiedOnce(man, objects, live, r.o)
    ensures r.Applied? && r.o.swapped ==> AllTaken(aged, r.o.named, r.o.expired, r.o.orphans, r.o.man.condemned)
    ensures r.Refused? <==> man.root !in live || repack.Resolved().None?
  {
    hide *;
    BegunMeans(s, man, objects, packs, t, live);
    if man.root !in live {
      return Refused;
    }
    var policy := repack.Resolved();
    if policy.None? {
      return Refused;
    }
    var count, frames, ok := Join(|packs|, t, live);
    LoadedInRange(packs, t, live);
    if !ok {
      assert false;
    }
    var l := SortOut(s, man, at);
    var c := Case(s, at, l, packs, count[..], frames[..], policy.value);
    CaseIs(s, man, objects, packs, t, live, c);
    var p := Decide(c);
    CandidatesMean(c, p);
    var cs, n, made, copied;
    cs, n, made, copied, ok := CopyLive(s, packs, t, live, p.candidates, policy.value.budget);
    FirstTaken(s);
    if !ok {
      assert false;
    }
    ghost var parts :| Copies(s, t.records, live, cs, n, made, copied, parts);
    CopiesIs(s, t.records, live, cs, n, made, copied, parts);
    IndexedAll(packs, cs);
    var upd, objects' := Update(c, p, cs, n, man, objects, made);
    var named := NameAll(p, made, upd);
    var expired := seq(|l.expired|, k requires 0 <= k < |l.expired| => IndexObject(l.expired[k]))
                   + seq(|p.expired|, k requires 0 <= k < |p.expired| => PackObject(p.expired[k]));
    ExpiredAre(l.expired, p.expired, expired);
    var next, orphans, added := RecordOrphans(upd.condemned, aged, named, expired, at);
    if p.condemned == 0 && p.reprieved == 0 && |expired| == 0 && added == 0 && l.lapsed == 0 && n == 0 {
      var o := Outcome(man, objects, false, [], orphans, named, 0, 0);
      QuietObjects(c, p, cs, man, objects, upd, objects');
      QuietRight(s, man, objects, packs, t, live, c, p, cs, upd, o);
      ExpiredAged(s, man, objects, packs, t, live, c, p, o);
      ExecutesIs(s, man, objects, packs, t, live, at, c, p, o);
      QuietCopied(man, objects, live, o);
      return Applied(o);
    }
    var o := Outcome(upd.(condemned := next), objects', true, expired, orphans, named, n, copied);
    SwapRight(s, man, objects, packs, t, live, c, p, cs, n, made, parts, upd, o);
    PlanIn(c, p, cs, n, man, objects, made, upd, objects');
    LedgeredIs(p, man, o);
    ExpiredAged(s, man, objects, packs, t, live, c, p, o);
    ExecutesIs(s, man, objects, packs, t, live, at, c, p, o);
    SealedOnce(s, t.records, live, cs, n, made, parts);
    UpdatedLists(c, p, cs, n, man, objects, made, upd, objects', o.man);
    CopiedIs(man, objects, live, o, made);
    r := Applied(o);
  }

  lemma LedgeredIs(p: Plan, man: Manifest, o: Outcome)
    requires |o.man.condemned| <= MAX_CONDEMNED <==> LedgerSize(p, man, o.repacked) <= MAX_CONDEMNED
    ensures Ledgered(p, man, o)
  {
    hide LedgerSize;
  }

  // What expires has been on record for the grace window.
  ghost predicate Aged(man: Manifest, at: int, grace: nat, expired: seq<Object>) {
    && (forall x :: x in expired && x.PackObject? ==>
          exists r :: r in man.condemned && r.kind in {CondemnedPack, RepackedPack} && r.sum == x.name
                      && Over(at, r.at, grace))
    && (forall x :: x in expired && x.IndexObject? ==>
          exists r :: r in man.condemned && r.kind == CondemnedIndex && r.sum == x.sum && Over(at, r.at, grace))
    && (forall x :: x in expired ==> !x.OtherObject?)
  }

  lemma ExpiredAged(s: Setup, man: Manifest, objects: Objects, packs: seq<Info>, t: Table<Loc>, live: seq<Hash>,
                    c: Case,
                    p: Plan, o: Outcome)
    requires CaseOf(s, man, objects, packs, t, live, c) && c.Valid() && Planned(c, |c.packs|, p)
    requires forall x ::
               x in o.expired <==> (x.IndexObject? && x.sum in c.l.expired) || (x.PackObject? && x.name in p.expired)
    ensures Aged(man, c.at, s.grace, o.expired)
  {
    assert KeptRight(c, |c.packs|, p) && SortedOut(s, man.condemned, c.at, c.l);
    hide CaseOf, Planned, KeptRight, SortedOut;
    forall x | x in o.expired && x.PackObject?
      ensures exists r :: r in man.condemned && r.kind in {CondemnedPack, RepackedPack} && r.sum == x.name
                          && Over(c.at, r.at, s.grace)
    {
      DeadAged(s, man, objects, packs, t, live, c, p, x.name);
    }
    IndexAged(s, man.condemned, c.at, c.l);
  }

  lemma IndexAged(s: Setup, cs: seq<Condemned>, at: int, l: Ledger)
    requires SortedOut(s, cs, at, l)
    ensures forall a ::
              a in l.expired ==>
                exists c :: c in cs && c.kind == CondemnedIndex && c.sum == a && Over(at, c.at, s.grace)
  {
    hide Since, StaysOf;
  }

  lemma DeadAged(s: Setup, man: Manifest, objects: Objects, packs: seq<Info>, t: Table<Loc>, live: seq<Hash>, c: Case,
                 p: Plan, name: Name)
    requires CaseOf(s, man, objects, packs, t, live, c) && KeptRight(c, |c.packs|, p) && name in p.expired
    ensures exists r :: r in man.condemned && r.kind in {CondemnedPack, RepackedPack} && r.sum == name
                        && Over(c.at, r.at, s.grace)
  {
    hide Lists, WellFormed, CountsLive, StaysOf, Distinct;
    var i :| 0 <= i < |c.packs| && c.packs[i].name == name;
    assert c.Dies(i);
    var r := if name in c.l.repacked then Condemned(RepackedPack, name, c.l.repacked[name])
             else Condemned(CondemnedPack, name, c.l.packs[name]);
    assert r in man.condemned;
  }

  lemma FirstTaken(s: Setup)
    requires s.TakesFirst()
    ensures !exists e :: s.full([], e)
  {
  }

  lemma IndexedAll(packs: seq<Info>, cs: seq<Candidate>)
    requires Indexed(packs, cs)
    ensures forall k :: 0 <= k < |cs| ==> cs[k].i < |packs|
  {
  }

  lemma QuietObjects(c: Case, p: Plan, cs: seq<Candidate>, man: Manifest, objects: Objects, upd: Manifest,
                     objects': Objects)
    requires (forall k :: 0 <= k < |cs| ==> cs[k].i < |c.packs|) && p.expired == []
             && Updated(c, p, cs, 0, man, objects, [], upd, objects')
    ensures objects' == objects
  {
  }

  lemma ExpiredAre(sums: seq<Sum>, names: seq<Name>, expired: seq<Object>)
    requires expired == seq(|sums|, k requires 0 <= k < |sums| => IndexObject(sums[k]))
             + seq(|names|, k requires 0 <= k < |names| => PackObject(names[k]))
    ensures forall x :: x in expired <==> (x.IndexObject? && x.sum in sums) || (x.PackObject? && x.name in names)
    ensures |expired| == 0 <==> sums == [] && names == []
  {
    forall x ensures x in expired <==> (x.IndexObject? && x.sum in sums) || (x.PackObject? && x.name in names) {
      if x.IndexObject? && x.sum in sums {
        var k :| 0 <= k < |sums| && sums[k] == x.sum;
        assert expired[k] == x;
      }
      if x.PackObject? && x.name in names {
        var k :| 0 <= k < |names| && names[k] == x.name;
        assert expired[|sums| + k] == x;
      }
    }
  }
}
