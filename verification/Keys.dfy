/** Keys are byte strings under `bytes.Compare`. An order-preserving map into the reals turns that
    order into `<`; proofs about sorted runs of entries reason on ranks. */
module Keys {
  newtype byte = x: int | 0 <= x < 256
  type Key = seq<byte>

  // Lexicographic order; a proper prefix comes first.
  predicate Less(a: Key, b: Key) {
    b != [] && (a == [] || a[0] < b[0] || (a[0] == b[0] && Less(a[1..], b[1..])))
  }

  lemma {:induction false} LessTrichotomy(a: Key, b: Key)
    ensures Less(a, b) || a == b || Less(b, a)
  {
    if a != [] && b != [] {
      LessTrichotomy(a[1..], b[1..]);
      assert a == [a[0]] + a[1..] && b == [b[0]] + b[1..];
    }
  }

  // A point of [0, 1): the key read as base-257 digits, each one more than its byte.
  ghost function Place(k: Key): (r: real)
    ensures 0.0 <= r < 1.0
  {
    if k == [] then 0.0 else (k[0] as int as real + 1.0 + Place(k[1..])) / 257.0
  }

  lemma {:induction false} PlaceMonotone(a: Key, b: Key)
    ensures Less(a, b) ==> Place(a) < Place(b)
  {
    if a != [] && b != [] {
      PlaceMonotone(a[1..], b[1..]);
    }
  }

  ghost predicate OrderMap(f: Key -> real) {
    && (forall a, b {:trigger Less(a, b)} :: Less(a, b) <==> f(a) < f(b))
    && (forall a :: 0.0 <= f(a))
  }

  lemma PlaceOrders()
    ensures OrderMap(Place)
  {
    forall a, b
      ensures Less(a, b) <==> Place(a) < Place(b)
    {
      PlaceMonotone(a, b);
      PlaceMonotone(b, a);
      LessTrichotomy(a, b);
    }
  }

  ghost function Ranking(): (f: Key -> real)
    ensures OrderMap(f)
  {
    PlaceOrders();
    var f :| OrderMap(f);
    f
  }

  ghost function KeyAt(r: real): Key {
    if exists k :: Ranking()(k) == r then var k :| Ranking()(k) == r; k else []
  }

  ghost function Rank(k: Key): (r: real)
    ensures KeyAt(r) == k
    ensures 0.0 <= r
  {
    var r := Ranking()(k);
    var k' := KeyAt(r);
    LessTrichotomy(k, k');
    r
  }

  // Comparing ranks is comparing keys byte by byte.
  lemma RankOrders(a: Key, b: Key)
    ensures Less(a, b) <==> Rank(a) < Rank(b)
    ensures Rank(a) == Rank(b) <==> a == b
  {
    LessTrichotomy(a, b);
  }

  // Three-way lexicographic comparison.
  method Compare(a: Key, b: Key) returns (c: int)
    ensures c < 0 <==> Rank(a) < Rank(b)
    ensures c > 0 <==> Rank(a) > Rank(b)
    ensures c == 0 <==> a == b
  {
    RankOrders(a, b);
    RankOrders(b, a);
    var i := 0;
    while i < |a| && i < |b|
      invariant i <= |a| && i <= |b|
      invariant a[..i] == b[..i]
      invariant Less(a, b) <==> Less(a[i..], b[i..])
      invariant Less(b, a) <==> Less(b[i..], a[i..])
    {
      if a[i] != b[i] {
        return if a[i] < b[i] then -1 else 1;
      }
      i := i + 1;
    }
    c := if |a| < |b| then -1 else if |a| > |b| then 1 else 0;
  }
}
