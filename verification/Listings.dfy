/** Counted lists behind a magic and a version, for any item whose encoding is lawful: pack indexes and index
    objects are both such lists. */
module Listings {
  import opened Keys
  import opened Basics
  import opened NodeCodec

  /** How one item is written and read back, and which items can be. */
  datatype Coder<!T> = Coder(ok: T -> bool, write: T -> seq<byte>, read: seq<byte> -> Option<(T, nat)>)

  // What is written reads back, whatever follows it, and what is read is what would be written.
  ghost predicate Lawful<T(!new)>(c: Coder<T>) {
    && (forall x, rest {:trigger c.write(x) + rest} :: c.ok(x) ==> c.read(c.write(x) + rest) == Some((x, |c.write(x)|)))
    && (forall b {:trigger c.read(b)} :: c.read(b).Some? ==>
          c.read(b).value.1 <= |b| && b[..c.read(b).value.1] == c.write(c.read(b).value.0) && c.ok(c.read(b).value.0))
  }

  lemma Reads<T(!new)>(c: Coder<T>, x: T, rest: seq<byte>)
    requires Lawful(c) && c.ok(x)
    ensures c.read(c.write(x) + rest) == Some((x, |c.write(x)|))
  {
    var b := c.write(x) + rest;
    assert c.read(b) == c.read(c.write(x) + rest);
  }

  lemma Writes<T(!new)>(c: Coder<T>, b: seq<byte>)
    requires Lawful(c) && c.read(b).Some?
    ensures c.read(b).value.1 <= |b| && b[..c.read(b).value.1] == c.write(c.read(b).value.0) && c.ok(c.read(b).value.0)
  {
  }

  function WriteAll<T>(c: Coder<T>, xs: seq<T>): seq<byte> {
    if xs == [] then [] else WriteAll(c, xs[..|xs| - 1]) + c.write(xs[|xs| - 1])
  }

  // n items from a place in b, and where they end.
  ghost function ReadAll<T>(c: Coder<T>, b: seq<byte>, at: nat, n: nat): (r: Option<(seq<T>, nat)>)
    ensures r.Some? ==> |r.value.0| == n && r.value.1 <= |b|
  {
    if at > |b| then None
    else if n == 0 then Some(([], at))
    else
      var xs := ReadAll(c, b, at, n - 1);
      if xs.None? then None
      else
        var x := c.read(b[xs.value.1..]);
        if x.None? || x.value.1 > |b| - xs.value.1 then None
          else Some((xs.value.0 + [x.value.0], xs.value.1 + x.value.1))
  }

  ghost predicate AllOk<T>(c: Coder<T>, xs: seq<T>) {
    forall i :: 0 <= i < |xs| ==> c.ok(xs[i])
  }

  lemma AllOkPush<T>(c: Coder<T>, xs: seq<T>, x: T)
    ensures AllOk(c, xs + [x]) <==> AllOk(c, xs) && c.ok(x)
  {
    assert (xs + [x])[|xs|] == x && forall i :: 0 <= i < |xs| ==> (xs + [x])[i] == xs[i];
  }

  lemma WritePush<T>(c: Coder<T>, xs: seq<T>, x: T)
    ensures WriteAll(c, xs + [x]) == WriteAll(c, xs) + c.write(x)
  {
    assert (xs + [x])[..|xs|] == xs;
  }

  lemma ReadNext<T>(c: Coder<T>, b: seq<byte>, at: nat, n: nat)
    requires ReadAll(c, b, at, n).Some?
    ensures var (xs, k) := ReadAll(c, b, at, n).value;
            var x := c.read(b[k..]);
            ReadAll(c, b, at, n + 1) == if x.None?
              || x.value.1 > |b| - k then None else Some((xs + [x.value.0], k + x.value.1))
  {
  }

  lemma {:induction false} ReadsNone<T>(c: Coder<T>, b: seq<byte>, at: nat, n: nat, m: nat)
    requires n <= m && ReadAll(c, b, at, n).None?
    ensures ReadAll(c, b, at, m).None?
    decreases m
  {
    if m > n {
      ReadsNone(c, b, at, n, m - 1);
    }
  }

  // Fewer items read from the same place are the first of them.
  lemma {:induction false} ReadsPrefix<T>(c: Coder<T>, b: seq<byte>, at: nat, n: nat, m: nat)
    requires n <= m && ReadAll(c, b, at, m).Some?
    ensures ReadAll(c, b, at, n).Some? && ReadAll(c, b, at, n).value.0 == ReadAll(c, b, at, m).value.0[..n]
    decreases m
  {
    if n < m {
      ReadsPrefix(c, b, at, n, m - 1);
      var xs, ys := ReadAll(c, b, at, m - 1).value.0, ReadAll(c, b, at, m).value.0;
      assert ys[..m - 1] == xs && ys[..n] == ys[..m - 1][..n];
    } else {
      assert ReadAll(c, b, at, m).value.0[..n] == ReadAll(c, b, at, m).value.0;
    }
  }

  // Items are read alike from the middle of a longer string.
  lemma {:induction false} ReadsShift<T>(c: Coder<T>, b: seq<byte>, o: nat, at: nat, n: nat)
    requires o <= |b|
    ensures var inner := ReadAll(c, b[o..], at, n);
            ReadAll(c, b, o + at, n) == if inner.None? then None else Some((inner.value.0, o + inner.value.1))
    decreases n
  {
    if n > 0 && at <= |b| - o {
      ReadsShift(c, b, o, at, n - 1);
      var inner := ReadAll(c, b[o..], at, n - 1);
      if inner.Some? {
        DropTwice(b, o, inner.value.1);
      }
    }
  }

  // The items read at a place are those whose encodings stand there.
  lemma {:induction false} AllSound<T(!new)>(c: Coder<T>, b: seq<byte>, at: nat, n: nat)
    requires Lawful(c) && ReadAll(c, b, at, n).Some?
    ensures var (xs, k) := ReadAll(c, b, at, n).value; at <= k && b[at..k] == WriteAll(c, xs) && AllOk(c, xs)
    decreases n
  {
    hide *;
    SoundStart(c, b, at);
    if n > 0 {
      SoundBack(c, b, at, n);
      AllSound(c, b, at, n - 1);
      var (xs, k) := ReadAll(c, b, at, n - 1).value;
      ReadNext(c, b, at, n - 1);
      Writes(c, b[k..]);
      var (x, m) := c.read(b[k..]).value;
      AllOkPush(c, xs, x);
      WritePush(c, xs, x);
      Joined(b, at, k, m);
    }
  }

  lemma SoundStart<T>(c: Coder<T>, b: seq<byte>, at: nat)
    ensures ReadAll(c, b, at, 0) == if at > |b| then None else Some(([], at))
    ensures AllOk(c, []) && WriteAll(c, []) == []
  {
  }

  lemma SoundBack<T>(c: Coder<T>, b: seq<byte>, at: nat, n: nat)
    requires n > 0 && ReadAll(c, b, at, n).Some?
    ensures ReadAll(c, b, at, n - 1).Some?
  {
  }

  lemma Joined(b: seq<byte>, at: nat, k: nat, m: nat)
    requires at <= k && k + m <= |b|
    ensures b[at..k + m] == b[at..k] + b[k..][..m]
  {
  }

  lemma {:induction false} AllComplete<T(!new)>(c: Coder<T>, b: seq<byte>, at: nat, xs: seq<T>, rest: seq<byte>)
    requires Lawful(c) && AllOk(c, xs) && at <= |b| && b[at..] == WriteAll(c, xs) + rest
    ensures ReadAll(c, b, at, |xs|) == Some((xs, at + |WriteAll(c, xs)|))
    decreases |xs|
  {
    hide *;
    SoundStart(c, b, at);
    if xs == [] {
    } else {
      var init, x := xs[..|xs| - 1], xs[|xs| - 1];
      assert xs == init + [x];
      AllOkPush(c, init, x);
      WritePush(c, init, x);
      AppendAssoc(WriteAll(c, init), c.write(x), rest);
      AllComplete(c, b, at, init, c.write(x) + rest);
      ReadNext(c, b, at, |init|);
      Dropped(b, at, WriteAll(c, init), c.write(x) + rest);
      Reads(c, x, rest);
    }
  }

  lemma Dropped(b: seq<byte>, at: nat, a: seq<byte>, rest: seq<byte>)
    requires at <= |b| && b[at..] == a + rest
    ensures at + |a| <= |b| && b[at + |a|..] == rest
  {
    assert b[at..][|a|..] == rest;
  }

  /******** A whole list ********/

  type Magic = m: seq<byte> | |m| == 4 witness [0, 0, 0, 0]

  const VERSION: seq<byte> := [1, 0]

  function Front(magic: Magic, count: nat): (b: seq<byte>)
    ensures |b| >= 7
  {
    magic + VERSION + Varint(count)
  }

  function WriteList<T>(c: Coder<T>, magic: Magic, xs: seq<T>): seq<byte> {
    Front(magic, |xs|) + WriteAll(c, xs)
  }

  // The count a list gives, and where its items start.
  function ReadFront(magic: Magic, b: seq<byte>): (r: Option<(nat, nat)>)
    ensures r.Some? ==> 7 <= r.value.1 <= |b| && r.value.0 < WORD
  {
    if |b| < 6 || b[..4] != magic || b[4..6] != VERSION then None
    else
      var n := ReadU64(b[6..]);
      if n.None? then None else Some((n.value.0, 6 + n.value.1))
  }

  lemma FrontSound(magic: Magic, b: seq<byte>)
    requires ReadFront(magic, b).Some?
    ensures var (n, at) := ReadFront(magic, b).value; b[..at] == Front(magic, n)
  {
    hide Varint, ReadU64;
    var n := ReadU64(b[6..]).value;
    U64Sound(b[6..]);
    assert b[..6 + n.1] == b[..4] + b[4..6] + b[6..][..n.1];
  }

  lemma FrontComplete(magic: Magic, n: nat, rest: seq<byte>)
    requires n < WORD
    ensures ReadFront(magic, Front(magic, n) + rest) == Some((n, |Front(magic, n)|))
  {
    var b := Front(magic, n) + rest;
    VarintComplete(n, rest);
    hide Varint, ReadVarint;
    assert b[..4] == magic && b[4..6] == VERSION && b[6..] == Varint(n) + rest;
  }

  // Reads a list's front.
  method NextFront(r: Reader, magic: Magic) returns (count: Option<nat>)
    requires r.Valid() && !r.err && r.off == 0
    modifies r
    ensures r.Valid() && (count.Some? <==> ReadFront(magic, r.b).Some?)
    ensures count.Some? ==> !r.err && ReadFront(magic, r.b) == Some((count.value, r.off))
  {
    hide ReadU64;
    var m := r.Fixed(4);
    var v := r.Fixed(2);
    var n := r.Uvarint();
    if r.err || m != magic || v != VERSION {
      return None;
    }
    count := Some(n);
  }

  // The items of a whole list; none when b is no list.
  ghost function Parse<T>(c: Coder<T>, magic: Magic, b: seq<byte>): Option<seq<T>> {
    var f := ReadFront(magic, b);
    if f.None? then None
    else
      var xs := ReadAll(c, b, f.value.1, f.value.0);
      if xs.None? || xs.value.1 != |b| then None else Some(xs.value.0)
  }

  /** Parsing inverts writing, both ways. */
  lemma ParseIs<T(!new)>(c: Coder<T>, magic: Magic, b: seq<byte>, xs: seq<T>)
    requires Lawful(c)
    ensures Parse(c, magic, b) == Some(xs) <==> AllOk(c, xs) && |xs| < WORD && WriteList(c, magic, xs) == b
  {
    if Parse(c, magic, b) == Some(xs) {
      ParseSound(c, magic, b);
    }
    if AllOk(c, xs) && |xs| < WORD && WriteList(c, magic, xs) == b {
      ParseComplete(c, magic, xs);
    }
  }

  lemma ParseSound<T(!new)>(c: Coder<T>, magic: Magic, b: seq<byte>)
    requires Lawful(c) && Parse(c, magic, b).Some?
    ensures var xs := Parse(c, magic, b).value; AllOk(c, xs) && |xs| < WORD && WriteList(c, magic, xs) == b
  {
    hide Lawful, ReadFront, Front, ReadAll, WriteAll, AllOk;
    var (n, at) := ReadFront(magic, b).value;
    FrontSound(magic, b);
    AllSound(c, b, at, n);
    assert b == b[..at] + b[at..|b|];
  }

  lemma ParseComplete<T(!new)>(c: Coder<T>, magic: Magic, xs: seq<T>)
    requires Lawful(c) && AllOk(c, xs) && |xs| < WORD
    ensures Parse(c, magic, WriteList(c, magic, xs)) == Some(xs)
  {
    hide Lawful, ReadFront, Front, ReadAll, WriteAll, AllOk;
    var b, f := WriteList(c, magic, xs), Front(magic, |xs|);
    FrontComplete(magic, |xs|, WriteAll(c, xs));
    assert b[|f|..] == WriteAll(c, xs) == WriteAll(c, xs) + [];
    AllComplete(c, b, |f|, xs, []);
  }

  /******** Sorting before writing ********/

  ghost predicate Ascends<T>(xs: seq<T>, key: T -> Key) {
    forall i, j :: 0 <= i < j < |xs| ==> Rank(key(xs[i])) <= Rank(key(xs[j]))
  }

  lemma AscendsInsert<T>(xs: seq<T>, key: T -> Key, x: T, i: nat)
    requires Ascends(xs, key) && i <= |xs| && (i > 0 ==> Rank(key(xs[i - 1])) <= Rank(key(x)))
    requires forall j :: i <= j < |xs| ==> Rank(key(x)) < Rank(key(xs[j]))
    ensures Ascends(xs[..i] + [x] + xs[i..], key)
  {
    hide Rank;
    InsertedAt(xs, i, x);
  }

  lemma CountInsert<T>(xs: seq<T>, x: T, i: nat)
    requires i <= |xs|
    ensures multiset(xs[..i] + [x] + xs[i..]) == multiset(xs) + multiset{x}
  {
    assert xs == xs[..i] + xs[i..];
  }

  // Where x goes in a sorted list: after every item whose key is not above its own.
  method PlaceFor<T>(xs: seq<T>, key: T -> Key, x: T) returns (i: nat)
    requires Ascends(xs, key)
    ensures i <= |xs| && (i > 0 ==> Rank(key(xs[i - 1])) <= Rank(key(x)))
    ensures forall j :: i <= j < |xs| ==> Rank(key(x)) < Rank(key(xs[j]))
  {
    hide Rank, Ascends;
    i := |xs|;
    while i > 0
      invariant i <= |xs| && forall j :: i <= j < |xs| ==> Rank(key(x)) < Rank(key(xs[j]))
    {
      var c := Compare(key(x), key(xs[i - 1]));
      if c >= 0 {
        return;
      }
      i := i - 1;
    }
  }

  method SortByKey<T>(xs: seq<T>, key: T -> Key) returns (out: seq<T>)
    ensures Ascends(out, key) && multiset(out) == multiset(xs)
  {
    hide Rank;
    out := [];
    for n := 0 to |xs|
      invariant Ascends(out, key) && multiset(out) == multiset(xs[..n])
    {
      var x := xs[n];
      var i := PlaceFor(out, key, x);
      AscendsInsert(out, key, x, i);
      CountInsert(out, x, i);
      out := out[..i] + [x] + out[i..];
      assert xs[..n + 1] == xs[..n] + [x];
    }
    assert xs[..|xs|] == xs;
  }
}
