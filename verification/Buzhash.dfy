/** The rolling hash both chunkers cut with: the hash of a 48-byte window, and the update that rolls it
    one byte on. */
module Buzhash {
  import opened Keys

  const WINDOW := 48

  /******** Words ********/

  function Xor(x: bv64, y: bv64): bv64 {
    x ^ y
  }

  // Rotation left by one bit, and by n.
  function Rot1(x: bv64): bv64 {
    (x << 1) | (x >> 63)
  }

  function Rotl(x: bv64, n: nat): bv64 {
    if n == 0 then x else Rot1(Rotl(x, n - 1))
  }

  lemma Rot1Xor(x: bv64, y: bv64)
    ensures Rot1(Xor(x, y)) == Xor(Rot1(x), Rot1(y))
  {
  }

  lemma XorAssoc(a: bv64, b: bv64, c: bv64)
    ensures Xor(Xor(a, b), c) == Xor(a, Xor(b, c))
  {
  }

  lemma XorTwice(a: bv64, b: bv64)
    ensures Xor(Xor(a, b), a) == b
  {
  }

  lemma XorZero(a: bv64)
    ensures Xor(a, 0) == a && Xor(0, a) == a && Rot1(0) == 0
  {
  }

  lemma XorLaws(a: bv64, b: bv64, c: bv64)
    ensures Xor(Xor(Xor(a, b), a), c) == Xor(b, c)
    ensures Xor(Xor(a, b), c) == Xor(a, Xor(b, c))
    ensures Xor(Rot1(0), a) == a && Xor(a, 0) == a && Xor(0, a) == a && Rot1(0) == 0
  {
    hide *;
    XorAssoc(a, b, c);
    XorTwice(a, b);
    XorZero(a);
  }

  lemma {:induction false} RotlLaws(x: bv64, y: bv64, n: nat)
    ensures Rotl(0, n) == 0
    ensures Rotl(x, n + 1) == Rotl(Rot1(x), n) && Rotl(x, n + 1) == Rot1(Rotl(x, n))
    ensures Rotl(Xor(x, y), n) == Xor(Rotl(x, n), Rotl(y, n))
  {
    hide Xor, Rot1;
    XorLaws(x, x, x);
    if n > 0 {
      RotlLaws(x, y, n - 1);
      Rot1Xor(Rotl(x, n - 1), Rotl(y, n - 1));
    }
  }

  /******** The hash of a window ********/

  /** A table of 256 words, one a byte. */
  type Table = byte -> bv64

  // The hash of a run of bytes: each byte's word, rotated once for every byte after it.
  ghost function Hash(t: Table, w: seq<byte>): bv64 {
    if w == [] then 0 else Xor(Rot1(Hash(t, w[..|w| - 1])), t(w[|w| - 1]))
  }

  lemma HashPush(t: Table, w: seq<byte>, b: byte)
    ensures Hash(t, w + [b]) == Xor(Rot1(Hash(t, w)), t(b))
  {
    assert (w + [b])[..|w|] == w;
  }

  // The oldest byte's share of a hash.
  lemma {:induction false} HashFront(t: Table, b: byte, w: seq<byte>)
    ensures Hash(t, [b] + w) == Xor(Rotl(t(b), |w|), Hash(t, w))
  {
    if w == [] {
      assert [b] + w == [] + [b];
      HashPush(t, [], b);
      XorLaws(t(b), 0, 0);
    } else {
      hide Xor, Rot1, Hash, Rotl;
      var init, last := w[..|w| - 1], w[|w| - 1];
      assert w == init + [last] && [b] + w == ([b] + init) + [last];
      HashFront(t, b, init);
      HashPush(t, [b] + init, last);
      HashPush(t, init, last);
      Rot1Xor(Rotl(t(b), |init|), Hash(t, init));
      RotlLaws(t(b), 0, |init|);
      XorLaws(Rotl(t(b), |w|), Rot1(Hash(t, init)), t(last));
    }
  }

  // One update: the window rolls on a byte, the oldest leaving.
  function Roll(t: Table, hash: bv64, leaving: byte, entering: byte): bv64 {
    Xor(Xor(Rot1(hash), Rotl(t(leaving), WINDOW)), t(entering))
  }

  // Rolling a window's hash gives the hash of the window one byte on.
  lemma RollIs(t: Table, w: seq<byte>, b: byte)
    requires |w| == WINDOW
    ensures Roll(t, Hash(t, w), w[0], b) == Hash(t, w[1..] + [b])
  {
    hide Xor, Rot1, Hash, Rotl;
    var o, m := w[0], w[1..];
    assert w == [o] + m;
    HashFront(t, o, m);
    HashPush(t, m, b);
    Rot1Xor(Rotl(t(o), |m|), Hash(t, m));
    RotlLaws(t(o), 0, |m|);
    XorLaws(Rotl(t(o), WINDOW), Rot1(Hash(t, m)), t(b));
  }

  ghost function Zeros(n: nat): (s: seq<byte>)
    ensures |s| == n && forall i :: 0 <= i < n ==> s[i] == 0
  {
    seq(n, i => 0)
  }

  // The last 48 bytes of s, padded in front with zeros when s is shorter.
  ghost function Window(s: seq<byte>): (w: seq<byte>)
    ensures |w| == WINDOW
  {
    (Zeros(WINDOW) + s)[|s|..]
  }

  lemma WindowShift(s: seq<byte>, b: byte)
    ensures Window(s)[1..] + [b] == Window(s + [b])
    ensures Window(s)[0] == if |s| < WINDOW then 0 else s[|s| - WINDOW]
  {
    var z := Zeros(WINDOW);
    assert z + (s + [b]) == (z + s) + [b];
  }

  // Rolling in the next byte of a stream.
  lemma WindowNext(t: Table, s: seq<byte>, b: byte)
    ensures Roll(t, Hash(t, Window(s)), Window(s)[0], b) == Hash(t, Window(s + [b]))
  {
    hide *;
    WindowSize(s);
    WindowShift(s, b);
    RollIs(t, Window(s), b);
  }

  lemma WindowSize(s: seq<byte>)
    ensures |Window(s)| == WINDOW && WINDOW > 0
  {
  }

  /******** The empty window ********/

  // The shares of the first i of n zero bytes.
  ghost function Shares(t: Table, n: nat, i: nat): bv64
    requires i <= n
  {
    if i == 0 then 0 else Xor(Shares(t, n, i - 1), Rotl(t(0), n - i))
  }

  lemma {:induction false} ZeroShares(t: Table, n: nat, i: nat)
    requires i <= n
    ensures Shares(t, n, i) == Rotl(Hash(t, Zeros(i)), n - i)
    decreases i
  {
    hide Xor, Rot1, Rotl, Hash;
    if i == 0 {
      RotlLaws(0, 0, n);
      assert Zeros(0) == [];
      HashEmpty(t);
    } else {
      ZeroShares(t, n, i - 1);
      var h := Hash(t, Zeros(i - 1));
      assert Zeros(i) == Zeros(i - 1) + [0];
      HashPush(t, Zeros(i - 1), 0);
      RotlLaws(h, 0, n - i);
      RotlLaws(Rot1(h), t(0), n - i);
    }
  }

  lemma HashEmpty(t: Table)
    ensures Hash(t, []) == 0
  {
  }

  // 48 zero bytes hashed, one share at a time.
  method ZeroWindowHash(t: Table) returns (h: bv64)
    ensures h == Hash(t, Window([]))
  {
    hide Xor, Rot1, Rotl, Hash;
    h := 0;
    for i := 0 to WINDOW
      invariant h == Shares(t, WINDOW, i)
    {
      h := Xor(h, Rotl(t(0), WINDOW - 1 - i));
    }
    ZeroShares(t, WINDOW, WINDOW);
    RotlNone(Hash(t, Zeros(WINDOW)));
    assert Window([]) == Zeros(WINDOW);
  }

  lemma RotlNone(x: bv64)
    ensures Rotl(x, 0) == x
  {
  }
}
