/** Object references: what a namespace stores at a path, in a fixed record of 46 bytes. */
module Refs {
  import opened Keys
  import opened Basics

  type U16 = n: nat | n < 0x1_0000
  type U64 = n: nat | n < 0x1_0000_0000_0000_0000
  type Hash = h: seq<byte> | |h| == 32 witness seq(32, i => 0)

  const REF_SIZE := 46

  /** The root of an object in its model's own format. */
  datatype Root = Root(hash: Hash, size: U64, depth: byte, format: U16)

  datatype Ref = Ref(model: U16, root: Root)

  // Little-endian, in a fixed number of bytes.
  function LittleEndian(v: nat, width: nat): (b: seq<byte>)
    ensures |b| == width
  {
    if width == 0 then [] else [(v % 256) as byte] + LittleEndian(v / 256, width - 1)
  }

  function FromLittleEndian(b: seq<byte>): nat {
    if b == [] then 0 else b[0] as nat + 256 * FromLittleEndian(b[1..])
  }

  ghost function Pow256(n: nat): nat {
    if n == 0 then 1 else 256 * Pow256(n - 1)
  }

  lemma {:induction false} LittleEndianReads(v: nat, width: nat)
    requires v < Pow256(width)
    ensures FromLittleEndian(LittleEndian(v, width)) == v
  {
    if width > 0 {
      LittleEndianReads(v / 256, width - 1);
      assert LittleEndian(v, width)[1..] == LittleEndian(v / 256, width - 1);
    }
  }

  lemma {:induction false} LittleEndianWrites(b: seq<byte>)
    ensures FromLittleEndian(b) < Pow256(|b|)
    ensures LittleEndian(FromLittleEndian(b), |b|) == b
  {
    if b != [] {
      LittleEndianWrites(b[1..]);
      var v := FromLittleEndian(b);
      assert v % 256 == b[0] as nat && v / 256 == FromLittleEndian(b[1..]);
    }
  }

  lemma Widths()
    ensures Pow256(2) == 0x1_0000 && Pow256(8) == 0x1_0000_0000_0000_0000
  {
    assert Pow256(4) == 0x1_0000_0000;
    assert Pow256(6) == 0x1_0000_0000_0000;
  }

  // model, format, flags, depth, size, root.
  function Encode(r: Ref): (b: seq<byte>)
    ensures |b| == REF_SIZE
  {
    LittleEndian(r.model, 2) + LittleEndian(r.root.format, 2) + [0] + [r.root.depth] + LittleEndian(r.root.size, 8)
      + r.root.hash
  }

  /** The reference a record holds; every other byte string is refused. */
  function Decode(b: seq<byte>): (r: Option<Ref>)
    ensures r.Some? ==> Encode(r.value) == b && r.value.model != 0 && r.value.root.format != 0
    ensures r.None? ==> |b| != REF_SIZE || b[4] != 0 || b[0..2] == [0, 0] || b[2..4] == [0, 0]
  {
    if |b| != REF_SIZE then None
    else
      LittleEndianWrites(b[0..2]); LittleEndianWrites(b[2..4]); LittleEndianWrites(b[6..14]); Widths();
      var model, format, size := FromLittleEndian(b[0..2]), FromLittleEndian(b[2..4]), FromLittleEndian(b[6..14]);
      if b[4] != 0 || model == 0 || format == 0 then None
      else
        var ref := Ref(model, Root(b[14..46], size, b[5], format));
        assert b == b[0..2] + b[2..4] + [b[4]] + [b[5]] + b[6..14] + b[14..46];
        Some(ref)
  }

  // What is written reads back as itself.
  lemma DecodeEncode(r: Ref)
    requires r.model != 0 && r.root.format != 0
    ensures Decode(Encode(r)) == Some(r)
  {
    hide LittleEndian;
    var b := Encode(r);
    Widths();
    LittleEndianReads(r.model, 2);
    LittleEndianReads(r.root.format, 2);
    LittleEndianReads(r.root.size, 8);
    assert b[0..2] == LittleEndian(r.model, 2) && b[2..4] == LittleEndian(r.root.format, 2);
    assert b[4] == 0 && b[5] == r.root.depth;
    assert b[6..14] == LittleEndian(r.root.size, 8);
    assert b[14..46] == r.root.hash;
  }
}
