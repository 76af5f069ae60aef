/** How map nodes are written: minimal varints, canonical entries, and a decoder that accepts exactly what the
    encoder writes. */
module NodeCodec {
  import opened Keys
  import opened Basics
  import opened Refs
  import Nodes
  import Trees

  const KIND_NODE: byte := 1
  const MAX_LEVEL := 63
  const MAX_KEY_SIZE := 4096
  const VAL_INLINE: byte := 0
  const VAL_STREAM: byte := 1
  const WORD := 0x1_0000_0000_0000_0000

  /******** Varints ********/

  // Minimal unsigned LEB128: seven bits a byte, least significant first.
  function Varint(v: nat): (b: seq<byte>)
    ensures |b| >= 1
  {
    if v < 128 then [v as byte] else [(v % 128 + 128) as byte] + Varint(v / 128)
  }

  // A varint at the front of b and its length; none for one cut short or not minimal.
  function ReadVarint(b: seq<byte>): (r: Option<(nat, nat)>)
    ensures r.Some? ==> 1 <= r.value.1 <= |b|
  {
    if b == [] then None
    else if b[0] < 128 then Some((b[0] as nat, 1))
    else
      var more := ReadVarint(b[1..]);
      if more.None? || more.value.0 == 0 then None
      else Some((b[0] as nat - 128 + 128 * more.value.0, more.value.1 + 1))
  }

  lemma {:induction false} VarintSound(b: seq<byte>)
    requires ReadVarint(b).Some?
    ensures b[..ReadVarint(b).value.1] == Varint(ReadVarint(b).value.0)
    decreases |b|
  {
    if b[0] >= 128 {
      var more := ReadVarint(b[1..]).value;
      VarintSound(b[1..]);
      var v := ReadVarint(b).value.0;
      assert v % 128 == b[0] as nat - 128 && v / 128 == more.0;
      assert b[..more.1 + 1] == [b[0]] + b[1..][..more.1];
    }
  }

  lemma {:induction false} VarintComplete(v: nat, rest: seq<byte>)
    ensures ReadVarint(Varint(v) + rest) == Some((v, |Varint(v)|))
    decreases v
  {
    if v >= 128 {
      VarintComplete(v / 128, rest);
      var b := Varint(v) + rest;
      assert b[1..] == Varint(v / 128) + rest;
      assert b[0] as nat == v % 128 + 128;
    }
  }

  // The number of bits of v, at least one.
  function BitLen(v: nat): nat {
    if v < 2 then 1 else 1 + BitLen(v / 2)
  }

  lemma BitLenSeven(v: nat)
    requires v >= 128
    ensures BitLen(v) == 7 + BitLen(v / 128)
  {
    assert BitLen(v) == 1 + BitLen(v / 2) && v / 2 >= 64;
    assert BitLen(v / 2) == 1 + BitLen(v / 2 / 2) && v / 2 / 2 == v / 4 >= 32;
    assert BitLen(v / 4) == 1 + BitLen(v / 4 / 2) && v / 4 / 2 == v / 8 >= 16;
    assert BitLen(v / 8) == 1 + BitLen(v / 8 / 2) && v / 8 / 2 == v / 16 >= 8;
    assert BitLen(v / 16) == 1 + BitLen(v / 16 / 2) && v / 16 / 2 == v / 32 >= 4;
    assert BitLen(v / 32) == 1 + BitLen(v / 32 / 2) && v / 32 / 2 == v / 64 >= 2;
    assert BitLen(v / 64) == 1 + BitLen(v / 64 / 2) && v / 64 / 2 == v / 128;
  }

  lemma BitLenSmall(v: nat)
    requires v < 128
    ensures 1 <= BitLen(v) <= 7
  {
    assert v >= 2 ==> v / 2 < 64;
    assert v / 2 >= 2 ==> v / 4 < 32 && v / 2 / 2 == v / 4;
    assert v / 4 >= 2 ==> v / 8 < 16 && v / 4 / 2 == v / 8;
    assert v / 8 >= 2 ==> v / 16 < 8 && v / 8 / 2 == v / 16;
    assert v / 16 >= 2 ==> v / 32 < 4 && v / 16 / 2 == v / 32;
    assert v / 32 >= 2 ==> v / 64 < 2 && v / 32 / 2 == v / 64;
  }

  // Counting seven bits a byte gives a varint's length.
  lemma {:induction false} VarintLen(v: nat)
    ensures |Varint(v)| == Nodes.UvarintLen(v) == (BitLen(v) + 6) / 7
    decreases v
  {
    if v < 128 {
      BitLenSmall(v);
    } else {
      VarintLen(v / 128);
      BitLenSeven(v);
    }
  }

  function ReadU64(b: seq<byte>): (r: Option<(nat, nat)>)
    ensures r.Some? ==> 1 <= r.value.1 <= |b| && r.value.0 < WORD
  {
    var r := ReadVarint(b);
    if r.None? || r.value.0 >= WORD then None else r
  }

  // A length and that many bytes.
  function WithLen(b: seq<byte>): seq<byte> {
    Varint(|b|) + b
  }

  function ReadLen(b: seq<byte>, max: nat): (r: Option<(seq<byte>, nat)>)
    ensures r.Some? ==> 1 <= r.value.1 <= |b| && |r.value.0| <= max
  {
    var n := ReadU64(b);
    if n.None? || n.value.0 > max || n.value.0 > |b| - n.value.1 then None
    else Some((b[n.value.1..n.value.1 + n.value.0], n.value.1 + n.value.0))
  }

  lemma LenSound(b: seq<byte>, max: nat)
    requires ReadLen(b, max).Some?
    ensures b[..ReadLen(b, max).value.1] == WithLen(ReadLen(b, max).value.0)
  {
    var n := ReadU64(b).value;
    VarintSound(b);
    assert b[..n.1 + n.0] == b[..n.1] + b[n.1..n.1 + n.0];
  }

  lemma LenComplete(x: seq<byte>, max: nat, rest: seq<byte>)
    requires |x| <= max && |x| < WORD
    ensures ReadLen(WithLen(x) + rest, max) == Some((x, |WithLen(x)|))
  {
    var b := WithLen(x) + rest;
    VarintComplete(|x|, x + rest);
    assert b == Varint(|x|) + (x + rest);
    assert b[|Varint(|x|)|..|Varint(|x|)| + |x|] == x;
  }

  /******** Entries ********/

  datatype RawValue = Inline(bytes: seq<byte>) | Stream(root: Hash, size: nat, depth: byte)

  /** A node's entry as stored: a child by its hash. */
  datatype RawEntry = Leaf(key: Key, val: RawValue) | Inner(key: Key, child: Hash, count: nat)

  datatype RawNode = RawNode(level: nat, entries: seq<RawEntry>)

  // The one form each value may take, by its length, and a positive count under every child.
  predicate EntryOk(level: nat, limit: nat, e: RawEntry) {
    && |e.key| <= MAX_KEY_SIZE
    && (level > 0 ==> e.Inner? && 1 <= e.count < WORD)
    && (level == 0 ==>
          && e.Leaf?
          && (e.val.Inline? ==> |e.val.bytes| <= limit)
          && (e.val.Stream? ==> limit < e.val.size < WORD && e.val.depth as nat <= MAX_LEVEL))
  }

  function WriteValue(v: RawValue): seq<byte> {
    match v
    case Stream(root, size, depth) => [VAL_STREAM] + root + Varint(size) + [depth]
    case Inline(bytes) => [VAL_INLINE] + WithLen(bytes)
  }

  function WriteEntry(e: RawEntry): seq<byte> {
    match e
    case Inner(key, child, count) => WithLen(key) + child + Varint(count)
    case Leaf(key, val) => WithLen(key) + WriteValue(val)
  }

  function ReadValue(limit: nat, b: seq<byte>): (r: Option<(RawValue, nat)>)
    ensures r.Some? ==> r.value.1 <= |b|
  {
    if b == [] then None
    else if b[0] == VAL_INLINE then
      var x := ReadLen(b[1..], limit);
      if x.None? then None else Some((Inline(x.value.0), 1 + x.value.1))
    else if b[0] == VAL_STREAM && |b| >= 33 then
      var size := ReadU64(b[33..]);
      if size.None? || 33 + size.value.1 >= |b| then None
      else
        var depth := b[33 + size.value.1];
        if size.value.0 <= limit || depth as nat > MAX_LEVEL then None
        else Some((Stream(b[1..33], size.value.0, depth), 34 + size.value.1))
    else None
  }

  function ReadEntry(level: nat, limit: nat, b: seq<byte>): (r: Option<(RawEntry, nat)>)
    ensures r.Some? ==> r.value.1 <= |b|
  {
    var key := ReadLen(b, MAX_KEY_SIZE);
    if key.None? then None
    else if level > 0 then
      var at := key.value.1;
      if |b| - at < 32 then None
      else
        var count := ReadU64(b[at + 32..]);
        if count.None? || count.value.0 == 0 then None
        else Some((Inner(key.value.0, b[at..at + 32], count.value.0), at + 32 + count.value.1))
    else
      var v := ReadValue(limit, b[key.value.1..]);
      if v.None? then None else Some((Leaf(key.value.0, v.value.0), key.value.1 + v.value.1))
  }

  lemma ValueSound(limit: nat, b: seq<byte>)
    requires ReadValue(limit, b).Some?
    ensures var r := ReadValue(limit, b).value;
            && b[..r.1] == WriteValue(r.0)
            && (r.0.Inline? ==> |r.0.bytes| <= limit)
               && (r.0.Stream? ==> limit < r.0.size < WORD && r.0.depth as nat <= MAX_LEVEL)
  {
    var r := ReadValue(limit, b).value;
    if b[0] == VAL_INLINE {
      var x := ReadLen(b[1..], limit).value;
      LenSound(b[1..], limit);
      assert b[..1 + x.1] == [b[0]] + b[1..][..x.1];
    } else {
      var size := ReadU64(b[33..]).value;
      VarintSound(b[33..]);
      var n := 33 + size.1;
      assert b[..n + 1] == [b[0]] + b[1..33] + b[33..][..size.1] + [b[n]];
    }
  }

  lemma ValueComplete(limit: nat, v: RawValue, rest: seq<byte>)
    requires (v.Inline? ==> |v.bytes| <= limit) && (v.Stream? ==> limit < v.size < WORD && v.depth as nat <= MAX_LEVEL)
    requires v.Inline? ==> |v.bytes| < WORD
    ensures ReadValue(limit, WriteValue(v) + rest) == Some((v, |WriteValue(v)|))
  {
    if v.Inline? {
      InlineComplete(limit, v.bytes, rest);
    } else {
      StreamComplete(limit, v.root, v.size, v.depth, rest);
    }
  }

  lemma InlineLayout(t: byte, x: seq<byte>, rest: seq<byte>)
    ensures var b := [t] + x + rest; |b| == 1 + |x| + |rest| && b[0] == t && b[1..] == x + rest
  {
  }

  lemma InlineComplete(limit: nat, bytes: seq<byte>, rest: seq<byte>)
    requires |bytes| <= limit && |bytes| < WORD
    ensures ReadValue(limit, WriteValue(Inline(bytes)) + rest) == Some((Inline(bytes), |WriteValue(Inline(bytes))|))
  {
    hide WithLen, ReadLen, ReadU64;
    LenComplete(bytes, limit, rest);
    InlineLayout(VAL_INLINE, WithLen(bytes), rest);
  }

  lemma StreamLayout(t: byte, root: Hash, n: seq<byte>, d: byte, rest: seq<byte>)
    ensures var b := [t] + root + n + [d] + rest;
            && |b| == 34 + |n| + |rest| && b[0] == t && b[1..33] == root && b[33..] == n + ([d] + rest)
               && b[33 + |n|] == d
  {
  }

  lemma StreamComplete(limit: nat, root: Hash, size: nat, depth: byte, rest: seq<byte>)
    requires limit < size < WORD && depth as nat <= MAX_LEVEL
    ensures var v := Stream(root, size, depth); ReadValue(limit, WriteValue(v) + rest) == Some((v, |WriteValue(v)|))
  {
    VarintComplete(size, [depth] + rest);
    hide Varint, ReadVarint, ReadLen;
    StreamLayout(VAL_STREAM, root, Varint(size), depth, rest);
  }

  lemma EntrySound(level: nat, limit: nat, b: seq<byte>)
    requires ReadEntry(level, limit, b).Some?
    ensures var r := ReadEntry(level, limit, b).value; b[..r.1] == WriteEntry(r.0) && EntryOk(level, limit, r.0)
  {
    hide WithLen, ReadLen, ReadU64, ReadValue, WriteValue, Varint;
    var key := ReadLen(b, MAX_KEY_SIZE).value;
    LenSound(b, MAX_KEY_SIZE);
    if level > 0 {
      U64Sound(b[key.1 + 32..]);
      InnerSlices(b, key.1, ReadU64(b[key.1 + 32..]).value.1);
    } else {
      ValueSound(limit, b[key.1..]);
      LeafSlices(b, key.1, ReadValue(limit, b[key.1..]).value.1);
    }
  }

  lemma U64Sound(b: seq<byte>)
    requires ReadU64(b).Some?
    ensures b[..ReadU64(b).value.1] == Varint(ReadU64(b).value.0)
  {
    VarintSound(b);
  }

  lemma InnerSlices(b: seq<byte>, k: nat, n: nat)
    requires k + 32 + n <= |b|
    ensures b[..k + 32 + n] == b[..k] + b[k..k + 32] + b[k + 32..][..n]
  {
  }

  lemma LeafSlices(b: seq<byte>, k: nat, n: nat)
    requires k + n <= |b|
    ensures b[..k + n] == b[..k] + b[k..][..n]
  {
  }

  lemma EntryComplete(level: nat, limit: nat, e: RawEntry, rest: seq<byte>)
    requires EntryOk(level, limit, e) && limit < WORD
    ensures ReadEntry(level, limit, WriteEntry(e) + rest) == Some((e, |WriteEntry(e)|))
  {
    if level > 0 {
      InnerComplete(level, limit, e.key, e.child, e.count, rest);
      assert e == Inner(e.key, e.child, e.count);
    } else {
      LeafComplete(limit, e.key, e.val, rest);
      assert e == Leaf(e.key, e.val);
    }
  }

  lemma InnerLayout(k: seq<byte>, child: Hash, n: seq<byte>, rest: seq<byte>)
    ensures var b := k + child + n + rest;
            && |b| == |k| + 32 + |n| + |rest| && b == k + (child + n + rest) && b[|k|..|k| + 32] == child
               && b[|k| + 32..] == n + rest
  {
  }

  lemma InnerComplete(level: nat, limit: nat, key: Key, child: Hash, count: nat, rest: seq<byte>)
    requires level > 0 && |key| <= MAX_KEY_SIZE && 1 <= count < WORD
    ensures var e := Inner(key, child, count);
            ReadEntry(level, limit, WriteEntry(e) + rest) == Some((e, |WriteEntry(e)|))
  {
    VarintComplete(count, rest);
    LenComplete(key, MAX_KEY_SIZE, child + Varint(count) + rest);
    InnerLayout(WithLen(key), child, Varint(count), rest);
    hide Varint, ReadVarint, ReadLen, WithLen;
    ReadInner(level, limit, WithLen(key) + child + Varint(count) + rest, key, |WithLen(key)|, count, |Varint(count)|);
  }

  lemma ReadInner(level: nat, limit: nat, b: seq<byte>, key: Key, k: nat, count: nat, n: nat)
    requires level > 0 && k + 32 <= |b| && ReadLen(b, MAX_KEY_SIZE) == Some((key, k))
             && ReadU64(b[k + 32..]) == Some((count, n)) && count > 0
    ensures ReadEntry(level, limit, b) == Some((Inner(key, b[k..k + 32], count), k + 32 + n))
  {
    hide ReadLen, ReadU64;
  }

  lemma LeafLayout(k: seq<byte>, v: seq<byte>, rest: seq<byte>)
    ensures k + v + rest == k + (v + rest) && (k + v + rest)[|k|..] == v + rest
  {
  }

  lemma LeafComplete(limit: nat, key: Key, val: RawValue, rest: seq<byte>)
    requires EntryOk(0, limit, Leaf(key, val)) && limit < WORD
    ensures var e := Leaf(key, val); ReadEntry(0, limit, WriteEntry(e) + rest) == Some((e, |WriteEntry(e)|))
  {
    hide *;
    LeafOk(limit, key, val);
    ValueComplete(limit, val, rest);
    LenComplete(key, MAX_KEY_SIZE, WriteValue(val) + rest);
    LeafLayout(WithLen(key), WriteValue(val), rest);
    ReadLeaf(limit, WithLen(key) + WriteValue(val) + rest, key, |WithLen(key)|, val, |WriteValue(val)|);
    LeafWritten(key, val);
  }

  lemma LeafOk(limit: nat, key: Key, val: RawValue)
    requires EntryOk(0, limit, Leaf(key, val)) && limit < WORD
    ensures |key| <= MAX_KEY_SIZE && |key| < WORD && (val.Inline? ==> |val.bytes| <= limit && |val.bytes| < WORD)
    ensures val.Stream? ==> limit < val.size < WORD && val.depth as nat <= MAX_LEVEL
  {
  }

  lemma LeafWritten(key: Key, val: RawValue)
    ensures WriteEntry(Leaf(key, val)) == WithLen(key) + WriteValue(val)
  {
  }

  lemma ReadLeaf(limit: nat, b: seq<byte>, key: Key, k: nat, v: RawValue, n: nat)
    requires k <= |b| && ReadLen(b, MAX_KEY_SIZE) == Some((key, k)) && ReadValue(limit, b[k..]) == Some((v, n))
    ensures ReadEntry(0, limit, b) == Some((Leaf(key, v), k + n))
  {
    hide ReadLen, ReadValue;
  }

  // The split rule counts an entry's encoded length.
  lemma EntrySizeIs(e: Nodes.Entry, raw: RawEntry)
    requires Stored(e, raw)
    ensures |WriteEntry(raw)| == Nodes.EntrySize(e)
  {
    VarintLen(|e.key|);
    if raw.Inner? {
      VarintLen(raw.count);
    } else if raw.val.Stream? {
      VarintLen(raw.val.size);
    } else {
      VarintLen(|raw.val.bytes|);
    }
  }

  // An entry and how it is stored: the child by its hash.
  ghost predicate Stored(e: Nodes.Entry, raw: RawEntry) {
    && e.key == raw.key && (e.Inner? <==> raw.Inner?)
    && (e.Inner? ==> e.count == raw.count)
    && (e.Leaf? ==>
          match e.val
          case Inline(bytes) => raw.val == Inline(bytes)
          case Stream(root, size, depth) =>
            raw.val.Stream? && raw.val.root == root && raw.val.size == size && raw.val.depth as nat == depth)
  }

  /******** Nodes ********/

  function WriteEntries(es: seq<RawEntry>): seq<byte> {
    if es == [] then [] else WriteEntries(es[..|es| - 1]) + WriteEntry(es[|es| - 1])
  }

  function Header(level: nat, count: nat): seq<byte>
    requires level < 256
  {
    [KIND_NODE] + [level as byte] + Varint(count)
  }

  function WriteNode(n: RawNode): seq<byte>
    requires n.level < 256
  {
    Header(n.level, |n.entries|) + WriteEntries(n.entries)
  }

  function Counts(es: seq<RawEntry>): nat {
    if es == [] then 0 else Counts(es[..|es| - 1]) + if es[|es| - 1].Inner? then es[|es| - 1].count else 0
  }

  predicate Increasing(es: seq<RawEntry>) {
    forall i :: 0 < i < |es| ==> Less(es[i - 1].key, es[i].key)
  }

  // Entries in their canonical forms, keys strictly increasing, the leaf entries under them counted in 64 bits.
  predicate EntriesOk(level: nat, limit: nat, es: seq<RawEntry>) {
    (forall i :: 0 <= i < |es| ==> EntryOk(level, limit, es[i])) && Increasing(es) && (level > 0 ==> Counts(es) < WORD)
  }

  // Levels, entries and counts in range; an inner node has a child.
  predicate Canonical(limit: nat, n: RawNode) {
    n.level <= MAX_LEVEL && EntriesOk(n.level, limit, n.entries) && |n.entries| < WORD
      && (n.level > 0 ==> n.entries != [])
  }

  ghost predicate IsNode(b: seq<byte>, limit: nat, n: RawNode) {
    Canonical(limit, n) && WriteNode(n) == b
  }

  lemma EntriesPush(es: seq<RawEntry>, e: RawEntry)
    ensures WriteEntries(es + [e]) == WriteEntries(es) + WriteEntry(e)
    ensures Counts(es + [e]) == Counts(es) + if e.Inner? then e.count else 0
  {
    assert (es + [e])[..|es|] == es;
  }

  lemma {:induction false} EntriesSplit(es: seq<RawEntry>, i: nat) returns (rest: seq<byte>)
    requires i < |es|
    ensures WriteEntries(es) == WriteEntries(es[..i]) + (WriteEntry(es[i]) + rest)
    decreases |es|
  {
    hide *;
    var init, e := es[..|es| - 1], es[|es| - 1];
    TakeNext(es, |es| - 1);
    assert es[..|es|] == es;
    EntriesPush(init, e);
    if i == |es| - 1 {
      rest := [];
      assert WriteEntry(e) + [] == WriteEntry(e);
    } else {
      var more := EntriesSplit(init, i);
      assert init[..i] == es[..i];
      rest := more + WriteEntry(e);
      AppendAssoc(WriteEntries(es[..i]), WriteEntry(es[i]) + more, WriteEntry(e));
      AppendAssoc(WriteEntry(es[i]), more, WriteEntry(e));
    }
  }

  lemma {:induction false} CountsPrefix(es: seq<RawEntry>, i: nat)
    requires i <= |es|
    ensures Counts(es[..i]) <= Counts(es)
    decreases |es|
  {
    if i < |es| {
      var init := es[..|es| - 1];
      assert init[..i] == es[..i];
      CountsPrefix(init, i);
    } else {
      assert es[..i] == es;
    }
  }

  // A node takes at least a byte an entry.
  lemma {:induction false} EntriesLong(es: seq<RawEntry>)
    ensures |WriteEntries(es)| >= |es|
    decreases |es|
  {
    if es != [] {
      EntriesLong(es[..|es| - 1]);
      EntryLong(es[|es| - 1]);
    }
  }

  lemma EntryLong(e: RawEntry)
    ensures |WriteEntry(e)| >= 1
  {
  }

  /** A position in a byte string with an error that sticks: a failed read moves nothing, and all later ones fail. */
  class Reader {
    const b: seq<byte>
    var off: nat
    var err: bool

    ghost predicate Valid()
      reads this
    {
      off <= |b|
    }

    ghost function Rest(): seq<byte>
      reads this
      requires Valid()
    {
      b[off..]
    }

    lemma RestIs()
      requires Valid()
      ensures off <= |b| && Rest() == b[off..]
    {
    }

    constructor (b: seq<byte>)
      ensures Valid() && this.b == b && off == 0 && !err
    {
      this.b, off, err := b, 0, false;
    }

    method Fixed(n: nat) returns (x: seq<byte>)
      requires Valid()
      modifies this
      ensures Valid() && (err <==> old(err) || n > |old(Rest())|)
      ensures err ==> x == [] && off == old(off)
      ensures !err ==> x == old(Rest())[..n] && off == old(off) + n
    {
      if err {
        return [];
      }
      if n > |b| - off {
        err := true;
        return [];
      }
      x := b[off..off + n];
      off := off + n;
    }

    method U8() returns (v: byte)
      requires Valid()
      modifies this
      ensures Valid() && (err <==> old(err) || old(Rest()) == [])
      ensures err ==> v == 0 && off == old(off)
      ensures !err ==> v == old(Rest())[0] && off == old(off) + 1
    {
      var x := Fixed(1);
      v := if x == [] then 0 else x[0];
    }

    method Uvarint() returns (v: nat)
      requires Valid()
      modifies this
      ensures Valid() && (err <==> old(err) || ReadU64(old(Rest())).None?)
      ensures err ==> v == 0 && off == old(off)
      ensures !err ==> ReadU64(old(Rest())) == Some((v, off - old(off))) && v < WORD
    {
      if err {
        return 0;
      }
      var r := ReadU64(b[off..]);
      if r.None? {
        err := true;
        return 0;
      }
      v := r.value.0;
      off := off + r.value.1;
    }

    method LenBytes(max: nat) returns (x: seq<byte>)
      requires Valid()
      modifies this
      ensures Valid() && (err <==> old(err) || ReadLen(old(Rest()), max).None?)
      ensures !err ==> ReadLen(old(Rest()), max) == Some((x, off - old(off)))
    {
      hide ReadU64;
      var n := Uvarint();
      if err {
        return [];
      }
      if n > max {
        err := true;
        return [];
      }
      ghost var rest, at := b[old(off)..], off - old(off);
      assert rest[at..] == b[off..];
      assert rest[at..at + (if n <= |b| - off then n else 0)] == b[off..][..if n <= |b| - off then n else 0];
      x := Fixed(n);
    }
  }

  // The value of a leaf entry.
  method NextValue(r: Reader, limit: nat) returns (v: Option<RawValue>)
    requires r.Valid() && !r.err
    modifies r
    ensures r.Valid() && (v.Some? <==> ReadValue(limit, old(r.Rest())).Some?)
    ensures v.Some? ==> !r.err && ReadValue(limit, old(r.Rest())) == Some((v.value, r.off - old(r.off)))
  {
    hide ReadLen, ReadU64;
    ghost var rest, o := r.Rest(), r.off;
    var tag := r.U8();
    if r.err {
      return None;
    }
    DropTwice(r.b, o, 1);
    if tag == VAL_INLINE {
      var x := r.LenBytes(limit);
      return if r.err then None else Some(Inline(x));
    }
    if tag != VAL_STREAM {
      return None;
    }
    var root := r.Fixed(32);
    if r.err {
      return None;
    }
    DropTwice(r.b, o, 33);
    assert rest[1..][..32] == rest[1..33];
    assert root == rest[1..33];
    var size := r.Uvarint();
    if r.err {
      return None;
    }
    DropTwice(r.b, o, r.off - o);
    var depth := r.U8();
    if r.err || size <= limit || depth as nat > MAX_LEVEL {
      return None;
    }
    v := Some(Stream(root, size, depth));
  }

  // One entry; none for one that does not decode.
  method NextEntry(r: Reader, level: nat, limit: nat) returns (e: Option<RawEntry>)
    requires r.Valid() && !r.err
    modifies r
    ensures r.Valid() && (e.Some? <==> ReadEntry(level, limit, old(r.Rest())).Some?)
    ensures e.Some? ==> !r.err && ReadEntry(level, limit, old(r.Rest())) == Some((e.value, r.off - old(r.off)))
  {
    hide ReadLen, ReadU64, ReadValue;
    ghost var rest, o := r.Rest(), r.off;
    var key := r.LenBytes(MAX_KEY_SIZE);
    if r.err {
      return None;
    }
    ghost var k := r.off - o;
    DropTwice(r.b, o, k);
    if level == 0 {
      var v := NextValue(r, limit);
      return if v.None? then None else Some(Leaf(key, v.value));
    }
    var child := r.Fixed(32);
    if r.err {
      return None;
    }
    DropTwice(r.b, o, k + 32);
    assert rest[k..][..32] == rest[k..k + 32];
    assert child == rest[k..k + 32];
    var count := r.Uvarint();
    if r.err || count == 0 {
      return None;
    }
    e := Some(Inner(key, child, count));
  }

  // So far: the bytes read are the header and these entries, and every node the bytes could be starts with them.
  ghost predicate Decoding(b: seq<byte>, limit: nat, level: nat, count: nat, es: seq<RawEntry>, off: nat) {
    && level <= MAX_LEVEL && |es| <= count < WORD && off <= |b| && EntriesOk(level, limit, es)
       && (level > 0 ==> count > 0)
    && b[..off] == Header(level, count) + WriteEntries(es)
    && forall n: RawNode :: IsNode(b, limit, n) ==> n.level == level && |n.entries| == count && n.entries[..|es|] == es
  }

  ghost predicate NoNode(b: seq<byte>, limit: nat) {
    forall n: RawNode :: !IsNode(b, limit, n)
  }

  // What the next entry of any node the bytes could be reads as.
  lemma NextReads(b: seq<byte>, limit: nat, level: nat, count: nat, es: seq<RawEntry>, off: nat, n: RawNode)
    requires Decoding(b, limit, level, count, es, off) && |es| < count && IsNode(b, limit, n) && limit < WORD
    ensures |es| < |n.entries| && n.level == level
    ensures ReadEntry(level, limit, b[off..]) == Some((n.entries[|es|], |WriteEntry(n.entries[|es|])|))
  {
    var i := |es|;
    assert n.level == level && |n.entries| == count && n.entries[..i] == es;
    var rest := EntriesSplit(n.entries, i);
    var head := Header(level, count) + WriteEntries(es);
    AppendAssoc(Header(level, count), WriteEntries(es), WriteEntry(n.entries[i]) + rest);
    assert b == head + (WriteEntry(n.entries[i]) + rest);
    assert b[off..] == WriteEntry(n.entries[i]) + rest;
    assert EntryOk(level, limit, n.entries[i]);
    hide ReadEntry, WriteEntry, WriteEntries, Header;
    EntryComplete(level, limit, n.entries[i], rest);
  }

  // An entry may follow these.
  predicate Follows(level: nat, es: seq<RawEntry>, e: RawEntry) {
    (level > 0 ==> e.Inner? && Counts(es) + e.count < WORD) && (es != [] ==> Less(es[|es| - 1].key, e.key))
  }

  lemma EntriesOkPush(level: nat, limit: nat, es: seq<RawEntry>, e: RawEntry)
    requires EntriesOk(level, limit, es) && EntryOk(level, limit, e)
    ensures EntriesOk(level, limit, es + [e]) <==> Follows(level, es, e)
  {
    assert level > 0 ==> e.Inner?;
    EntriesPush(es, e);
    IncreasingPush(es, e);
    AllOkPush(level, limit, es, e);
    hide EntryOk, Counts, Less, Increasing;
  }

  lemma AllOkPush(level: nat, limit: nat, es: seq<RawEntry>, e: RawEntry)
    requires (forall i :: 0 <= i < |es| ==> EntryOk(level, limit, es[i])) && EntryOk(level, limit, e)
    ensures forall i :: 0 <= i < |es + [e]| ==> EntryOk(level, limit, (es + [e])[i])
  {
    hide EntryOk;
  }

  lemma IncreasingPush(es: seq<RawEntry>, e: RawEntry)
    requires Increasing(es)
    ensures Increasing(es + [e]) <==> (es != [] ==> Less(es[|es| - 1].key, e.key))
  {
    hide Less;
    var es' := es + [e];
    assert es'[|es|] == e && (es != [] ==> es'[|es| - 1] == es[|es| - 1]);
    if es != [] && Less(es[|es| - 1].key, e.key) {
      forall i | 0 < i < |es'| ensures Less(es'[i - 1].key, es'[i].key) {
        if i < |es| {
          assert es'[i - 1] == es[i - 1] && es'[i] == es[i];
        }
      }
    }
  }

  lemma {:induction false} EntriesOkPrefix(level: nat, limit: nat, es: seq<RawEntry>, i: nat)
    requires EntriesOk(level, limit, es) && i <= |es|
    ensures EntriesOk(level, limit, es[..i])
  {
    CountsPrefix(es, i);
    hide EntryOk, Counts, Less;
  }

  lemma DecodeStep(b: seq<byte>, limit: nat, level: nat, count: nat, es: seq<RawEntry>, off: nat, e: RawEntry, n: nat)
    requires Decoding(b, limit, level, count, es, off) && |es| < count && limit < WORD
    requires ReadEntry(level, limit, b[off..]) == Some((e, n))
    ensures off + n <= |b| && (Follows(level, es, e) ==> Decoding(b, limit, level, count, es + [e], off + n))
    ensures level > 0 <==> e.Inner?
    ensures !Follows(level, es, e) ==> NoNode(b, limit)
  {
    hide *;
    DecodingMeans(b, limit, level, count, es, off);
    EntrySound(level, limit, b[off..]);
    InnerIs(level, limit, e);
    EntriesOkPush(level, limit, es, e);
    EntriesPush(es, e);
    LeafSlices(b, off, n);
    AppendAssoc(Header(level, count), WriteEntries(es), WriteEntry(e));
    forall m: RawNode | IsNode(b, limit, m)
      ensures m.level == level && |m.entries| == count && m.entries[..|es| + 1] == es + [e] && Follows(level, es, e)
    {
      NextReads(b, limit, level, count, es, off, m);
      TakeNext(m.entries, |es|);
      NodeEntriesOk(b, limit, m);
      EntriesOkPrefix(level, limit, m.entries, |es| + 1);
    }
    if Follows(level, es, e) {
      DecodingIs(b, limit, level, count, es + [e], off + n);
    } else {
      NoNodeIs(b, limit);
    }
  }

  lemma InnerIs(level: nat, limit: nat, e: RawEntry)
    requires EntryOk(level, limit, e)
    ensures level > 0 <==> e.Inner?
  {
  }

  lemma TakeNext<T>(s: seq<T>, i: nat)
    requires i < |s|
    ensures s[..i + 1] == s[..i] + [s[i]]
  {
  }

  lemma NoNodeIs(b: seq<byte>, limit: nat)
    requires forall n: RawNode :: IsNode(b, limit, n) ==> false
    ensures NoNode(b, limit)
  {
    hide IsNode;
  }

  lemma DecodingMeans(b: seq<byte>, limit: nat, level: nat, count: nat, es: seq<RawEntry>, off: nat)
    requires Decoding(b, limit, level, count, es, off)
    ensures level <= MAX_LEVEL && level < 256 && |es| <= count < WORD && off <= |b| && EntriesOk(level, limit, es)
            && (level > 0 ==> count > 0)
    ensures b[..off] == Header(level, count) + WriteEntries(es)
    ensures forall n: RawNode ::
              IsNode(b, limit, n) ==> n.level == level && |n.entries| == count && n.entries[..|es|] == es
  {
    hide IsNode, EntriesOk, WriteEntries, Header;
  }

  lemma DecodingIs(b: seq<byte>, limit: nat, level: nat, count: nat, es: seq<RawEntry>, off: nat)
    requires level <= MAX_LEVEL && level < 256 && |es| <= count < WORD && off <= |b| && EntriesOk(level, limit, es)
             && (level > 0 ==> count > 0)
    requires b[..off] == Header(level, count) + WriteEntries(es)
    requires forall n: RawNode ::
               IsNode(b, limit, n) ==> n.level == level && |n.entries| == count && n.entries[..|es|] == es
    ensures Decoding(b, limit, level, count, es, off)
  {
    hide IsNode, EntriesOk, WriteEntries, Header;
  }

  lemma NodeEntriesOk(b: seq<byte>, limit: nat, m: RawNode)
    requires IsNode(b, limit, m)
    ensures EntriesOk(m.level, limit, m.entries)
  {
  }

  lemma EntryRefused(b: seq<byte>, limit: nat, level: nat, count: nat, es: seq<RawEntry>, off: nat)
    requires Decoding(b, limit, level, count, es, off) && |es| < count && limit < WORD
             && ReadEntry(level, limit, b[off..]).None?
    ensures NoNode(b, limit)
  {
    forall m: RawNode ensures !IsNode(b, limit, m) {
      if IsNode(b, limit, m) {
        NextReads(b, limit, level, count, es, off, m);
      }
    }
  }

  lemma DecodeEnds(b: seq<byte>, limit: nat, level: nat, count: nat, es: seq<RawEntry>, off: nat)
    requires Decoding(b, limit, level, count, es, off) && |es| == count
    ensures off == |b| ==> IsNode(b, limit, RawNode(level, es))
    ensures off != |b| ==> NoNode(b, limit)
  {
    hide EntriesOk, WriteEntries, Header;
    assert off == |b| ==> b[..off] == b;
    forall m: RawNode | IsNode(b, limit, m) ensures off == |b| {
      assert m.entries[..count] == m.entries;
    }
  }

  // How the header of any node the bytes could be reads.
  lemma HeaderReads(b: seq<byte>, limit: nat, m: RawNode)
    requires IsNode(b, limit, m)
    ensures |b| >= 2 && b[0] == KIND_NODE && b[1] as nat == m.level <= MAX_LEVEL && |m.entries| <= |b|
            && (m.level > 0 ==> |m.entries| > 0)
    ensures ReadU64(b[2..]) == Some((|m.entries|, |Varint(|m.entries|)|))
  {
    EntriesLong(m.entries);
    var v, es := Varint(|m.entries|), WriteEntries(m.entries);
    VarintComplete(|m.entries|, es);
    hide Varint, ReadVarint, WriteEntries, EntriesOk;
    HeaderLayout(KIND_NODE, m.level as byte, v, es);
  }

  lemma HeaderLayout(k: byte, l: byte, v: seq<byte>, es: seq<byte>)
    ensures var b := [k] + [l] + v + es; |b| == 2 + |v| + |es| && b[0] == k && b[1] == l && b[2..] == v + es
  {
  }

  lemma HeaderOk(b: seq<byte>, limit: nat, count: nat, n: nat)
    requires |b| >= 2 && b[0] == KIND_NODE && b[1] as nat <= MAX_LEVEL && (b[1] > 0 ==> count > 0)
             && ReadU64(b[2..]) == Some((count, n))
    ensures Decoding(b, limit, b[1] as nat, count, [], 2 + n)
  {
    U64Sound(b[2..]);
    hide Varint, ReadVarint, ReadU64;
    LeafSlices(b, 2, n);
    assert b[..2] == [KIND_NODE] + [b[1]];
    assert Header(b[1] as nat, count) + WriteEntries([]) == Header(b[1] as nat, count);
    forall m: RawNode | IsNode(b, limit, m) ensures m.level == b[1] as nat && |m.entries| == count {
      HeaderReads(b, limit, m);
    }
  }

  lemma HeaderRefused(b: seq<byte>, limit: nat)
    requires |b| < 2 || b[0] != KIND_NODE || b[1] as nat > MAX_LEVEL || ReadU64(b[2..]).None?
             || ReadU64(b[2..]).value.0 > |b| || (b[1] > 0 && ReadU64(b[2..]).value.0 == 0)
    ensures NoNode(b, limit)
  {
    forall m: RawNode ensures !IsNode(b, limit, m) {
      if IsNode(b, limit, m) {
        HeaderReads(b, limit, m);
      }
    }
  }

  /** Parses a node: what is returned is canonical and writes back to the bytes given, and bytes that are refused
      are no canonical node's. */
  method Decode(b: seq<byte>, limit: nat) returns (n: Option<RawNode>)
    requires limit < WORD
    ensures n.Some? ==> IsNode(b, limit, n.value)
    ensures n.None? ==> NoNode(b, limit)
    // What was written is what is read.
    ensures forall m: RawNode :: IsNode(b, limit, m) ==> n == Some(m)
  {
    hide *;
    n := DecodeAny(b, limit);
    if n.None? {
      NoNodeMeans(b, limit);
    } else {
      OnlyNode(b, limit, n.value);
    }
  }

  lemma NoNodeMeans(b: seq<byte>, limit: nat)
    requires NoNode(b, limit)
    ensures forall m: RawNode :: !IsNode(b, limit, m)
  {
    hide IsNode;
  }

  lemma OnlyNode(b: seq<byte>, limit: nat, n: RawNode)
    requires IsNode(b, limit, n) && limit < WORD
    ensures forall m: RawNode :: IsNode(b, limit, m) ==> m == n
  {
    hide IsNode;
    forall m: RawNode | IsNode(b, limit, m) ensures m == n {
      EncodingInjective(b, limit, m, n);
    }
  }

  // The decoder's loop.
  method DecodeAny(b: seq<byte>, limit: nat) returns (n: Option<RawNode>)
    requires limit < WORD
    ensures n.Some? ==> IsNode(b, limit, n.value)
    ensures n.None? ==> NoNode(b, limit)
  {
    hide *;
    var r := new Reader(b);
    var kind, level, count := ReadHeader(r);
    if r.err || kind != KIND_NODE || level as nat > MAX_LEVEL || count > |b| || (level > 0 && count == 0) {
      HeaderRefused(b, limit);
      return None;
    }
    HeaderOk(b, limit, count, r.off - 2);
    var es: seq<RawEntry>, sum := [], 0;
    CountsNone();
    while |es| < count
      invariant r.Valid() && fresh(r) && !r.err && r.b == b && |es| <= count
                && Decoding(b, limit, level as nat, count, es, r.off)
      invariant sum == Counts(es)
      decreases count - |es|
    {
      ghost var off := r.off;
      r.RestIs();
      var e := NextEntry(r, level as nat, limit);
      if e.None? {
        EntryRefused(b, limit, level as nat, count, es, off);
        return None;
      }
      DecodeStep(b, limit, level as nat, count, es, off, e.value, r.off - off);
      FollowsIs(level as nat, es, e.value);
      EntriesPush(es, e.value);
      if e.value.Inner? {
        sum := sum + e.value.count;
        if level > 0 && sum >= WORD {
          return None;
        }
      }
      if |es| > 0 {
        var c := Compare(es[|es| - 1].key, e.value.key);
        RankOrders(es[|es| - 1].key, e.value.key);
        if c >= 0 {
          return None;
        }
      }
      es := es + [e.value];
    }
    DecodeEnds(b, limit, level as nat, count, es, r.off);
    if r.off != |b| {
      return None;
    }
    n := Some(RawNode(level as nat, es));
  }

  method ReadHeader(r: Reader) returns (kind: byte, level: byte, count: nat)
    requires r.Valid() && !r.err && r.off == 0
    modifies r
    ensures r.Valid() && (!r.err <==> |r.b| >= 2 && ReadU64(r.b[2..]).Some?)
    ensures !r.err ==> kind == r.b[0] && level == r.b[1] && r.off >= 2 && ReadU64(r.b[2..]) == Some((count, r.off - 2))
  {
    hide ReadU64;
    kind := r.U8();
    level := r.U8();
    count := r.Uvarint();
  }

  lemma CountsNone()
    ensures Counts([]) == 0
  {
  }

  lemma FollowsIs(level: nat, es: seq<RawEntry>, e: RawEntry)
    ensures Follows(level, es, e) <==>
              (level > 0 ==> e.Inner? && Counts(es) + e.count < WORD) && (es != [] ==> Less(es[|es| - 1].key, e.key))
  {
  }

  // What follows the first i entries of a node in its bytes.
  lemma TailOf(b: seq<byte>, limit: nat, m: RawNode, i: nat) returns (rest: seq<byte>)
    requires IsNode(b, limit, m) && i < |m.entries| && limit < WORD
    ensures m.level < 256 && b == Header(m.level, |m.entries|) + WriteEntries(m.entries[..i])
            + (WriteEntry(m.entries[i]) + rest)
    ensures ReadEntry(m.level, limit,
            WriteEntry(m.entries[i]) + rest) == Some((m.entries[i], |WriteEntry(m.entries[i])|))
  {
    rest := EntriesSplit(m.entries, i);
    AppendAssoc(Header(m.level, |m.entries|), WriteEntries(m.entries[..i]), WriteEntry(m.entries[i]) + rest);
    assert EntryOk(m.level, limit, m.entries[i]);
    hide ReadEntry, WriteEntry, WriteEntries, Header;
    EntryComplete(m.level, limit, m.entries[i], rest);
  }

  lemma SameTails(head: seq<byte>, a: seq<byte>, b: seq<byte>)
    requires head + a == head + b
    ensures a == b
  {
    assert (head + a)[|head|..] == a && (head + b)[|head|..] == b;
  }

  lemma {:induction false} SamePrefix(b: seq<byte>, limit: nat, m: RawNode, m': RawNode, i: nat)
    requires IsNode(b, limit, m) && IsNode(b, limit, m') && m.level == m'.level && |m.entries| == |m'.entries|
             && i <= |m.entries| && limit < WORD
    ensures m.entries[..i] == m'.entries[..i]
  {
    hide *;
    if i > 0 {
      SamePrefix(b, limit, m, m', i - 1);
      var r := TailOf(b, limit, m, i - 1);
      var r' := TailOf(b, limit, m', i - 1);
      SameTails(Header(m.level, |m.entries|) + WriteEntries(m.entries[..i - 1]), WriteEntry(m.entries[i - 1]) + r,
                WriteEntry(m'.entries[i - 1]) + r');
      TakeNext(m.entries, i - 1);
      TakeNext(m'.entries, i - 1);
    }
  }

  /** No two canonical nodes are written alike: a node's hash stands for one node. */
  lemma EncodingInjective(b: seq<byte>, limit: nat, m: RawNode, m': RawNode)
    requires IsNode(b, limit, m) && IsNode(b, limit, m') && limit < WORD
    ensures m == m'
  {
    hide *;
    HeaderReads(b, limit, m);
    HeaderReads(b, limit, m');
    SamePrefix(b, limit, m, m', |m.entries|);
    assert m.entries[..|m.entries|] == m.entries && m'.entries[..|m.entries|] == m'.entries;
  }

  /******** The trees' own nodes ********/

  // What the store asks of a node it is given: keys, levels and counts in range, values in their one form.
  ghost predicate Storable(limit: nat, n: Nodes.Node) {
    && n.level <= MAX_LEVEL && |n.entries| < WORD && n.Total() < WORD
    && (forall i :: 0 <= i < |n.entries| ==> |n.entries[i].key| <= MAX_KEY_SIZE)
    && (forall i :: 0 <= i < |n.entries| && n.entries[i].Leaf? ==> ValueOk(limit, n.entries[i].val))
  }

  ghost predicate ValueOk(limit: nat, v: Nodes.Value) {
    match v
    case Inline(bytes) => |bytes| <= limit
    case Stream(_, size, depth) => limit < size < WORD && depth <= MAX_LEVEL
  }

  // A node and how it is stored.
  ghost predicate StoredAs(n: Nodes.Node, raw: RawNode) {
    && raw.level == n.level && |raw.entries| == |n.entries|
    && forall i :: 0 <= i < |n.entries| ==> Stored(n.entries[i], raw.entries[i])
  }

  lemma {:induction false} CountsAre(es: seq<Nodes.Entry>, raws: seq<RawEntry>)
    requires |es| == |raws| && forall i :: 0 <= i < |es| ==> Stored(es[i], raws[i])
    ensures Counts(raws) == Nodes.SumCounts(es) && |WriteEntries(raws)| == Nodes.SizeOf(es)
  {
    if es != [] {
      var n := |es| - 1;
      CountsAre(es[..n], raws[..n]);
      EntrySizeIs(es[n], raws[n]);
      assert Stored(es[n], raws[n]);
      hide WriteEntry, Nodes.EntrySize;
    }
  }

  lemma {:induction false} TotalPositive(n: Nodes.Node)
    requires Trees.Good(n) && n.entries != []
    ensures n.Total() >= 1
    decreases n.level
  {
    if n.level > 0 {
      var e := n.entries[|n.entries| - 1];
      assert Nodes.Fits(n.level, e);
      TotalPositive(e.child);
    }
  }

  lemma EntryCanonical(limit: nat, n: Nodes.Node, raw: RawNode, i: nat)
    requires Trees.Good(n) && Storable(limit, n) && StoredAs(n, raw) && i < |n.entries|
    ensures EntryOk(n.level, limit, raw.entries[i])
  {
    var e := n.entries[i];
    assert Stored(e, raw.entries[i]) && Nodes.Fits(n.level, e);
    if n.level > 0 {
      TotalPositive(e.child);
      CountUnder(n.entries, i);
    }
  }

  lemma {:induction false} CountUnder(es: seq<Nodes.Entry>, i: nat)
    requires i < |es| && es[i].Inner?
    ensures es[i].count <= Nodes.SumCounts(es)
  {
    if i < |es| - 1 {
      CountUnder(es[..|es| - 1], i);
    }
  }

  /** Every storable node of a well-formed tree, the canonical trees' among them, is stored in a form the decoder
      accepts, at the size the split rule counted. */
  lemma GoodCanonical(limit: nat, n: Nodes.Node, raw: RawNode)
    requires Trees.Good(n) && Storable(limit, n) && StoredAs(n, raw)
    ensures Canonical(limit, raw) && IsNode(WriteNode(raw), limit, raw)
    ensures |WriteEntries(raw.entries)| == Nodes.SizeOf(n.entries)
  {
    hide *;
    StoredMeans(n, raw);
    CountsAre(n.entries, raw.entries);
    forall i | 0 <= i < |raw.entries| ensures EntryOk(raw.level, limit, raw.entries[i]) {
      EntryCanonical(limit, n, raw, i);
    }
    KeysIncrease(n, raw);
    CanonicalIs(limit, n, raw);
  }

  lemma StoredMeans(n: Nodes.Node, raw: RawNode)
    requires StoredAs(n, raw)
    ensures raw.level == n.level && |raw.entries| == |n.entries|
    ensures forall i :: 0 <= i < |n.entries| ==> Stored(n.entries[i], raw.entries[i])
  {
    hide Stored;
  }

  lemma KeysIncrease(n: Nodes.Node, raw: RawNode)
    requires Trees.Good(n) && StoredAs(n, raw)
    ensures Increasing(raw.entries)
  {
    hide Less, Rank;
    assert Nodes.Sorted(n.entries);
    forall i | 0 < i < |raw.entries| ensures Less(raw.entries[i - 1].key, raw.entries[i].key) {
      assert Stored(n.entries[i - 1], raw.entries[i - 1]) && Stored(n.entries[i], raw.entries[i]);
      RankOrders(n.entries[i - 1].key, n.entries[i].key);
    }
  }

  lemma CanonicalIs(limit: nat, n: Nodes.Node, raw: RawNode)
    requires Trees.Good(n) && Storable(limit, n) && raw.level == n.level && |raw.entries| == |n.entries|
    requires (forall i :: 0 <= i < |raw.entries| ==> EntryOk(raw.level, limit, raw.entries[i]))
             && Increasing(raw.entries)
    requires Counts(raw.entries) == Nodes.SumCounts(n.entries)
    ensures Canonical(limit, raw) && IsNode(WriteNode(raw), limit, raw)
  {
    hide EntryOk, Counts, WriteEntries, Increasing, Trees.GoodRow, Nodes.SumCounts, Header, ValueOk;
  }
}
