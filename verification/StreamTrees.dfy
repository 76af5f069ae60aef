/** The index tree a stream's bytes determine: each level drawn from the whole of the one below, to a level of one. */
module StreamTrees {
  import opened Keys
  import opened Boundary
  import opened Streams
  import Nodes
  import Cdc

  /** How a tree is drawn: the split rule, and the hash a tree is known by. */
  datatype Pen = Pen(rule: Rule, hash: Tree -> Key)

  // The nodes of a level that have ended, and the one that has not, with its size.
  datatype Drawn = Drawn(done: seq<seq<Entry>>, open: seq<Entry>, size: nat)

  function EntryBytes(e: Entry): nat {
    32 + Nodes.UvarintLen(e.size)
  }

  ghost predicate EndsHere(p: Pen, level: nat, d: Drawn, e: Entry) {
    Ends(p.rule, level, |d.open| + 1, d.size, d.size + EntryBytes(e), p.hash(e.child))
  }

  ghost function Step(p: Pen, level: nat, d: Drawn, e: Entry): Drawn {
    if EndsHere(p, level, d, e) then Drawn(d.done + [d.open + [e]], [], 0)
    else Drawn(d.done, d.open + [e], d.size + EntryBytes(e))
  }

  ghost function Feed(p: Pen, level: nat, row: seq<Entry>): Drawn {
    if row == [] then Drawn([], [], 0) else Step(p, level, Feed(p, level, row[..|row| - 1]), row[|row| - 1])
  }

  lemma FeedPush(p: Pen, level: nat, row: seq<Entry>, e: Entry)
    ensures Feed(p, level, row + [e]) == Step(p, level, Feed(p, level, row), e)
  {
    assert (row + [e])[..|row|] == row;
  }

  // The entry that lists a node of a level.
  function NodeEntry(level: nat, es: seq<Entry>): Entry {
    Entry(Index(level, es), Sum(es))
  }

  ghost function NodeEntries(level: nat, nodes: seq<seq<Entry>>): (es: seq<Entry>)
    ensures |es| == |nodes|
  {
    seq(|nodes|, i requires 0 <= i < |nodes| => NodeEntry(level, nodes[i]))
  }

  lemma NodeEntriesPush(level: nat, nodes: seq<seq<Entry>>, n: seq<Entry>)
    ensures NodeEntries(level, nodes + [n]) == NodeEntries(level, nodes) + [NodeEntry(level, n)]
  {
    hide NodeEntry;
  }

  // All the nodes of a level once its row is over.
  ghost function All(d: Drawn): seq<seq<Entry>> {
    if d.open == [] then d.done else d.done + [d.open]
  }

  // Above the data every node that ends has two entries or more.
  lemma {:induction false} Shrinks(p: Pen, level: nat, row: seq<Entry>)
    requires level >= 1
    ensures var d := Feed(p, level, row); 2 * |d.done| + |d.open| <= |row|
  {
    if row != [] {
      Shrinks(p, level, row[..|row| - 1]);
    }
  }

  // What the row above a row is.
  ghost function Above(p: Pen, lv: nat, row: seq<Entry>): (r: seq<Entry>)
    ensures |row| >= 2 ==> 1 <= |r| < |row|
  {
    Shrinks(p, lv + 1, row);
    FeedSome(p, lv + 1, row);
    NodeEntries(lv + 1, All(Feed(p, lv + 1, row)))
  }

  lemma FeedSome(p: Pen, level: nat, row: seq<Entry>)
    requires level >= 1
    ensures row != [] ==> All(Feed(p, level, row)) != []
  {
  }

  /** The root over a row of trees of a depth: rows above it until one has a single tree. */
  ghost function Top(p: Pen, lv: nat, row: seq<Entry>): Ref
    requires row != []
    decreases |row|
  {
    if |row| == 1 then Ref(row[0].child, row[0].size, lv) else Top(p, lv + 1, Above(p, lv, row))
  }

  function ChunkEntry(chunk: seq<byte>): Entry {
    Entry(Data(chunk), |chunk|)
  }

  ghost function ChunkRow(chunks: seq<seq<byte>>): (es: seq<Entry>)
    ensures |es| == |chunks|
  {
    seq(|chunks|, i requires 0 <= i < |chunks| => ChunkEntry(chunks[i]))
  }

  lemma ChunkRowSplit(chunk: seq<byte>, more: seq<seq<byte>>)
    ensures ChunkRow([chunk] + more) == [ChunkEntry(chunk)] + ChunkRow(more)
  {
  }

  /** The stream of some bytes: their chunks, and the tree over them. Nothing else enters into it. */
  ghost function StreamOf(c: Cdc.Cutter, p: Pen, bytes: seq<byte>): Ref
    requires c.g.Valid()
  {
    var row := ChunkRow(Cdc.Chunks(c, bytes, 0));
    if row == [] then Ref(Data([]), 0, 0) else Top(p, 0, row)
  }
}
