/** Cursors: what a cursor has yet to visit is a suffix of its level's entries, whatever climbing its parents do. */
module Cursors {
  import opened Keys
  import opened Nodes
  import opened Basics
  import opened Trees

  // Binary search: every entry before k has a key below key, and no later one does.
  method Search(n: Node, key: Key) returns (k: nat)
    requires Sorted(n.entries)
    ensures k <= |n.entries|
    ensures forall j :: 0 <= j < k ==> Rank(n.entries[j].key) < Rank(key)
    ensures forall j :: k <= j < |n.entries| ==> Rank(key) <= Rank(n.entries[j].key)
  {
    var high := |n.entries|;
    k := 0;
    while k < high
      invariant k <= high <= |n.entries|
      invariant forall j :: 0 <= j < k ==> Rank(n.entries[j].key) < Rank(key)
      invariant forall j :: high <= j < |n.entries| ==> Rank(key) <= Rank(n.entries[j].key)
    {
      var mid := (k + high) / 2;
      var c := Compare(n.entries[mid].key, key);
      if c >= 0 { high := mid; } else { k := mid + 1; }
    }
  }

  // The entries from position i of n on, where after follows n's own entry in the row above.
  ghost function From(n: Node, i: nat, after: seq<Entry>): seq<Entry>
    requires i <= |n.entries| && AllInner(after)
  {
    n.entries[i..] + Expand(after)
  }

  lemma FromStep(n: Node, i: nat, after: seq<Entry>)
    requires i < |n.entries| && AllInner(after)
    ensures From(n, i, after)[0] == n.entries[i]
    ensures From(n, i, after)[1..] == From(n, i + 1, after)
    ensures From(n, |n.entries|, after) == Expand(after)
  {
  }

  lemma FromEmpty(n: Node, after: seq<Entry>)
    requires AllInner(after)
    ensures From(n, |n.entries|, after) == Expand(after)
    ensures after == [] ==> Expand(after) == []
  {
  }

  lemma ExpandEmpty(level: nat, row: seq<Entry>)
    requires level > 0 && GoodRow(level, row)
    ensures AllInner(row) && (Expand(row) == [] <==> row == [])
  {
    if row != [] {
      StepDown(level, row);
    }
  }

  // Starting at the first entry of a row's first child.
  lemma StepDown(level: nat, row: seq<Entry>)
    requires level > 0 && GoodRow(level, row) && row != []
    ensures AllInner(row) && AllInner(row[1..])
    ensures var c := row[0].child; c.level == level - 1 && Good(c) && c.entries != []
    ensures GoodRow(level - 1, Expand(row))
    ensures Expand(row) == From(row[0].child, 0, row[1..])
  {
    assert Fits(level, row[0]);
    assert forall k :: 0 <= k < |row| ==> Fits(level, row[k]);
    ExpandGood(level, row);
  }

  class Cursor {
    const level: nat
    const parent: Cursor?
    ghost const chain: set<Cursor>
    var n: Node
    var i: nat
    var end: bool
    // The entries of the level from this position on.
    ghost var rest: seq<Entry>

    // The chain of parents, all well placed.
    ghost predicate Linked()
      reads this, chain
      decreases chain, 0
    {
      && this in chain
      && (parent == null ==> chain == {this})
      && (parent != null ==>
            && parent in chain && chain == parent.chain + {this} && this !in parent.chain
            && parent.level == level + 1
            && parent.Valid())
    }

    // In a node, the one its parent points at.
    ghost predicate Placed()
      reads this, chain
      decreases chain, 1
    {
      && Linked()
      && !end && n.level == level && Good(n)
      && (parent != null ==> parent.rest != [] && parent.rest[0].Inner? && parent.rest[0].child == n)
    }

    // What follows this node's entry in the row above.
    ghost function After(): seq<Entry>
      reads this, parent
    {
      if parent == null || parent.rest == [] then [] else parent.rest[1..]
    }

    ghost predicate Valid()
      reads this, chain
      decreases chain, 2
    {
      && Linked()
      && GoodRow(level, rest)
      && (if end then rest == [] && (parent != null ==> parent.rest == [])
          else
            && Placed() && AllInner(After()) && i <= |n.entries| && rest == From(n, i, After())
            && (i < |n.entries| || (parent == null && n.entries == [])))
    }

    predicate InRange()
      reads this
    {
      !end && i < |n.entries|
    }

    lemma InRangeMeans()
      requires Valid()
      ensures InRange() <==> rest != []
      ensures InRange() ==> rest[0] == n.entries[i]
    {
    }

    // The parent is a cursor of its own, in a smaller chain.
    lemma ChainMeans()
      requires Valid()
      ensures this in chain
      ensures parent != null ==>
                && parent.Valid() && parent in parent.chain && parent.level == level + 1
                && chain == parent.chain + {this} && this !in parent.chain
    {
    }

    // Under a parent, the entries left start with the rest of that parent's current child.
    lemma PlaceMeans()
      requires Valid() && rest != [] && parent != null
      ensures !end && i < |n.entries| && parent.rest != []
      ensures AllInner(parent.rest) && AllInner(parent.rest[1..]) && parent.rest[0].child == n
      ensures rest == From(n, i, parent.rest[1..])
    {
      assert parent.Valid();
      StepDown(parent.level, parent.rest);
    }

    // Inside a node above the leaves there is an entry.
    lemma StartMeans()
      requires Valid() && !end && i == 0 && level > 0
      ensures Sorted(n.entries) && n.entries != [] && |n.entries| <= |rest|
    {
    }

    lemma LinkUp()
      requires parent != null && parent.Valid() && parent in parent.chain && parent.level == level + 1
      requires chain == parent.chain + {this} && this !in parent.chain
      ensures Linked()
    {
    }

    constructor AtRoot(root: Node)
      requires Good(root)
      ensures Valid() && fresh(chain) && parent == null && level == root.level
      ensures n == root && i == 0 && !end && rest == root.entries
    {
      level, parent, chain := root.level, null, {this};
      n, i, end := root, 0, false;
      rest := root.entries;
      new;
      assert rest == From(n, i, After());
    }

    // A fresh cursor over the whole of p's current child.
    constructor Under(p: Cursor)
      requires p.Valid() && p.level > 0 && p.rest != []
      ensures Valid() && parent == p && chain == p.chain + {this} && fresh({this}) && level == p.level - 1
      ensures i == 0 && !end && n == p.rest[0].child
      ensures rest == Expand(p.rest)
    {
      p.InRangeMeans();
      StepDown(p.level, p.rest);
      level, parent, chain := p.level - 1, p, p.chain + {this};
      n, i, end := p.n.entries[p.i].child, 0, false;
      rest := Expand(p.rest);
      new;
    }

    // Reloads from the parent: what is left is then everything below the parent's own position.
    method Fetch()
      requires parent != null && Linked() && !end && parent.rest != []
      modifies this
      ensures Valid() && !end && i == 0
      ensures AllInner(parent.rest) && n == parent.rest[0].child && rest == Expand(parent.rest)
    {
      parent.InRangeMeans();
      StepDown(parent.level, parent.rest);
      n, i := parent.n.entries[parent.i].child, 0;
      rest := Expand(parent.rest);
    }

    // Follows the parent to the child it points at, or past the level's end.
    method Follow()
      requires parent != null && Linked() && !end
      modifies this
      ensures Valid()
      ensures AllInner(parent.rest) && rest == Expand(parent.rest)
      ensures !end ==> i == 0
    {
      hide GoodRow;
      GoodRowEmpty(level);
      parent.InRangeMeans();
      if !parent.InRange() {
        end, rest := true, [];
        return;
      }
      Fetch();
    }

    // Leaves the current node behind: what is left loses exactly that node's remaining entries.
    method NextNode()
      requires Placed() && AllInner(After())
      modifies chain
      ensures Valid()
      ensures rest == Expand(old(After()))
      ensures parent != null ==> parent.rest == old(After())
      ensures !end ==> i == 0
      decreases chain, 0
    {
      if parent == null {
        end, rest := true, [];
        return;
      }
      parent.Advance();
      Follow();
    }

    // One step: what is left loses its first entry.
    method Advance()
      requires Valid()
      modifies chain
      ensures Valid()
      ensures rest == if old(rest) == [] then [] else old(rest)[1..]
      decreases chain, 1
    {
      if end {
        return;
      }
      hide GoodRow, Good, From, Expand, AllInner;
      if i < |n.entries| {
        FromStep(n, i, After());
        GoodRowDrop(level, rest, 1);
      } else {
        FromEmpty(n, After());
      }
      i := i + 1;
      if i < |n.entries| {
        rest := rest[1..];
        assert Linked();
        return;
      }
      NextNode();
    }

    // A level ends at this entry exactly when it ends this node and the node ends its own row.
    lemma LastMeans()
      requires Valid() && rest != []
      ensures |rest| == 1 <==> i == |n.entries| - 1 && (parent == null || |parent.rest| == 1)
      ensures i < |n.entries| && (parent != null ==> parent.Valid() && parent.rest != [])
    {
      if parent != null {
        assert parent.Valid();
        PlaceMeans();
        GoodRowDrop(parent.level, parent.rest, 1);
        ExpandEmpty(parent.level, parent.rest[1..]);
      }
    }

    // Whether this node is its level's last.
    method LastNode() returns (last: bool)
      requires Valid() && !end
      ensures last <==> parent == null || |parent.rest| == 1
    {
      hide *;
      ChainMeans();
      NodeMeans();
      var p := parent;
      while p != null
        invariant p != null ==> p.Valid() && p.rest != []
        invariant (parent == null || |parent.rest| == 1) <==> (p == null || |p.rest| == 1)
        decreases if p == null then {} else p.chain
      {
        p.LastMeans();
        p.ChainMeans();
        if p.i < |p.n.entries| - 1 {
          return false;
        }
        p := p.parent;
      }
      last := true;
    }

    // A cursor is past the end exactly when its row above is.
    lemma NextMeans()
      requires Valid() && parent != null
      ensures end <==> parent.rest == []
    {
    }

    lemma NodeMeans()
      requires Valid() && !end
      ensures parent != null ==> parent.rest != []
    {
    }

    // Moves within the node from its first entry to entry k.
    method MoveTo(k: nat)
      requires Valid() && !end && i == 0 && k < |n.entries|
      modifies this
      ensures Valid() && !end && i == k && n == old(n)
      ensures k <= |old(rest)| && rest == old(rest)[k..] && rest != []
    {
      FromDrop(n, k, After());
      GoodRowDrop(level, rest, k);
      i, rest := k, rest[k..];
    }
  }

  lemma FromDrop(n: Node, k: nat, after: seq<Entry>)
    requires k <= |n.entries| && AllInner(after)
    ensures k <= |From(n, 0, after)| && From(n, 0, after)[k..] == From(n, k, after)
  {
  }

  /******** Seeking ********/

  // s is where key belongs in a row: the first entry at or past it, or the last.
  ghost predicate SeeksTo(row: seq<Entry>, key: Key, s: nat) {
    && s < |row|
    && (forall j :: 0 <= j < s ==> Rank(row[j].key) < Rank(key))
    && (s == |row| - 1 || Rank(key) <= Rank(row[s].key))
  }

  // The node at position t of a row is where key belongs.
  ghost predicate InNode(row: seq<Entry>, n: Node, key: Key, t: nat) {
    && n.entries != []
    && t + |n.entries| <= |row|
    && row[t..t + |n.entries|] == n.entries
    && (forall j :: 0 <= j < t ==> Rank(row[j].key) < Rank(key))
    && (t + |n.entries| == |row| || Rank(key) <= Rank(n.LastKey()))
  }

  lemma SeekInNode(row: seq<Entry>, n: Node, key: Key, t: nat, k: nat)
    requires InNode(row, n, key, t) && k < |n.entries|
    requires forall j :: 0 <= j < k ==> Rank(n.entries[j].key) < Rank(key)
    requires k == |n.entries| - 1 || Rank(key) <= Rank(n.entries[k].key)
    ensures SeeksTo(row, key, t + k)
  {
    assert forall j :: 0 <= j < |n.entries| ==> row[t + j] == n.entries[j];
    forall j | 0 <= j < t + k ensures Rank(row[j].key) < Rank(key) {
      if j >= t { assert row[j] == n.entries[j - t]; }
    }
  }

  lemma RowInner(level: nat, row: seq<Entry>, k: nat)
    requires level > 0 && GoodRow(level, row) && k <= |row|
    ensures AllInner(row) && AllInner(row[..k]) && AllInner(row[k..])
  {
    assert forall j :: 0 <= j < |row| ==> Fits(level, row[j]);
  }

  lemma RowSplit(level: nat, row: seq<Entry>, s: nat)
    requires level > 0 && GoodRow(level, row) && s < |row|
    ensures AllInner(row) && AllInner(row[..s]) && AllInner(row[s..]) && AllInner(row[s + 1..])
    ensures Expand(row) == Expand(row[..s]) + Expand(row[s..])
    ensures Expand(row[s..]) == row[s].child.entries + Expand(row[s + 1..])
  {
    hide GoodRow, AllInner;
    RowInner(level, row, s);
    RowInner(level, row, s + 1);
    ExpandAppend(row[..s], row[s..]);
    TakeDrop(row, s);
    DropOne(row, s);
  }

  // Everything under the entries before s is before the key.
  lemma BelowSeek(level: nat, row: seq<Entry>, key: Key, s: nat)
    requires level > 0 && GoodRow(level, row) && SeeksTo(row, key, s)
    ensures AllInner(row[..s]) && forall j :: 0 <= j < |Expand(row[..s])| ==> Rank(Expand(row[..s])[j].key) < Rank(key)
  {
    RowSplit(level, row, s);
    if s > 0 {
      var pre := row[..s];
      GoodRowSlice(level, row, 0, s);
      assert row[0..s] == pre;
      ExpandBounds(level, pre, Rank(LowKey(pre[0])) - 1.0);
      assert Rank(pre[s - 1].key) < Rank(key);
    }
  }

  lemma InNodeIntro(pre: seq<Entry>, n: Node, post: seq<Entry>, key: Key)
    requires n.entries != []
    requires forall j :: 0 <= j < |pre| ==> Rank(pre[j].key) < Rank(key)
    requires post == [] || Rank(key) <= Rank(n.LastKey())
    ensures InNode(pre + (n.entries + post), n, key, |pre|)
    ensures (pre + (n.entries + post))[|pre|..] == n.entries + post
  {
    var row := pre + (n.entries + post);
    assert row[|pre|..|pre| + |n.entries|] == n.entries;
  }

  // Where key belongs in the row above decides the node it belongs in below.
  lemma SeekDown(level: nat, row: seq<Entry>, key: Key, s: nat)
    requires level > 0 && GoodRow(level, row) && SeeksTo(row, key, s)
    ensures AllInner(row) && AllInner(row[..s]) && AllInner(row[s..])
    ensures var t := |Expand(row[..s])|;
            t <= |Expand(row)| && InNode(Expand(row), row[s].child, key, t) && Expand(row)[t..] == Expand(row[s..])
  {
    var n := row[s].child;
    assert Fits(level, row[s]);
    assert s == |row| - 1 ==> row[s + 1..] == [];
    hide GoodRow;
    RowSplit(level, row, s);
    BelowSeek(level, row, key, s);
    InNodeIntro(Expand(row[..s]), n, Expand(row[s + 1..]), key);
  }

  // What a descent has reached at a level: node n, from entry t of its row on, under entry s of the row above.
  ghost predicate Sought(root: Node, level: nat, key: Key, n: Node, rest: seq<Entry>, t: nat)
    requires Good(root)
  {
    && level <= root.level && t <= |Row(root, level)| && rest == Row(root, level)[t..]
    && (root.level > 0 ==> InNode(Row(root, level), n, key, t))
  }

  ghost predicate SoughtUnder(root: Node, level: nat, key: Key, rest: seq<Entry>, s: nat)
    requires Good(root)
  {
    level < root.level && SeeksTo(Row(root, level + 1), key, s) && rest == Row(root, level + 1)[s..]
  }

  lemma SoughtRoot(root: Node, key: Key)
    requires Good(root)
    ensures Sought(root, root.level, key, root, root.entries, 0)
  {
    assert root.entries[0..|root.entries|] == root.entries;
    assert root.entries[0..] == root.entries;
  }

  lemma SoughtDown(root: Node, level: nat, key: Key, n: Node, rest: seq<Entry>, t: nat, k: nat) returns (t': nat)
    requires Good(root) && level > 0 && Sought(root, level, key, n, rest, t)
    requires k < |n.entries| && k <= |rest|
    requires forall j :: 0 <= j < k ==> Rank(n.entries[j].key) < Rank(key)
    requires k == |n.entries| - 1 || Rank(key) <= Rank(n.entries[k].key)
    ensures SoughtUnder(root, level - 1, key, rest[k..], t + k)
    ensures rest[k..] != [] && rest[k].Inner? && AllInner(rest[k..])
    ensures Sought(root, level - 1, key, rest[k].child, Expand(rest[k..]), t')
  {
    hide *;
    SoughtMeans(root, level, key, n, rest, t);
    RowDown(root, level);
    var row := Row(root, level);
    SeekInNode(row, n, key, t, k);
    SeekDown(level, row, key, t + k);
    SeeksInside(row, key, t + k);
    t' := |Expand(row[..t + k])|;
    DropTwice(row, t, k);
    SoughtIntro(root, level, key, t + k, t');
  }

  lemma SeeksInside(row: seq<Entry>, key: Key, s: nat)
    requires SeeksTo(row, key, s)
    ensures s < |row|
  {
  }

  lemma RowDown(root: Node, level: nat)
    requires Good(root) && 0 < level <= root.level
    ensures AllInner(Row(root, level)) && Row(root, level - 1) == Expand(Row(root, level))
  {
    RowInner(level, Row(root, level), 0);
  }

  lemma SoughtMeans(root: Node, level: nat, key: Key, n: Node, rest: seq<Entry>, t: nat)
    requires Good(root) && level > 0 && Sought(root, level, key, n, rest, t)
    ensures level <= root.level && InNode(Row(root, level), n, key, t)
    ensures t <= |Row(root, level)| && rest == Row(root, level)[t..]
  {
  }

  lemma SoughtIntro(root: Node, level: nat, key: Key, s: nat, t: nat)
    requires Good(root) && 0 < level <= root.level
    requires SeeksTo(Row(root, level), key, s) && s < |Row(root, level)|
    requires AllInner(Row(root, level)) && AllInner(Row(root, level)[s..])
    requires t <= |Row(root, level - 1)| && Row(root, level - 1)[t..] == Expand(Row(root, level)[s..])
    requires InNode(Row(root, level - 1), Row(root, level)[s].child, key, t)
    ensures SoughtUnder(root, level - 1, key, Row(root, level)[s..], s)
    ensures Sought(root, level - 1, key, Row(root, level)[s].child, Expand(Row(root, level)[s..]), t)
  {
  }

  /** The node of a level where key belongs, from its first entry; past every key, the last node. */
  method Seek(root: Node, level: nat, key: Key) returns (c: Cursor, ghost s: nat)
    requires Good(root) && level <= root.level
    ensures c.Valid() && fresh(c.chain) && c.level == level && !c.end && c.i == 0
    ensures level == root.level ==> c.parent == null && c.n == root && c.rest == root.entries
    ensures level < root.level ==> c.parent != null && SoughtUnder(root, level, key, c.parent.rest, s)
  {
    hide *;
    c := new Cursor.AtRoot(root);
    s := 0;
    ghost var t := 0;
    SoughtRoot(root, key);
    while c.level > level
      invariant c.Valid() && fresh(c.chain) && level <= c.level <= root.level && !c.end && c.i == 0
      invariant c.level == root.level ==> c.parent == null && c.n == root && c.rest == root.entries
      invariant c.level < root.level ==> c.parent != null && SoughtUnder(root, c.level, key, c.parent.rest, s)
      invariant Sought(root, c.level, key, c.n, c.rest, t)
      decreases c.level
    {
      c.ChainMeans();
      c.StartMeans();
      var k := Search(c.n, key);
      if k == |c.n.entries| { k := k - 1; }
      ghost var r := c.rest;
      s := t + k;
      t := SoughtDown(root, c.level, key, c.n, c.rest, t, k);
      c.MoveTo(k);
      c := new Cursor.Under(c);
    }
  }

  // No key comes before the empty one, so seeking it reaches the start of the row.
  lemma SeekStart(row: seq<Entry>, s: nat)
    requires SeeksTo(row, [], s)
    ensures s == 0
  {
    if s > 0 {
      RankOrders(row[0].key, []);
    }
  }

  // A cursor at a tree's first leaf entry.
  method SeekFirst(root: Node) returns (c: Cursor)
    requires Good(root)
    ensures c.Valid() && fresh(c.chain) && c.level == 0 && c.rest == LeafRow(root)
  {
    hide *;
    ghost var s;
    c, s := Seek(root, 0, []);
    StartOf(root, c, s);
  }

  lemma StartOf(root: Node, c: Cursor, s: nat)
    requires Good(root) && c.Valid() && c.level == 0 && !c.end && c.i == 0
    requires root.level == 0 ==> c.parent == null && c.n == root && c.rest == root.entries
    requires root.level > 0 ==> c.parent != null && SoughtUnder(root, 0, [], c.parent.rest, s)
    ensures c.rest == LeafRow(root)
  {
    if root.level > 0 {
      SeekStart(Row(root, 1), s);
      assert Row(root, 1)[0..] == Row(root, 1);
      StepDown(1, Row(root, 1));
    }
  }
}
