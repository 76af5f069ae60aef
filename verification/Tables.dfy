/** The sorted table on disk: records added in any order are sorted a run at a time, the runs merged, and
    the result searched through two levels of samples. */
module Tables {
  import opened Basics

  // A hash, ordered as its bytes are.
  type Hash = nat

  datatype Record<V> = Record(key: Hash, val: V)

  const SAMPLE_EVERY := 256
  const MERGE_FAN_IN := 32

  // The first value recorded under a key.
  ghost function First<V>(rs: seq<Record<V>>, k: Hash): Option<V> {
    if rs == [] then None else if rs[0].key == k then Some(rs[0].val) else First(rs[1..], k)
  }

  ghost predicate Ascending<V>(rs: seq<Record<V>>) {
    forall i, j :: 0 <= i < j < |rs| ==> rs[i].key < rs[j].key
  }

  ghost predicate InOrder<V>(rs: seq<Record<V>>) {
    forall i, j :: 0 <= i < j < |rs| ==> rs[i].key <= rs[j].key
  }

  // Two lists of records hold the same first values.
  ghost predicate SameFirsts<V>(a: seq<Record<V>>, b: seq<Record<V>>) {
    forall k :: First(a, k) == First(b, k)
  }

  lemma {:induction false} FirstAppend<V>(a: seq<Record<V>>, b: seq<Record<V>>, k: Hash)
    ensures First(a + b, k) == if First(a, k).Some? then First(a, k) else First(b, k)
  {
    if a == [] {
      assert a + b == b;
    } else {
      assert (a + b)[1..] == a[1..] + b;
      FirstAppend(a[1..], b, k);
    }
  }

  lemma {:induction false} FirstNone<V>(rs: seq<Record<V>>, k: Hash)
    ensures First(rs, k).None? <==> forall i :: 0 <= i < |rs| ==> rs[i].key != k
  {
    if rs != [] {
      FirstNone(rs[1..], k);
      assert forall i :: 0 < i < |rs| ==> rs[i] == rs[1..][i - 1];
    }
  }

  lemma {:induction false} FirstAt<V>(rs: seq<Record<V>>, i: nat)
    requires i < |rs| && forall j :: 0 <= j < i ==> rs[j].key != rs[i].key
    ensures First(rs, rs[i].key) == Some(rs[i].val)
  {
    if i > 0 {
      FirstAt(rs[1..], i - 1);
    }
  }

  /******** Runs ********/

  // Puts a record after every record whose key is not above its own.
  method Insert<V>(run: seq<Record<V>>, r: Record<V>) returns (out: seq<Record<V>>)
    requires InOrder(run)
    ensures InOrder(out) && |out| == |run| + 1 && SameFirsts(out, run + [r])
  {
    var i := |run|;
    while i > 0 && r.key < run[i - 1].key
      invariant 0 <= i <= |run| && forall j :: i <= j < |run| ==> r.key < run[j].key
    {
      i := i - 1;
    }
    out := run[..i] + [r] + run[i..];
    InsertFirsts(run[..i], run[i..], r);
    assert run[..i] + run[i..] == run;
    InsertOrder(run, r, i);
  }

  lemma InsertOrder<V>(run: seq<Record<V>>, r: Record<V>, i: nat)
    requires InOrder(run) && i <= |run| && (i > 0 ==> run[i - 1].key <= r.key) && forall j ::
               i <= j < |run| ==> r.key < run[j].key
    ensures InOrder(run[..i] + [r] + run[i..])
  {
    var out := run[..i] + [r] + run[i..];
    assert forall j :: 0 <= j < |out| ==> out[j] == if j < i then run[j] else if j == i then r else run[j - 1];
  }

  lemma InsertFirsts<V>(a: seq<Record<V>>, b: seq<Record<V>>, r: Record<V>)
    requires forall j :: 0 <= j < |b| ==> r.key < b[j].key
    ensures SameFirsts(a + [r] + b, a + b + [r])
  {
    forall k ensures First(a + [r] + b, k) == First(a + b + [r], k) {
      FirstAppend(a + [r], b, k);
      FirstAppend(a, [r], k);
      FirstAppend(a + b, [r], k);
      FirstAppend(a, b, k);
      FirstNone(b, k);
      FirstNone([r], k);
    }
  }

  lemma FirstsAppend<V>(a: seq<Record<V>>, a': seq<Record<V>>, b: seq<Record<V>>, b': seq<Record<V>>)
    requires SameFirsts(a, a') && SameFirsts(b, b')
    ensures SameFirsts(a + b, a' + b')
  {
    forall k ensures First(a + b, k) == First(a' + b', k) {
      FirstAppend(a, b, k);
      FirstAppend(a', b', k);
    }
  }

  /** Sorts a run stably: the first record of a key stays first. */
  method SortStable<V>(rs: seq<Record<V>>) returns (run: seq<Record<V>>)
    ensures InOrder(run) && |run| == |rs| && SameFirsts(run, rs)
  {
    run := [];
    for i := 0 to |rs|
      invariant InOrder(run) && |run| == i && SameFirsts(run, rs[..i])
    {
      ghost var was := run;
      run := Insert(run, rs[i]);
      FirstsAppend(was, rs[..i], [rs[i]], [rs[i]]);
      assert rs[..i] + [rs[i]] == rs[..i + 1];
    }
    assert rs[..|rs|] == rs;
  }

  /******** Merging ********/

  ghost predicate AllInOrder<V>(runs: seq<seq<Record<V>>>) {
    forall i :: 0 <= i < |runs| ==> InOrder(runs[i])
  }

  // The head comes before every other run's: a lower key, or the same key and an earlier run.
  ghost predicate Least<V>(heads: seq<seq<Record<V>>>, i: nat) {
    i < |heads| && heads[i] != []
    && forall j :: 0 <= j < |heads| && heads[j] != [] && j != i ==>
         heads[i][0].key < heads[j][0].key || (heads[i][0].key == heads[j][0].key && i < j)
  }

  // The least head of a key is the first record of it.
  lemma {:induction false} LeastIsFirst<V>(heads: seq<seq<Record<V>>>, i: nat)
    requires Least(heads, i) && AllInOrder(heads)
    ensures First(Flat(heads), heads[i][0].key) == Some(heads[i][0].val)
    decreases i
  {
    var k := heads[i][0].key;
    FirstAppend(heads[0], Flat(heads[1..]), k);
    if i > 0 {
      FirstNone(heads[0], k);
      assert forall j ::
               0 <= j < |heads[0]| ==> heads[0] != [] && heads[0][0].key <= heads[0][j].key && heads[0][j].key != k;
      var rest := heads[1..];
      assert forall j :: 0 <= j < |rest| ==> rest[j] == heads[j + 1];
      LeastIsFirst(rest, i - 1);
    }
  }

  // Moving one run past its head changes no other key's first record.
  lemma {:induction false} PastHead<V>(heads: seq<seq<Record<V>>>, i: nat, k: Hash)
    requires i < |heads| && heads[i] != [] && k != heads[i][0].key
    ensures First(Flat(heads[i := heads[i][1..]]), k) == First(Flat(heads), k)
    decreases i
  {
    var heads' := heads[i := heads[i][1..]];
    FirstAppend(heads[0], Flat(heads[1..]), k);
    FirstAppend(heads'[0], Flat(heads'[1..]), k);
    if i > 0 {
      assert heads'[1..] == heads[1..][i - 1 := heads[1..][i - 1][1..]];
      PastHead(heads[1..], i - 1, k);
    } else {
      assert heads'[1..] == heads[1..];
    }
  }

  // Every record still to come has at least the key.
  ghost predicate AllFrom<V>(heads: seq<seq<Record<V>>>, k: Hash) {
    forall i, j :: 0 <= i < |heads| && 0 <= j < |heads[i]| ==> k <= heads[i][j].key
  }

  // The first key of each block of records.
  ghost predicate Sampled<V>(rs: seq<Record<V>>, samples: seq<Hash>) {
    && |samples| == (|rs| + SAMPLE_EVERY - 1) / SAMPLE_EVERY
    && forall j :: 0 <= j < |samples| ==> samples[j] == rs[j * SAMPLE_EVERY].key
  }

  lemma SampledPush<V>(rs: seq<Record<V>>, samples: seq<Hash>, r: Record<V>)
    requires Sampled(rs, samples)
    ensures Sampled(rs + [r], if |rs| % SAMPLE_EVERY == 0 then samples + [r.key] else samples)
  {
    var samples' := if |rs| % SAMPLE_EVERY == 0 then samples + [r.key] else samples;
    forall j | 0 <= j < |samples'| ensures samples'[j] == (rs + [r])[j * SAMPLE_EVERY].key {
      if j < |samples| {
        assert j * SAMPLE_EVERY < |rs|;
      }
    }
  }

  ghost function Remaining<V>(heads: seq<seq<Record<V>>>): nat {
    if heads == [] then 0 else |heads[0]| + Remaining(heads[1..])
  }

  lemma {:induction false} RemainingLess<V>(heads: seq<seq<Record<V>>>, i: nat)
    requires i < |heads| && heads[i] != []
    ensures Remaining(heads[i := heads[i][1..]]) == Remaining(heads) - 1
    decreases i
  {
    var heads' := heads[i := heads[i][1..]];
    if i > 0 {
      assert heads'[1..] == heads[1..][i - 1 := heads[1..][i - 1][1..]];
      RemainingLess(heads[1..], i - 1);
    } else {
      assert heads'[1..] == heads[1..];
    }
  }

  lemma {:induction false} AllEmpty<V>(heads: seq<seq<Record<V>>>)
    requires forall j :: 0 <= j < |heads| ==> heads[j] == []
    ensures Flat(heads) == []
  {
    if heads != [] {
      AllEmpty(heads[1..]);
    }
  }

  // The run whose head comes first, or none when all are used up.
  method LeastHead<V>(heads: seq<seq<Record<V>>>) returns (i: Option<nat>)
    ensures i.Some? ==> Least(heads, i.value)
    ensures i.None? ==> forall j :: 0 <= j < |heads| ==> heads[j] == []
  {
    i := None;
    for n := 0 to |heads|
      invariant i.None? ==> forall j :: 0 <= j < n ==> heads[j] == []
      invariant i.Some? ==>
                  && i.value < n && heads[i.value] != []
                  && forall j :: 0 <= j < n && heads[j] != [] && j != i.value ==>
                       heads[i.value][0].key < heads[j][0].key
                         || (heads[i.value][0].key == heads[j][0].key && i.value < j)
    {
      if heads[n] != [] && (i.None? || heads[n][0].key < heads[i.value][0].key) {
        i := Some(n);
      }
    }
  }

  // Merged so far: what was written and what is to come hold the runs' first values.
  ghost predicate Merging<V>(runs: seq<seq<Record<V>>>, heads: seq<seq<Record<V>>>, out: seq<Record<V>>) {
    && AllInOrder(heads) && Ascending(out) && (out != [] ==> AllFrom(heads, out[|out| - 1].key))
    && SameFirsts(out + Flat(heads), Flat(runs))
  }

  lemma LeastFrom<V>(heads: seq<seq<Record<V>>>, i: nat)
    requires Least(heads, i) && AllInOrder(heads)
    ensures AllFrom(heads, heads[i][0].key)
  {
    forall j, n | 0 <= j < |heads| && 0 <= n < |heads[j]| ensures heads[i][0].key <= heads[j][n].key {
      assert heads[j] != [] && heads[j][0].key <= heads[j][n].key;
    }
  }

  lemma PastInOrder<V>(heads: seq<seq<Record<V>>>, i: nat, k: Hash)
    requires i < |heads| && heads[i] != [] && AllInOrder(heads) && AllFrom(heads, k)
    ensures AllInOrder(heads[i := heads[i][1..]]) && AllFrom(heads[i := heads[i][1..]], k)
  {
    var heads' := heads[i := heads[i][1..]];
    assert forall n :: 0 <= n < |heads'[i]| ==> heads'[i][n] == heads[i][n + 1];
    forall j | 0 <= j < |heads'| ensures InOrder(heads'[j]) {
      assert InOrder(heads[j]) && InOrder(heads[i]);
    }
  }

  // Writing the least head, unless its key was written already, and moving past it.
  lemma MergeStep<V>(runs: seq<seq<Record<V>>>, heads: seq<seq<Record<V>>>, out: seq<Record<V>>, i: nat)
    requires Merging(runs, heads, out) && Least(heads, i)
    ensures var r := heads[i][0];
            var out' := if out == [] || out[|out| - 1].key != r.key then out + [r] else out;
            Merging(runs, heads[i := heads[i][1..]], out')
  {
    var r, heads' := heads[i][0], heads[i := heads[i][1..]];
    var out' := if out == [] || out[|out| - 1].key != r.key then out + [r] else out;
    LeastFrom(heads, i);
    PastInOrder(heads, i, r.key);
    assert r == heads[i][0];
    assert out != [] ==> out[|out| - 1].key <= r.key;
    assert forall j :: 0 <= j < |out| ==> out[j].key <= r.key && (out' != out ==> out[j].key < r.key);
    LeastIsFirst(heads, i);
    forall k ensures First(out' + Flat(heads'), k) == First(Flat(runs), k) {
      FirstAppend(out, Flat(heads), k);
      FirstAppend(out', Flat(heads'), k);
      if k != r.key {
        PastHead(heads, i, k);
      }
      StepFirst(out, r, k);
    }
  }

  lemma StepFirst<V>(out: seq<Record<V>>, r: Record<V>, k: Hash)
    ensures k != r.key ==> First(out + [r], k) == First(out, k)
    ensures (forall j :: 0 <= j < |out| ==> out[j].key < r.key) ==>
              First(out, r.key).None? && First(out + [r], r.key) == Some(r.val)
    ensures out != [] && out[|out| - 1].key == r.key ==> First(out, r.key).Some?
  {
    FirstAppend(out, [r], k);
    FirstAppend(out, [r], r.key);
    FirstNone(out, r.key);
    FirstNone([r], k);
    assert First([r], r.key) == Some(r.val);
  }

  /** Merges runs into one list, the first record of each key only, with each block's first key apart. */
  method Merge<V>(runs: seq<seq<Record<V>>>) returns (out: seq<Record<V>>, samples: seq<Hash>)
    requires AllInOrder(runs)
    ensures Ascending(out) && SameFirsts(out, Flat(runs)) && Sampled(out, samples)
  {
    hide *;
    var heads := runs;
    out, samples := [], [];
    MergeStarts(runs);
    var i := LeastHead(heads);
    while i.Some?
      invariant Merging(runs, heads, out) && Sampled(out, samples)
      invariant i.Some? ==> Least(heads, i.value)
      invariant i.None? ==> forall j :: 0 <= j < |heads| ==> heads[j] == []
      decreases Remaining(heads)
    {
      LeastMeans(heads, i.value);
      var r := heads[i.value][0];
      MergeStep(runs, heads, out, i.value);
      RemainingLess(heads, i.value);
      if out == [] || out[|out| - 1].key != r.key {
        SampledPush(out, samples, r);
        if |out| % SAMPLE_EVERY == 0 {
          samples := samples + [r.key];
        }
        out := out + [r];
      }
      heads := heads[i.value := heads[i.value][1..]];
      i := LeastHead(heads);
    }
    MergeEnds(runs, heads, out);
  }

  lemma LeastMeans<V>(heads: seq<seq<Record<V>>>, i: nat)
    requires Least(heads, i)
    ensures i < |heads| && heads[i] != [] && SAMPLE_EVERY != 0
  {
  }

  lemma MergeStarts<V>(runs: seq<seq<Record<V>>>)
    requires AllInOrder(runs)
    ensures Merging(runs, runs, []) && Sampled<V>([], [])
  {
    assert [] + Flat(runs) == Flat(runs);
  }

  lemma MergeEnds<V>(runs: seq<seq<Record<V>>>, heads: seq<seq<Record<V>>>, out: seq<Record<V>>)
    requires Merging(runs, heads, out) && forall j :: 0 <= j < |heads| ==> heads[j] == []
    ensures Ascending(out) && SameFirsts(out, Flat(runs))
  {
    AllEmpty(heads);
    assert out + [] == out;
  }

  /******** The builder ********/

  lemma {:induction false} FlatAppend<V>(a: seq<seq<Record<V>>>, b: seq<seq<Record<V>>>)
    ensures Flat(a + b) == Flat(a) + Flat(b)
  {
    if a == [] {
      assert a + b == b;
    } else {
      assert (a + b)[1..] == a[1..] + b;
      FlatAppend(a[1..], b);
    }
  }

  lemma FlatPush<V>(runs: seq<seq<Record<V>>>, run: seq<Record<V>>)
    ensures Flat(runs + [run]) == Flat(runs) + run
  {
    FlatAppend(runs, [run]);
    assert [run][1..] == [] && Flat([run]) == run + [] == run;
  }

  // One pass over neighbouring runs: fewer runs, and the same first value under every key.
  method MergeGroups<V>(runs: seq<seq<Record<V>>>) returns (next: seq<seq<Record<V>>>)
    requires AllInOrder(runs) && |runs| > MERGE_FAN_IN
    ensures AllInOrder(next) && SameFirsts(Flat(next), Flat(runs)) && 0 < |next| < |runs|
  {
    next := [];
    var i := 0;
    while i < |runs|
      invariant 0 <= i <= |runs| && AllInOrder(next) && SameFirsts(Flat(next), Flat(runs[..i]))
      invariant |next| * MERGE_FAN_IN == i || (i == |runs| && i <= |next| * MERGE_FAN_IN < i + MERGE_FAN_IN)
    {
      var end := if i + MERGE_FAN_IN < |runs| then i + MERGE_FAN_IN else |runs|;
      var group := runs[i..end];
      var out, _ := Merge(group);
      GroupStep(runs, i, end, next, out);
      next, i := next + [out], end;
    }
    assert runs[..|runs|] == runs;
  }

  lemma GroupStep<V>(runs: seq<seq<Record<V>>>, i: nat, end: nat, next: seq<seq<Record<V>>>, out: seq<Record<V>>)
    requires i <= end <= |runs| && AllInOrder(next) && Ascending(out)
    requires SameFirsts(Flat(next), Flat(runs[..i])) && SameFirsts(out, Flat(runs[i..end]))
    ensures AllInOrder(next + [out]) && SameFirsts(Flat(next + [out]), Flat(runs[..end]))
  {
    FlatPush(next, out);
    FlatAppend(runs[..i], runs[i..end]);
    assert runs[..i] + runs[i..end] == runs[..end];
    FirstsAppend(Flat(next), Flat(runs[..i]), out, Flat(runs[i..end]));
    assert InOrder(out);
  }

  class Builder<V> {
    const runSize: nat
    var buf: seq<Record<V>>
    var runs: seq<seq<Record<V>>>
    // Every record added, in order.
    ghost var added: seq<Record<V>>

    ghost predicate Valid()
      reads this
    {
      AllInOrder(runs) && SameFirsts(Flat(runs) + buf, added)
    }

    constructor (runSize: nat)
      ensures Valid() && added == [] && this.runSize == runSize
    {
      this.runSize := runSize;
      buf, runs, added := [], [], [];
    }

    method Add(h: Hash, value: V)
      requires Valid()
      modifies this
      ensures Valid() && added == old(added) + [Record(h, value)]
    {
      var r := Record(h, value);
      FirstsAppend(Flat(runs) + buf, added, [r], [r]);
      AppendAssoc(Flat(runs), buf, [r]);
      buf, added := buf + [r], added + [r];
      if |buf| >= runSize {
        Spill();
      }
    }

    // Sorts the current run and sets it aside.
    method Spill()
      requires Valid()
      modifies `buf, `runs
      ensures Valid() && buf == []
    {
      if |buf| == 0 {
        return;
      }
      var run := SortStable(buf);
      FlatPush(runs, run);
      FirstsAppend(Flat(runs), Flat(runs), run, buf);
      assert Flat(runs + [run]) + [] == Flat(runs + [run]);
      runs, buf := runs + [run], [];
    }

    /** The table of everything added: strictly ascending, and under each key the value added first. */
    method Finish() returns (t: Table<V>)
      requires Valid()
      modifies this
      ensures t.Valid() && SameFirsts(t.records, added) && added == old(added)
    {
      Spill();
      assert Flat(runs) + buf == Flat(runs);
      while |runs| > MERGE_FAN_IN
        invariant AllInOrder(runs) && SameFirsts(Flat(runs), added) && added == old(added)
        decreases |runs|
      {
        var next := MergeGroups(runs);
        runs := next;
      }
      var records, samples := Merge(runs);
      var top := TopOf(samples);
      t := Table(records, samples, top);
      runs, buf := [], [];
    }
  }

  /** The finished table: its records, one sample a block of records, and one top key a block of samples. */
  datatype Table<V> = Table(records: seq<Record<V>>, samples: seq<Hash>, top: seq<Hash>)
  {
    ghost predicate Valid() {
      && Ascending(records) && Sampled(records, samples)
      && |top| == (|samples| + SAMPLE_EVERY - 1) / SAMPLE_EVERY
      && forall j :: 0 <= j < |top| ==> top[j] == samples[j * SAMPLE_EVERY]
    }
  }

  method TopOf(samples: seq<Hash>) returns (top: seq<Hash>)
    ensures |top| == (|samples| + SAMPLE_EVERY - 1) / SAMPLE_EVERY
    ensures forall j :: 0 <= j < |top| ==> top[j] == samples[j * SAMPLE_EVERY]
  {
    top := [];
    var j := 0;
    while j < |samples|
      invariant j == |top| * SAMPLE_EVERY && j < |samples| + SAMPLE_EVERY
      invariant forall i :: 0 <= i < |top| ==> i * SAMPLE_EVERY < |samples| && top[i] == samples[i * SAMPLE_EVERY]
    {
      top := top + [samples[j]];
      j := j + SAMPLE_EVERY;
    }
  }

  // The first position of a sorted list whose key is above h.
  method SearchAbove(keys: seq<Hash>, h: Hash) returns (k: nat)
    requires forall i, j :: 0 <= i < j < |keys| ==> keys[i] < keys[j]
    ensures k <= |keys|
    ensures forall i :: 0 <= i < k ==> keys[i] <= h
    ensures forall i :: k <= i < |keys| ==> h < keys[i]
  {
    var high := |keys|;
    k := 0;
    while k < high
      invariant k <= high <= |keys|
      invariant forall i :: 0 <= i < k ==> keys[i] <= h
      invariant forall i :: high <= i < |keys| ==> h < keys[i]
    {
      var mid := (k + high) / 2;
      if keys[mid] > h { high := mid; } else { k := mid + 1; }
    }
  }

  lemma SamplesAscend<V>(t: Table<V>)
    requires t.Valid()
    ensures forall i, j :: 0 <= i < j < |t.samples| ==> t.samples[i] < t.samples[j]
    ensures forall i, j :: 0 <= i < j < |t.top| ==> t.top[i] < t.top[j]
  {
    forall i, j | 0 <= i < j < |t.samples| ensures t.samples[i] < t.samples[j] {
      assert i * SAMPLE_EVERY < j * SAMPLE_EVERY < |t.records|;
    }
    forall i, j | 0 <= i < j < |t.top| ensures t.top[i] < t.top[j] {
      assert i * SAMPLE_EVERY < j * SAMPLE_EVERY < |t.samples|;
    }
  }

  lemma {:induction false} FirstSorted<V>(rs: seq<Record<V>>, i: nat)
    requires Ascending(rs) && i < |rs|
    ensures First(rs, rs[i].key) == Some(rs[i].val)
  {
    FirstAt(rs, i);
  }

  // The block of records a key would be in: the last whose sample is not above it.
  ghost predicate InBlock<V>(t: Table<V>, h: Hash, b: nat) {
    && b < |t.samples| && t.samples[b] <= h && (b + 1 < |t.samples| ==> h < t.samples[b + 1])
  }

  lemma BlockHolds<V>(t: Table<V>, h: Hash, b: nat, m: nat)
    requires t.Valid() && InBlock(t, h, b) && m < |t.records| && t.records[m].key == h
    ensures b * SAMPLE_EVERY <= m < (b + 1) * SAMPLE_EVERY
  {
    assert t.samples[b] == t.records[b * SAMPLE_EVERY].key;
    assert b + 1 < |t.samples| ==> t.samples[b + 1] == t.records[(b + 1) * SAMPLE_EVERY].key;
  }

  // Under the first sample there is nothing.
  lemma UnderFirst<V>(t: Table<V>, h: Hash, m: nat)
    requires t.Valid() && m < |t.records|
    ensures |t.samples| > 0 && |t.top| > 0 && t.top[0] == t.samples[0] == t.records[0].key <= t.records[m].key
  {
    assert 0 * SAMPLE_EVERY == 0;
    assert t.samples[0] == t.records[0 * SAMPLE_EVERY].key && t.top[0] == t.samples[0 * SAMPLE_EVERY];
  }

  // Searching the top keys, then the samples under the one found, finds the block.
  method FindBlock<V>(t: Table<V>, h: Hash) returns (b: Option<nat>)
    requires t.Valid()
    ensures b.Some? ==> InBlock(t, h, b.value)
    ensures b.None? ==> forall m :: 0 <= m < |t.records| ==> h < t.records[m].key
  {
    hide *;
    SamplesAscend(t);
    var i := SearchAbove(t.top, h);
    if i == 0 {
      forall m | 0 <= m < |t.records| ensures h < t.records[m].key {
        UnderFirst(t, h, m);
      }
      return None;
    }
    TopNames(t, i - 1);
    var from := (i - 1) * 256;
    var n := if 256 < |t.samples| - from then 256 else |t.samples| - from;
    var keys := t.samples[from..from + n];
    KeysAscend(t.samples, from, n);
    var j := SearchAbove(keys, h);
    BlockFound(t, h, i, j, n);
    b := Some(from + (j - 1));
  }

  lemma KeysAscend(keys: seq<Hash>, from: nat, n: nat)
    requires from + n <= |keys| && n > 0 && forall i, j :: 0 <= i < j < |keys| ==> keys[i] < keys[j]
    ensures var some := keys[from..from + n];
            some[0] == keys[from] && forall i, j :: 0 <= i < j < |some| ==> some[i] < some[j]
  {
  }

  lemma TopNames<V>(t: Table<V>, i: nat)
    requires t.Valid() && i < |t.top|
    ensures i * 256 < |t.samples| && t.top[i] == t.samples[i * 256]
    ensures |t.samples| > (i + 1) * 256 ==> i + 1 < |t.top|
  {
  }

  lemma BlockFound<V>(t: Table<V>, h: Hash, i: nat, j: nat, n: nat)
    requires t.Valid() && 0 < i <= |t.top| && (i < |t.top| ==> h < t.top[i])
    requires var from := (i - 1) * 256;
             && from + n <= |t.samples| && 0 < j <= n && (n == 256 || from + n == |t.samples|) && n <= 256
             && t.samples[from..from + n][j - 1] <= h && (j < n ==> h < t.samples[from..from + n][j])
    ensures InBlock(t, h, (i - 1) * 256 + (j - 1))
  {
    TopNames(t, i - 1);
    if i < |t.top| {
      TopNames(t, i);
    }
  }

  /** Finds a key's value: the answer the records' first values give. */
  method Lookup<V>(t: Table<V>, h: Hash) returns (v: Option<V>)
    requires t.Valid()
    ensures v == First(t.records, h)
  {
    hide *;
    FirstNone(t.records, h);
    if |t.records| == 0 {
      return None;
    }
    var b := FindBlock(t, h);
    if b.None? {
      return None;
    }
    var first := b.value * 256;
    BlockStart(t, h, b.value);
    var n := if 256 < |t.records| - first then 256 else |t.records| - first;
    var recs := t.records[first..first + n];
    BlockAscends(t, first, n);
    var k := SearchRecords(recs, h);
    if k == n || recs[k].key != h {
      NotInBlock(t, h, b.value, n, k);
      return None;
    }
    FoundInBlock(t, first, n, k);
    v := Some(recs[k].val);
  }

  lemma BlockAscends<V>(t: Table<V>, first: nat, n: nat)
    requires t.Valid() && first + n <= |t.records|
    ensures Ascending(t.records[first..first + n])
  {
  }

  lemma FoundInBlock<V>(t: Table<V>, first: nat, n: nat, k: nat)
    requires t.Valid() && first + n <= |t.records| && k < n
    ensures var r := t.records[first..first + n][k]; First(t.records, r.key) == Some(r.val)
  {
    FirstSorted(t.records, first + k);
  }

  lemma NotInBlock<V>(t: Table<V>, h: Hash, b: nat, n: nat, k: nat)
    requires t.Valid() && InBlock(t, h, b) && b * 256 + n <= |t.records| && (n == 256 || b * 256 + n == |t.records|)
             && k <= n
    requires var recs := t.records[b * 256..b * 256 + n];
             && (forall i :: 0 <= i < |recs| && recs[i].key == h ==> k == i) && (k == n || recs[k].key != h)
    ensures forall m :: 0 <= m < |t.records| ==> t.records[m].key != h
  {
    var recs := t.records[b * 256..b * 256 + n];
    assert forall m :: b * 256 <= m < b * 256 + n ==> recs[m - b * 256] == t.records[m];
    forall m | 0 <= m < |t.records| ensures t.records[m].key != h {
      if t.records[m].key == h {
        BlockHolds(t, h, b, m);
        assert false;
      }
    }
  }

  lemma BlockStart<V>(t: Table<V>, h: Hash, b: nat)
    requires t.Valid() && InBlock(t, h, b)
    ensures b * 256 < |t.records|
  {
  }

  // The first record whose key is not under h.
  method SearchRecords<V>(rs: seq<Record<V>>, h: Hash) returns (k: nat)
    requires Ascending(rs)
    ensures k <= |rs|
    ensures forall i :: 0 <= i < k ==> rs[i].key < h
    ensures forall i :: k <= i < |rs| ==> h <= rs[i].key
    ensures forall i :: 0 <= i < |rs| && rs[i].key == h ==> k == i
  {
    var high := |rs|;
    k := 0;
    while k < high
      invariant k <= high <= |rs|
      invariant forall i :: 0 <= i < k ==> rs[i].key < h
      invariant forall i :: high <= i < |rs| ==> h <= rs[i].key
    {
      var mid := (k + high) / 2;
      if rs[mid].key >= h { high := mid; } else { k := mid + 1; }
    }
    assert k < |rs| ==> forall i :: k < i < |rs| ==> rs[k].key < rs[i].key;
  }
}
