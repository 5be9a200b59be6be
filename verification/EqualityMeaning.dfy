/** What `opcode::eq` decides: values are compared by what they stand for. Lists stand for sequences,
    dictionaries for maps from keys to values, whatever the order and the hash codes of their
    entries; every other value stands for itself. */
module EqualityMeaning {
  import opened Dictionaries
  import opened Equality
  import opened Values

  datatype Meant =
    | Plain(v: Value)
    | Items(items: seq<Meant>)
    | Table(entries: map<Value, Meant>)

  function Meaning(v: Value): Meant
    decreases v
  {
    match v
    case ListVal(xs) => Items(seq(|xs|, i requires 0 <= i < |xs| => Meaning(xs[i])))
    case Dict(bs) => Table(BucketsTable(bs))
    case _ => Plain(v)
  }

  function BucketsTable(bs: seq<Bucket>): map<Value, Meant>
    decreases bs
  {
    if bs == [] then map[] else EntriesTable(bs[0].entries) + BucketsTable(bs[1..])
  }

  function EntriesTable(es: seq<Entry>): map<Value, Meant>
    decreases es
  {
    if es == [] then map[] else EntryTable(es[0]) + EntriesTable(es[1..])
  }

  function EntryTable(e: Entry): map<Value, Meant>
    decreases e
  {
    map[e.key := Meaning(e.val)]
  }

  // ----- values without dictionaries -----

  predicate NoDicts(v: Value)
    decreases v
  {
    match v
    case ListVal(xs) => forall i :: 0 <= i < |xs| ==> NoDicts(xs[i])
    case Dict(_) => false
    case _ => true
  }

  /** Up to any depth of nesting, a value without dictionaries equals itself only. */
  lemma {:induction false} PlainIdentity(a: Value, b: Value)
    requires NoDicts(a)
    ensures Equal(a, b) <==> a == b
    decreases a
  {
    if a.ListVal? && b.ListVal? && |a.vals| == |b.vals| {
      forall i | 0 <= i < |a.vals| ensures Equal(a.vals[i], b.vals[i]) <==> a.vals[i] == b.vals[i] {
        PlainIdentity(a.vals[i], b.vals[i]);
      }
      if Equal(a, b) {
        assert a.vals == b.vals;
      }
    }
  }

  // ----- the table of a dictionary -----

  lemma {:induction false} EntriesKeys(es: seq<Entry>, k: Value)
    ensures k in EntriesTable(es) <==> exists j :: 0 <= j < |es| && es[j].key == k
    decreases es
  {
    if es != [] {
      var rest := es[1..];
      EntriesKeys(rest, k);
      if j :| 0 <= j < |es| && es[j].key == k && j > 0 {
        assert rest[j - 1].key == k;
      }
      if j :| 0 <= j < |rest| && rest[j].key == k {
        assert es[j + 1].key == k;
      }
    }
  }

  lemma {:induction false} EntriesAt(es: seq<Entry>, j: nat)
    requires KeysDiffer(es) && j < |es|
    ensures es[j].key in EntriesTable(es) && EntriesTable(es)[es[j].key] == Meaning(es[j].val)
    decreases es
  {
    var rest := es[1..];
    assert forall n :: 0 <= n < |rest| ==> rest[n] == es[n + 1];
    if j > 0 {
      EntriesAt(rest, j - 1);
    } else {
      EntriesKeys(rest, es[0].key);
    }
  }

  lemma {:induction false} BucketsKeys(bs: seq<Bucket>, k: Value)
    ensures k in BucketsTable(bs) <==> exists i, j :: At(bs, i, j) && bs[i].entries[j].key == k
    decreases bs
  {
    if bs != [] {
      var rest := bs[1..];
      EntriesKeys(bs[0].entries, k);
      BucketsKeys(rest, k);
      if i, j :| At(bs, i, j) && bs[i].entries[j].key == k {
        if i > 0 {
          assert At(rest, i - 1, j) && rest[i - 1].entries[j].key == k;
        }
      }
      if i, j :| At(rest, i, j) && rest[i].entries[j].key == k {
        assert At(bs, i + 1, j) && bs[i + 1].entries[j].key == k;
      }
      if j :| 0 <= j < |bs[0].entries| && bs[0].entries[j].key == k {
        assert At(bs, 0, j);
      }
    }
  }

  /** A formed dictionary stands for the map that takes each of its keys to what stands beside it. */
  lemma {:induction false} BucketsAt(h: string -> int, bs: seq<Bucket>, i: nat, j: nat)
    requires FormedBuckets(h, bs) && At(bs, i, j)
    ensures var e := bs[i].entries[j]; e.key in BucketsTable(bs) && BucketsTable(bs)[e.key] == Meaning(e.val)
    decreases bs
  {
    var rest := bs[1..];
    assert forall n :: 0 <= n < |rest| ==> rest[n] == bs[n + 1];
    if i > 0 {
      BucketsAt(h, rest, i - 1, j);
    } else {
      var e := bs[0].entries[j];
      assert FormedBucket(h, bs[0]);
      EntriesAt(bs[0].entries, j);
      BucketsKeys(rest, e.key);
      forall m, n | At(rest, m, n) ensures rest[m].entries[n].key != e.key {
        assert FormedBucket(h, bs[m + 1]) && bs[m + 1].hash != bs[0].hash;
      }
    }
  }

  // ----- equality both ways is equality of meaning -----

  /** Two formed values equal each other, both ways, exactly when they stand for the same. */
  lemma {:induction false} BothWaysExactly(h: string -> int, a: Value, b: Value)
    requires Formed(h, a) && Formed(h, b)
    ensures Equal(a, b) && Equal(b, a) <==> Meaning(a) == Meaning(b)
    decreases a
  {
    match a
    case ListVal(xs) =>
      if b.ListVal? && |xs| == |b.vals| {
        forall i | 0 <= i < |xs| ensures Equal(xs[i], b.vals[i]) && Equal(b.vals[i], xs[i]) <==> Meaning(xs[i]) == Meaning(b.vals[i]) {
          BothWaysExactly(h, xs[i], b.vals[i]);
        }
        ItemsAgree(xs, b.vals);
      }
    case Dict(bs) =>
      if b.Dict? {
        EqualDicts(h, bs, b.buckets);
        EqualDicts(h, b.buckets, bs);
        if Equal(a, b) && Equal(b, a) {
          SameTable(h, bs, b.buckets);
        }
        if Meaning(a) == Meaning(b) {
          TableCovers(h, bs, b.buckets);
        }
      }
    case _ =>
  }

  lemma ItemsAgree(xs: seq<Value>, ys: seq<Value>)
    requires |xs| == |ys|
    ensures Meaning(ListVal(xs)) == Meaning(ListVal(ys)) <==> forall i :: 0 <= i < |xs| ==> Meaning(xs[i]) == Meaning(ys[i])
  {
    var ms, ns := Meaning(ListVal(xs)).items, Meaning(ListVal(ys)).items;
    assert forall i :: 0 <= i < |xs| ==> ms[i] == Meaning(xs[i]) && ns[i] == Meaning(ys[i]);
  }

  lemma {:induction false} SameTable(h: string -> int, bs: seq<Bucket>, cs: seq<Bucket>)
    requires Formed(h, Dict(bs)) && Formed(h, Dict(cs)) && Covered(bs, cs) && Covered(cs, bs)
    ensures BucketsTable(bs) == BucketsTable(cs)
    decreases Dict(bs), 0
  {
    hide Covered;
    forall k ensures k in BucketsTable(bs) <==> k in BucketsTable(cs) {
      if k in BucketsTable(bs) { CoveredTable(bs, cs, k); }
      if k in BucketsTable(cs) { CoveredTable(cs, bs, k); }
    }
    forall k | k in BucketsTable(bs) ensures BucketsTable(bs)[k] == BucketsTable(cs)[k] {
      BucketsKeys(bs, k);
      BucketsKeys(cs, k);
      var i, j :| At(bs, i, j) && bs[i].entries[j].key == k;
      var m, n :| At(cs, m, n) && cs[m].entries[n].key == k;
      BucketsAt(h, bs, i, j);
      BucketsAt(h, cs, m, n);
      MatchBothWays(h, bs, cs, i, j, m, n);
      assert FormedBucket(h, bs[i]) && FormedBucket(h, cs[m]);
      EntryBelow(bs, i, j);
      BothWaysExactly(h, bs[i].entries[j].val, cs[m].entries[n].val);
    }
  }

  lemma CoveredTable(bs: seq<Bucket>, cs: seq<Bucket>, k: Value)
    requires Covered(bs, cs) && k in BucketsTable(bs)
    ensures k in BucketsTable(cs)
  {
    BucketsKeys(bs, k);
    BucketsKeys(cs, k);
    CoveredKey(bs, cs, k);
  }

  lemma CoveredKey(bs: seq<Bucket>, cs: seq<Bucket>, k: Value)
    requires Covered(bs, cs) && exists i, j :: At(bs, i, j) && bs[i].entries[j].key == k
    ensures exists i, j :: At(cs, i, j) && cs[i].entries[j].key == k
  {
    var i, j :| At(bs, i, j) && bs[i].entries[j].key == k;
    assert HasMatch(bs[i].entries[j], cs);
  }

  lemma {:induction false} TableCovers(h: string -> int, bs: seq<Bucket>, cs: seq<Bucket>)
    requires Formed(h, Dict(bs)) && Formed(h, Dict(cs)) && BucketsTable(bs) == BucketsTable(cs)
    ensures |bs| == |cs| && Covered(bs, cs) && Covered(cs, bs)
    decreases Dict(bs), 0
  {
    hide Formed, BucketsTable;
    forall i, j | At(bs, i, j) ensures HasMatch(bs[i].entries[j], cs) {
      var m, n := SamePlace(h, bs, cs, i, j);
      EntryBelow(bs, i, j);
      BothWaysExactly(h, bs[i].entries[j].val, cs[m].entries[n].val);
    }
    forall i, j | At(cs, i, j) ensures HasMatch(cs[i].entries[j], bs) {
      var m, n := SamePlace(h, cs, bs, i, j);
      EntryBelow(bs, m, n);
      BothWaysExactly(h, bs[m].entries[n].val, cs[i].entries[j].val);
    }
    FormedHashes(h, bs);
    FormedHashes(h, cs);
    HashesWithin(h, bs, cs);
    HashesWithin(h, cs, bs);
    assert Hashes(bs) == Hashes(cs);
    HashCount(bs);
    HashCount(cs);
  }

  lemma FormedHashes(h: string -> int, bs: seq<Bucket>)
    requires Formed(h, Dict(bs))
    ensures DistinctHashes(bs)
  {}

  lemma EntryBelow(bs: seq<Bucket>, i: nat, j: nat)
    requires At(bs, i, j)
    ensures bs[i].entries[j].val < Dict(bs)
  {
    assert bs[i] < Dict(bs) && bs[i].entries[j] < bs[i];
  }

  /** Where the key of an entry stands in a dictionary of the same meaning. */
  lemma SamePlace(h: string -> int, bs: seq<Bucket>, cs: seq<Bucket>, i: nat, j: nat) returns (m: nat, n: nat)
    requires Formed(h, Dict(bs)) && Formed(h, Dict(cs)) && BucketsTable(bs) == BucketsTable(cs) && At(bs, i, j)
    ensures At(cs, m, n) && cs[m].entries[n].key == bs[i].entries[j].key
    ensures Meaning(cs[m].entries[n].val) == Meaning(bs[i].entries[j].val)
    ensures Formed(h, bs[i].entries[j].val) && Formed(h, cs[m].entries[n].val)
  {
    var k := bs[i].entries[j].key;
    BucketsAt(h, bs, i, j);
    BucketsKeys(cs, k);
    m, n :| At(cs, m, n) && cs[m].entries[n].key == k;
    BucketsAt(h, cs, m, n);
    assert FormedBucket(h, bs[i]) && FormedBucket(h, cs[m]);
  }

  // ----- the number of hash codes -----

  function Hashes(bs: seq<Bucket>): set<int> {
    set i | 0 <= i < |bs| :: bs[i].hash
  }

  lemma {:induction false} HashCount(bs: seq<Bucket>)
    requires DistinctHashes(bs)
    ensures |Hashes(bs)| == |bs|
    decreases bs
  {
    if bs == [] {
      assert Hashes(bs) == {};
    } else {
      HashCount(bs[1..]);
      HashesSplit(bs);
    }
  }

  lemma HashesSplit(bs: seq<Bucket>)
    requires bs != []
    ensures Hashes(bs) == {bs[0].hash} + Hashes(bs[1..])
  {
    var rest := bs[1..];
    forall x | x in Hashes(rest) ensures x in Hashes(bs) {
      var i :| 0 <= i < |rest| && rest[i].hash == x;
      assert bs[i + 1].hash == x;
    }
    forall x | x in Hashes(bs) ensures x in {bs[0].hash} + Hashes(rest) {
      var i :| 0 <= i < |bs| && bs[i].hash == x;
      if i > 0 { assert rest[i - 1].hash == x; }
    }
  }

  lemma HashesWithin(h: string -> int, bs: seq<Bucket>, cs: seq<Bucket>)
    requires Formed(h, Dict(bs)) && Formed(h, Dict(cs)) && BucketsTable(bs) == BucketsTable(cs)
    ensures Hashes(bs) <= Hashes(cs)
  {
    forall x | x in Hashes(bs) ensures x in Hashes(cs) {
      var i :| 0 <= i < |bs| && bs[i].hash == x;
      assert FormedBucket(h, bs[i]) && At(bs, i, 0);
      var m, n := SamePlace(h, bs, cs, i, 0);
      assert FormedBucket(h, cs[m]) && cs[m].hash == x;
    }
  }

  // ----- without hash collisions -----

  /** On values without hash collisions equality is equality of meaning. */
  lemma EqualExactly(h: string -> int, a: Value, b: Value)
    requires Formed(h, a) && Formed(h, b) && CollisionFree(a) && CollisionFree(b)
    ensures Equal(a, b) <==> Meaning(a) == Meaning(b)
  {
    EqualEquivalence(h, a, b);
    BothWaysExactly(h, a, b);
  }
}
