/** Structural equality (`opcode::eq`) on nested lists and dictionaries: when it is an equivalence.
    The dictionary case compares the numbers of hash codes, not of entries, and looks for every
    entry of the first dictionary in the second but not the other way round. */
module Equality {
  import opened Values

  // ----- well-formed values -----

  /** The hash code of a key; string hashing is the C++ library's and may be any function. */
  function HashOf(h: string -> int, v: Value): int
    requires Hashable(v)
  {
    match v
    case Int(i) => i
    case Bool(b) => if b then 1 else 0
    case Str(s) => h(s)
    case Nil => -1
  }

  /** Besides strings, which keys share a hash code. */
  lemma HashesShared(h: string -> int, k: Value, k': Value)
    requires Hashable(k) && Hashable(k') && !k.Str? && !k'.Str?
    ensures HashOf(h, k) == HashOf(h, k') <==>
              k == k' || {k, k'} in {{Int(1), Bool(true)}, {Int(0), Bool(false)}, {Int(-1), Nil}}
  {
    if {k, k'} in {{Int(1), Bool(true)}, {Int(0), Bool(false)}, {Int(-1), Nil}} && k != k' {
      assert k in {k, k'} && k' in {k, k'};
    }
    if HashOf(h, k) == HashOf(h, k') && k != k' {
      assert {k, k'} == {k', k};
    }
  }

  /** Dictionaries as `DictValue::push` builds them: one bucket per hash code, keys stored under
      their hash codes and different from each other. */
  ghost predicate Formed(h: string -> int, v: Value)
    decreases v
  {
    match v
    case ListVal(xs) => forall i :: 0 <= i < |xs| ==> Formed(h, xs[i])
    case Dict(bs) =>
      && DistinctHashes(bs)
      && forall i :: 0 <= i < |bs| ==> FormedBucket(h, bs[i])
    case _ => true
  }

  ghost predicate FormedBucket(h: string -> int, k: Bucket)
    decreases k
  {
    && |k.entries| > 0
    && KeysDiffer(k.entries)
    && forall j :: 0 <= j < |k.entries| ==>
         Hashable(k.entries[j].key) && HashOf(h, k.entries[j].key) == k.hash && Formed(h, k.entries[j].val)
  }

  predicate DistinctHashes(bs: seq<Bucket>) {
    forall i, j :: 0 <= i < j < |bs| ==> bs[i].hash != bs[j].hash
  }

  predicate KeysDiffer(es: seq<Entry>) {
    forall i, j :: 0 <= i < j < |es| ==> es[i].key != es[j].key
  }

  /** On keys equality is identity. */
  lemma KeyEqual(k: Value, k': Value)
    requires Hashable(k)
    ensures Equal(k, k') <==> k == k'
  {}

  // ----- reflexive and transitive -----

  lemma {:induction false} EqualReflexive(h: string -> int, v: Value)
    requires Formed(h, v)
    ensures Equal(v, v)
    decreases v
  {
    match v
    case ListVal(xs) =>
      forall i | 0 <= i < |xs| ensures Equal(xs[i], xs[i]) {
        EqualReflexive(h, xs[i]);
      }
    case Dict(bs) =>
      forall i | 0 <= i < |bs| ensures BucketIn(bs[i], bs) {
        BucketReflexive(h, bs[i]);
      }
    case _ =>
  }

  lemma {:induction false} BucketReflexive(h: string -> int, k: Bucket)
    requires FormedBucket(h, k)
    ensures BucketMatches(k, k)
    decreases k
  {
    forall j | 0 <= j < |k.entries| ensures EntryIn(k.entries[j], k.entries) {
      KeyEqual(k.entries[j].key, k.entries[j].key);
      EqualReflexive(h, k.entries[j].val);
    }
  }

  lemma {:induction false} EqualTransitive(h: string -> int, a: Value, b: Value, c: Value)
    requires Formed(h, a) && Formed(h, b) && Formed(h, c) && Equal(a, b) && Equal(b, c)
    ensures Equal(a, c)
    decreases a
  {
    match a
    case ListVal(xs) =>
      forall i | 0 <= i < |xs| ensures Equal(xs[i], c.vals[i]) {
        assert Equal(xs[i], b.vals[i]) && Equal(b.vals[i], c.vals[i]);
        EqualTransitive(h, xs[i], b.vals[i], c.vals[i]);
      }
    case Dict(bs) =>
      forall i | 0 <= i < |bs| ensures BucketIn(bs[i], c.buckets) {
        assert BucketIn(bs[i], b.buckets);
        var j :| 0 <= j < |b.buckets| && b.buckets[j].hash == bs[i].hash && BucketMatches(bs[i], b.buckets[j]);
        assert BucketIn(b.buckets[j], c.buckets);
        var k :| 0 <= k < |c.buckets| && c.buckets[k].hash == b.buckets[j].hash && BucketMatches(b.buckets[j], c.buckets[k]);
        BucketTransitive(h, bs[i], b.buckets[j], c.buckets[k]);
      }
    case _ =>
  }

  lemma {:induction false} BucketTransitive(h: string -> int, x: Bucket, y: Bucket, z: Bucket)
    requires FormedBucket(h, x) && FormedBucket(h, y) && FormedBucket(h, z) && BucketMatches(x, y) && BucketMatches(y, z)
    ensures BucketMatches(x, z)
    decreases x
  {
    forall i | 0 <= i < |x.entries| ensures EntryIn(x.entries[i], z.entries) {
      var e := x.entries[i];
      assert EntryIn(e, y.entries);
      var j :| 0 <= j < |y.entries| && Equal(e.key, y.entries[j].key) && Equal(e.val, y.entries[j].val);
      assert EntryIn(y.entries[j], z.entries);
      var k :| 0 <= k < |z.entries| && Equal(y.entries[j].key, z.entries[k].key) && Equal(y.entries[j].val, z.entries[k].val);
      KeyEqual(e.key, y.entries[j].key);
      EqualTransitive(h, e.val, y.entries[j].val, z.entries[k].val);
    }
  }

  // ----- entries of a dictionary, wherever they are stored -----

  /** Entry `j` of bucket `i`. */
  predicate At(bs: seq<Bucket>, i: int, j: int) {
    0 <= i < |bs| && 0 <= j < |bs[i].entries|
  }

  function KeySet(bs: seq<Bucket>): set<Value> {
    set i, j | 0 <= i < |bs| && 0 <= j < |bs[i].entries| :: bs[i].entries[j].key
  }

  function Size(bs: seq<Bucket>): nat {
    if bs == [] then 0 else |bs[0].entries| + Size(bs[1..])
  }

  lemma {:induction false} EntryKeys(es: seq<Entry>)
    requires KeysDiffer(es)
    ensures |set j | 0 <= j < |es| :: es[j].key| == |es|
    decreases es
  {
    var keys := set j | 0 <= j < |es| :: es[j].key;
    if es == [] {
      assert keys == {};
    } else {
      var rest := es[1..];
      var restKeys := set j | 0 <= j < |rest| :: rest[j].key;
      EntryKeys(rest);
      forall k | k in keys ensures k in {es[0].key} + restKeys {
        var j :| 0 <= j < |es| && es[j].key == k;
        if j > 0 { assert rest[j - 1].key == k; }
      }
      forall k | k in restKeys ensures k in keys {
        var j :| 0 <= j < |rest| && rest[j].key == k;
        assert es[j + 1].key == k;
      }
      assert keys == {es[0].key} + restKeys;
      assert es[0].key !in restKeys;
    }
  }

  /** Different keys: as many as there are entries. */
  lemma {:induction false} KeySetSize(h: string -> int, bs: seq<Bucket>)
    requires DistinctHashes(bs) && forall i :: 0 <= i < |bs| ==> FormedBucket(h, bs[i])
    ensures |KeySet(bs)| == Size(bs)
    decreases bs
  {
    if bs == [] {
      assert KeySet(bs) == {};
    } else {
      var es, rest := bs[0].entries, bs[1..];
      var first := set j | 0 <= j < |es| :: es[j].key;
      assert FormedBucket(h, bs[0]);
      EntryKeys(es);
      KeySetSize(h, rest);
      KeySetSplit(bs);
      forall k | k in KeySet(rest) ensures k !in first {
        var i, j :| 0 <= i < |rest| && 0 <= j < |rest[i].entries| && rest[i].entries[j].key == k;
        assert FormedBucket(h, bs[i + 1]);
        assert rest[i] == bs[i + 1] && HashOf(h, k) != bs[0].hash;
      }
      assert first !! KeySet(rest);
    }
  }

  lemma KeySetSplit(bs: seq<Bucket>)
    requires bs != []
    ensures KeySet(bs) == (set j | 0 <= j < |bs[0].entries| :: bs[0].entries[j].key) + KeySet(bs[1..])
  {
    var rest := bs[1..];
    var first := set j | 0 <= j < |bs[0].entries| :: bs[0].entries[j].key;
    forall k | k in KeySet(bs) ensures k in first + KeySet(rest) {
      var i, j :| 0 <= i < |bs| && 0 <= j < |bs[i].entries| && bs[i].entries[j].key == k;
      if i > 0 { assert rest[i - 1].entries[j].key == k; }
    }
    forall k | k in KeySet(rest) ensures k in KeySet(bs) {
      var i, j :| 0 <= i < |rest| && 0 <= j < |rest[i].entries| && rest[i].entries[j].key == k;
      assert bs[i + 1].entries[j].key == k;
    }
  }

  /** Every entry of the first dictionary has its match in the second. */
  ghost predicate Covered(bs: seq<Bucket>, cs: seq<Bucket>) {
    forall i, j :: At(bs, i, j) ==> HasMatch(bs[i].entries[j], cs)
  }

  ghost predicate HasMatch(e: Entry, cs: seq<Bucket>) {
    exists i, j :: At(cs, i, j) && cs[i].entries[j].key == e.key && Equal(e.val, cs[i].entries[j].val)
  }

  /** What dictionary equality says, without the buckets. */
  lemma EqualDicts(h: string -> int, bs: seq<Bucket>, cs: seq<Bucket>)
    requires Formed(h, Dict(bs)) && Formed(h, Dict(cs))
    ensures Equal(Dict(bs), Dict(cs)) <==> |bs| == |cs| && Covered(bs, cs)
  {
    if Equal(Dict(bs), Dict(cs)) {
      forall i, j | At(bs, i, j) ensures HasMatch(bs[i].entries[j], cs) {
        assert BucketIn(bs[i], cs);
        var m :| 0 <= m < |cs| && cs[m].hash == bs[i].hash && BucketMatches(bs[i], cs[m]);
        var e := bs[i].entries[j];
        assert FormedBucket(h, bs[i]) && EntryIn(e, cs[m].entries);
        var n :| 0 <= n < |cs[m].entries| && Equal(e.key, cs[m].entries[n].key) && Equal(e.val, cs[m].entries[n].val);
        KeyEqual(e.key, cs[m].entries[n].key);
        assert At(cs, m, n);
      }
    }
    if |bs| == |cs| && Covered(bs, cs) {
      forall i | 0 <= i < |bs| ensures BucketIn(bs[i], cs) {
        CoveredBucket(h, bs, cs, i);
      }
    }
  }

  /** The matches of one bucket's entries all lie in the bucket of the same hash. */
  lemma CoveredBucket(h: string -> int, bs: seq<Bucket>, cs: seq<Bucket>, i: nat)
    requires Formed(h, Dict(bs)) && Formed(h, Dict(cs)) && Covered(bs, cs) && i < |bs|
    ensures BucketIn(bs[i], cs)
  {
    assert FormedBucket(h, bs[i]) && At(bs, i, 0);
    assert HasMatch(bs[i].entries[0], cs);
    var m, n :| At(cs, m, n) && cs[m].entries[n].key == bs[i].entries[0].key && Equal(bs[i].entries[0].val, cs[m].entries[n].val);
    assert FormedBucket(h, cs[m]);
    assert cs[m].hash == bs[i].hash;
    forall j | 0 <= j < |bs[i].entries| ensures EntryIn(bs[i].entries[j], cs[m].entries) {
      var e := bs[i].entries[j];
      assert At(bs, i, j) && HasMatch(e, cs);
      var m', n' :| At(cs, m', n') && cs[m'].entries[n'].key == e.key && Equal(e.val, cs[m'].entries[n'].val);
      assert FormedBucket(h, cs[m']);
      assert m' == m;
      KeyEqual(e.key, cs[m].entries[n'].key);
    }
  }

  /** A key stands in one place only. */
  lemma KeyPlace(h: string -> int, bs: seq<Bucket>, i: int, j: int, i': int, j': int)
    requires Formed(h, Dict(bs)) && At(bs, i, j) && At(bs, i', j') && bs[i].entries[j].key == bs[i'].entries[j'].key
    ensures i == i' && j == j'
  {
    assert FormedBucket(h, bs[i]) && FormedBucket(h, bs[i']);
  }

  lemma CoveredKeys(bs: seq<Bucket>, cs: seq<Bucket>)
    requires Covered(bs, cs)
    ensures KeySet(bs) <= KeySet(cs)
  {
    forall k | k in KeySet(bs) ensures k in KeySet(cs) {
      var i, j :| 0 <= i < |bs| && 0 <= j < |bs[i].entries| && bs[i].entries[j].key == k;
      assert At(bs, i, j) && HasMatch(bs[i].entries[j], cs);
    }
  }

  // ----- symmetric exactly when the entry counts agree -----

  /** Dictionaries in corresponding places have the same number of entries. */
  ghost predicate SameSizes(a: Value, b: Value)
    decreases a
  {
    match a
    case ListVal(xs) => b.ListVal? && |xs| == |b.vals| ==> forall i :: 0 <= i < |xs| ==> SameSizes(xs[i], b.vals[i])
    case Dict(bs) =>
      b.Dict? ==>
        && Size(bs) == Size(b.buckets)
        && forall i :: 0 <= i < |bs| ==> BucketSizes(bs[i], b.buckets)
    case _ => true
  }

  ghost predicate BucketSizes(k: Bucket, cs: seq<Bucket>)
    decreases k
  {
    forall j, m, n :: 0 <= j < |k.entries| && At(cs, m, n) && k.entries[j].key == cs[m].entries[n].key ==>
      SameSizes(k.entries[j].val, cs[m].entries[n].val)
  }

  lemma SizesAt(bs: seq<Bucket>, cs: seq<Bucket>, i: int, j: int, m: int, n: int)
    requires SameSizes(Dict(bs), Dict(cs)) && At(bs, i, j) && At(cs, m, n)
    requires bs[i].entries[j].key == cs[m].entries[n].key
    ensures SameSizes(bs[i].entries[j].val, cs[m].entries[n].val)
  {
    assert BucketSizes(bs[i], cs);
  }

  /** Equality can be turned round exactly when the numbers of entries agree. */
  lemma {:induction false} EqualSymmetric(h: string -> int, a: Value, b: Value)
    requires Formed(h, a) && Formed(h, b) && Equal(a, b)
    ensures Equal(b, a) <==> SameSizes(a, b)
    decreases a
  {
    match a
    case ListVal(xs) =>
      forall i | 0 <= i < |xs| ensures Equal(b.vals[i], xs[i]) <==> SameSizes(xs[i], b.vals[i]) {
        EqualSymmetric(h, xs[i], b.vals[i]);
      }
    case Dict(bs) =>
      EqualDicts(h, bs, b.buckets);
      EqualDicts(h, b.buckets, bs);
      if SameSizes(a, b) {
        TurnRound(h, bs, b.buckets);
      }
      if Covered(b.buckets, bs) {
        SizesAgree(h, bs, b.buckets);
      }
    case _ =>
  }

  lemma TurnRound(h: string -> int, bs: seq<Bucket>, cs: seq<Bucket>)
    requires Formed(h, Dict(bs)) && Formed(h, Dict(cs)) && Covered(bs, cs) && SameSizes(Dict(bs), Dict(cs))
    ensures Covered(cs, bs)
    decreases Dict(bs), 0
  {
    KeySetSize(h, bs);
    KeySetSize(h, cs);
    CoveredKeys(bs, cs);
    SubsetEqual(KeySet(bs), KeySet(cs));
    forall m, n | At(cs, m, n) ensures HasMatch(cs[m].entries[n], bs) {
      var e := cs[m].entries[n];
      assert e.key in KeySet(cs);
      var i, j :| 0 <= i < |bs| && 0 <= j < |bs[i].entries| && bs[i].entries[j].key == e.key;
      assert At(bs, i, j);
      MatchAt(h, bs, cs, i, j, m, n);
      SizesAt(bs, cs, i, j, m, n);
      assert FormedBucket(h, bs[i]) && FormedBucket(h, cs[m]);
      EqualSymmetric(h, bs[i].entries[j].val, e.val);
    }
  }

  lemma SubsetEqual<T>(x: set<T>, y: set<T>)
    requires x <= y && |x| == |y|
    ensures x == y
  {
    if x != y {
      var e :| e in y && e !in x;
      assert x <= y - {e};
      SubsetSize(x, y - {e});
    }
  }

  lemma {:induction false} SubsetSize<T>(x: set<T>, y: set<T>)
    requires x <= y
    ensures |x| <= |y|
    decreases x
  {
    if x != {} {
      var e :| e in x;
      SubsetSize(x - {e}, y - {e});
    }
  }

  lemma EntryCounts(h: string -> int, bs: seq<Bucket>, cs: seq<Bucket>)
    requires Formed(h, Dict(bs)) && Formed(h, Dict(cs)) && Covered(bs, cs) && Covered(cs, bs)
    ensures Size(bs) == Size(cs)
  {
    hide KeySet, Covered, HasMatch;
    KeySetSize(h, bs);
    KeySetSize(h, cs);
    CoveredKeys(bs, cs);
    CoveredKeys(cs, bs);
    assert KeySet(bs) == KeySet(cs);
  }

  lemma SizesAgree(h: string -> int, bs: seq<Bucket>, cs: seq<Bucket>)
    requires Formed(h, Dict(bs)) && Formed(h, Dict(cs)) && Covered(bs, cs) && Covered(cs, bs)
    ensures SameSizes(Dict(bs), Dict(cs))
    decreases Dict(bs), 0
  {
    hide KeySet, Covered, HasMatch;
    EntryCounts(h, bs, cs);
    forall i | 0 <= i < |bs| ensures BucketSizes(bs[i], cs) {
      forall j, m, n | 0 <= j < |bs[i].entries| && At(cs, m, n) && bs[i].entries[j].key == cs[m].entries[n].key
        ensures SameSizes(bs[i].entries[j].val, cs[m].entries[n].val)
      {
        MatchBothWays(h, bs, cs, i, j, m, n);
        assert FormedBucket(h, bs[i]) && FormedBucket(h, cs[m]);
        EqualSymmetric(h, bs[i].entries[j].val, cs[m].entries[n].val);
      }
    }
  }

  /** Values under one key are equal, in the direction of the cover. */
  lemma MatchAt(h: string -> int, bs: seq<Bucket>, cs: seq<Bucket>, i: int, j: int, m: int, n: int)
    requires Formed(h, Dict(cs)) && Covered(bs, cs) && At(bs, i, j) && At(cs, m, n)
    requires bs[i].entries[j].key == cs[m].entries[n].key
    ensures Equal(bs[i].entries[j].val, cs[m].entries[n].val)
  {
    var e := bs[i].entries[j];
    assert HasMatch(e, cs);
    var m', n' :| At(cs, m', n') && cs[m'].entries[n'].key == e.key && Equal(e.val, cs[m'].entries[n'].val);
    KeyPlace(h, cs, m, n, m', n');
  }

  lemma MatchBothWays(h: string -> int, bs: seq<Bucket>, cs: seq<Bucket>, i: int, j: int, m: int, n: int)
    requires Formed(h, Dict(bs)) && Formed(h, Dict(cs)) && Covered(bs, cs) && Covered(cs, bs) && At(bs, i, j) && At(cs, m, n)
    requires bs[i].entries[j].key == cs[m].entries[n].key
    ensures Equal(bs[i].entries[j].val, cs[m].entries[n].val) && Equal(cs[m].entries[n].val, bs[i].entries[j].val)
  {
    MatchAt(h, bs, cs, i, j, m, n);
    MatchAt(h, cs, bs, m, n, i, j);
  }

  // ----- without hash collisions equality is an equivalence -----

  /** No two keys of one dictionary share a hash code. */
  ghost predicate CollisionFree(v: Value)
    decreases v
  {
    match v
    case ListVal(xs) => forall i :: 0 <= i < |xs| ==> CollisionFree(xs[i])
    case Dict(bs) => forall i :: 0 <= i < |bs| ==> SingleEntry(bs[i])
    case _ => true
  }

  ghost predicate SingleEntry(k: Bucket)
    decreases k
  {
    |k.entries| == 1 && CollisionFree(k.entries[0].val)
  }

  lemma {:induction false} SingleSize(bs: seq<Bucket>)
    requires forall i :: 0 <= i < |bs| ==> SingleEntry(bs[i])
    ensures Size(bs) == |bs|
    decreases bs
  {
    if bs != [] {
      assert SingleEntry(bs[0]);
      assert forall i :: 0 <= i < |bs[1..]| ==> bs[1..][i] == bs[i + 1];
      SingleSize(bs[1..]);
    }
  }

  lemma {:induction false} CollisionFreeSizes(h: string -> int, a: Value, b: Value)
    requires Formed(h, a) && Formed(h, b) && CollisionFree(a) && CollisionFree(b) && Equal(a, b)
    ensures SameSizes(a, b)
    decreases a
  {
    match a
    case ListVal(xs) =>
      forall i | 0 <= i < |xs| ensures SameSizes(xs[i], b.vals[i]) {
        CollisionFreeSizes(h, xs[i], b.vals[i]);
      }
    case Dict(bs) =>
      var cs := b.buckets;
      EqualDicts(h, bs, cs);
      SingleSize(bs);
      SingleSize(cs);
      forall i | 0 <= i < |bs| ensures BucketSizes(bs[i], cs) {
        forall j, m, n | 0 <= j < |bs[i].entries| && At(cs, m, n) && bs[i].entries[j].key == cs[m].entries[n].key
          ensures SameSizes(bs[i].entries[j].val, cs[m].entries[n].val)
        {
          assert At(bs, i, j);
          MatchAt(h, bs, cs, i, j, m, n);
          assert SingleEntry(bs[i]) && SingleEntry(cs[m]) && FormedBucket(h, bs[i]) && FormedBucket(h, cs[m]);
          CollisionFreeSizes(h, bs[i].entries[j].val, cs[m].entries[n].val);
        }
      }
    case _ =>
  }

  /** On values without hash collisions equality is symmetric, hence an equivalence. */
  lemma EqualEquivalence(h: string -> int, a: Value, b: Value)
    requires Formed(h, a) && Formed(h, b) && CollisionFree(a) && CollisionFree(b)
    ensures Equal(a, b) <==> Equal(b, a)
  {
    if Equal(a, b) {
      CollisionFreeSizes(h, a, b);
      EqualSymmetric(h, a, b);
    }
    if Equal(b, a) {
      CollisionFreeSizes(h, b, a);
      EqualSymmetric(h, b, a);
    }
  }

  /** With a collision it is not symmetric: -1 and nil share the hash code -1, so `{-1: 1}` equals
      `{-1: 1, nil: 2}` but not the other way round. */
  lemma EqualityOneSided(h: string -> int)
    ensures var a := Dict([Bucket(-1, [Entry(Int(-1), Int(1))])]);
            var b := Dict([Bucket(-1, [Entry(Int(-1), Int(1)), Entry(Nil, Int(2))])]);
            Formed(h, a) && Formed(h, b) && Equal(a, b) && !Equal(b, a)
  {
    var x, y := Entry(Int(-1), Int(1)), Entry(Nil, Int(2));
    var k, k' := Bucket(-1, [x]), Bucket(-1, [x, y]);
    assert FormedBucket(h, k) && FormedBucket(h, k');
    assert EntryIn(x, k'.entries) by {
      assert k'.entries[0] == x && Equal(x.key, x.key) && Equal(x.val, x.val);
    }
    assert BucketMatches(k, k');
    var cs := [k'];
    assert cs[0] == k' && cs[0].hash == k.hash && BucketMatches(k, cs[0]);
    assert BucketIn(k, cs);
    assert !EntryIn(y, k.entries);
    assert k'.entries[1] == y;
    assert !BucketMatches(k', k);
    assert !BucketIn(k', [k]);
    var b := Dict([k']);
    assert b.buckets[0] == k';
  }
}
