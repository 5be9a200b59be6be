/** Dictionaries as objects (`DictValue` in vm/values.hpp and vm/values.cpp) and the comparison loops
    of `opcode::eq`. */
module Dictionaries {
  import opened Lists
  import opened Values
  import opened Equality

  // ----- the comparison, as the loops do it -----

  /** `opcode::eq`. Values are well formed, as all run-time values are. */
  method Eq(a: Value, b: Value, ghost h: string -> int) returns (r: bool)
    requires Formed(h, a) && Formed(h, b)
    ensures r == Equal(a, b)
    decreases a, 1
  {
    match a
    case Int(i) => r := b.Int? && i == b.i;
    case Bool(v) => r := b.Bool? && v == b.b;
    case Str(s) => r := b.Str? && s == b.s;
    case Nil => r := b.Nil?;
    case ListVal(xs) =>
      if !b.ListVal? || |xs| != |b.vals| {
        return false;
      }
      var i := 0;
      while i < |xs|
        invariant i <= |xs| && forall k :: 0 <= k < i ==> Equal(xs[k], b.vals[k])
      {
        var same := Eq(xs[i], b.vals[i], h);
        if !same {
          return false;
        }
        i := i + 1;
      }
      r := true;
    case Dict(bs) =>
      if !b.Dict? || |bs| != |b.buckets| {
        return false;
      }
      var i := 0;
      while i < |bs|
        invariant i <= |bs| && forall k :: 0 <= k < i ==> BucketIn(bs[k], b.buckets)
      {
        var j := FindBucket(b.buckets, bs[i].hash);
        if j == |b.buckets| {
          return false;
        }
        assert FormedBucket(h, bs[i]) && FormedBucket(h, b.buckets[j]);
        var same := EqBucket(bs[i], b.buckets[j], h);
        if !same {
          return false;
        }
        i := i + 1;
      }
      r := true;
  }

  method FindBucket(bs: seq<Bucket>, hash: int) returns (j: nat)
    ensures j <= |bs| && (j < |bs| ==> bs[j].hash == hash)
    ensures forall k :: 0 <= k < j ==> bs[k].hash != hash
  {
    j := 0;
    while j < |bs| && bs[j].hash != hash
      invariant j <= |bs| && forall k :: 0 <= k < j ==> bs[k].hash != hash
    {
      j := j + 1;
    }
  }

  /** Every entry of one bucket is looked for in the other. */
  method EqBucket(k: Bucket, other: Bucket, ghost h: string -> int) returns (r: bool)
    requires FormedBucket(h, k) && FormedBucket(h, other)
    ensures r == BucketMatches(k, other)
    decreases k, 0
  {
    var i := 0;
    while i < |k.entries|
      invariant i <= |k.entries| && forall n :: 0 <= n < i ==> EntryIn(k.entries[n], other.entries)
    {
      var matched := false;
      var j := 0;
      while j < |other.entries| && !matched
        invariant j <= |other.entries|
        invariant matched ==> EntryIn(k.entries[i], other.entries)
        invariant !matched ==> forall n :: 0 <= n < j ==>
                    !(Equal(k.entries[i].key, other.entries[n].key) && Equal(k.entries[i].val, other.entries[n].val))
      {
        var same := Eq(k.entries[i].key, other.entries[j].key, h);
        if same {
          same := Eq(k.entries[i].val, other.entries[j].val, h);
        }
        if same {
          matched := true;
        }
        j := j + 1;
      }
      if !matched {
        return false;
      }
      i := i + 1;
    }
    r := true;
  }

  // ----- adding entries -----

  /** The entries of a bucket with `k` bound to `v`: in place of an equal key, or at the end. */
  function Stored(es: seq<Entry>, k: Value, v: Value): seq<Entry> {
    if es == [] then [Entry(k, v)]
    else if Equal(es[0].key, k) then [Entry(k, v)] + es[1..]
    else [es[0]] + Stored(es[1..], k, v)
  }

  function Pushed(bs: seq<Bucket>, hash: int, k: Value, v: Value): seq<Bucket> {
    if bs == [] then [Bucket(hash, [Entry(k, v)])]
    else if bs[0].hash == hash then [Bucket(hash, Stored(bs[0].entries, k, v))] + bs[1..]
    else [bs[0]] + Pushed(bs[1..], hash, k, v)
  }

  /** The buckets in the order in which their hash codes were first used. */
  function InOrder(vals: map<int, seq<Entry>>, order: seq<int>): seq<Bucket>
    requires forall i :: 0 <= i < |order| ==> order[i] in vals
  {
    if order == [] then [] else [Bucket(order[0], vals[order[0]])] + InOrder(vals, order[1..])
  }

  predicate NoDuplicates(order: seq<int>) {
    forall i, j :: 0 <= i < j < |order| ==> order[i] != order[j]
  }

  class DictValue {
    var vals: map<int, seq<Entry>>
    var order: seq<int>

    ghost predicate Valid()
      reads this
    {
      && NoDuplicates(order)
      && (forall i :: 0 <= i < |order| ==> order[i] in vals)
      && (forall k :: k in vals ==> k in order)
    }

    function Buckets(): seq<Bucket>
      requires forall i :: 0 <= i < |order| ==> order[i] in vals
      reads this
    {
      InOrder(vals, order)
    }

    constructor ()
      ensures Valid() && Buckets() == []
    {
      vals, order := map[], [];
    }

    /** `size()`: the number of hash codes. */
    method Size() returns (n: nat)
      requires Valid()
      ensures n == |Buckets()|
    {
      InOrderLength(vals, order);
      n := |order|;
    }

    /** `push`, for a key that can be hashed. */
    method Push(k: Value, v: Value, hash: int)
      requires Valid()
      modifies this
      ensures Valid() && Buckets() == Pushed(old(Buckets()), hash, k, v)
    {
      PushOrder(vals, order, hash, k, v);
      if hash in vals {
        var vak := vals[hash];
        var i := IndexOf(vak, k);
        StoredAt(vak, k, v, i);
        if i < |vak| {
          vals := vals[hash := vak[i := Entry(k, v)]];
        } else {
          vals := vals[hash := vak + [Entry(k, v)]];
        }
      } else {
        vals := vals[hash := [Entry(k, v)]];
        order := order + [hash];
      }
    }
  }

  /** The first entry whose key equals `k`. */
  method IndexOf(es: seq<Entry>, k: Value) returns (i: nat)
    ensures i <= |es| && (i < |es| ==> Equal(es[i].key, k))
    ensures forall n :: 0 <= n < i ==> !Equal(es[n].key, k)
  {
    i := 0;
    while i < |es|
      invariant i <= |es| && forall n :: 0 <= n < i ==> !Equal(es[n].key, k)
    {
      if Equal(es[i].key, k) {
        return;
      }
      i := i + 1;
    }
  }

  lemma {:induction false} StoredAt(es: seq<Entry>, k: Value, v: Value, i: nat)
    requires i <= |es| && (i < |es| ==> Equal(es[i].key, k))
    requires forall n :: 0 <= n < i ==> !Equal(es[n].key, k)
    ensures Stored(es, k, v) == if i < |es| then es[i := Entry(k, v)] else es + [Entry(k, v)]
    decreases es
  {
    if i > 0 {
      var rest := es[1..];
      assert forall n :: 0 <= n < |rest| ==> rest[n] == es[n + 1];
      StoredAt(rest, k, v, i - 1);
    }
  }

  lemma {:induction false} InOrderLength(vals: map<int, seq<Entry>>, order: seq<int>)
    requires forall i :: 0 <= i < |order| ==> order[i] in vals
    ensures |InOrder(vals, order)| == |order|
    decreases order
  {
    if order != [] {
      InOrderLength(vals, order[1..]);
    }
  }

  /** Changing a bucket that is not listed changes nothing. */
  lemma {:induction false} InOrderOther(vals: map<int, seq<Entry>>, order: seq<int>, hash: int, es: seq<Entry>)
    requires forall i :: 0 <= i < |order| ==> order[i] in vals
    requires hash !in order
    ensures InOrder(vals[hash := es], order) == InOrder(vals, order)
    decreases order
  {
    if order != [] {
      assert order[0] != hash;
      InOrderOther(vals, order[1..], hash, es);
    }
  }

  lemma {:induction false} PushOrder(vals: map<int, seq<Entry>>, order: seq<int>, hash: int, k: Value, v: Value)
    requires NoDuplicates(order) && forall i :: 0 <= i < |order| ==> order[i] in vals
    ensures hash in order ==>
              InOrder(vals[hash := Stored(vals[hash], k, v)], order) == Pushed(InOrder(vals, order), hash, k, v)
    ensures hash !in order ==>
              InOrder(vals[hash := [Entry(k, v)]], order + [hash]) == Pushed(InOrder(vals, order), hash, k, v)
    decreases order
  {
    if order == [] {
      assert order + [hash] == [hash];
    } else {
      var rest := order[1..];
      PushOrder(vals, rest, hash, k, v);
      assert (order + [hash])[1..] == rest + [hash];
      if order[0] == hash {
        assert hash !in rest;
        InOrderOther(vals, rest, hash, Stored(vals[hash], k, v));
      }
    }
  }

  // ----- what a push means -----

  /** A new hash code goes behind all others. */
  lemma {:induction false} PushedNewHash(bs: seq<Bucket>, hash: int, k: Value, v: Value)
    requires forall i :: 0 <= i < |bs| ==> bs[i].hash != hash
    ensures Pushed(bs, hash, k, v) == bs + [Bucket(hash, [Entry(k, v)])]
    decreases bs
  {
    if bs != [] {
      assert forall i :: 0 <= i < |bs[1..]| ==> bs[1..][i] == bs[i + 1];
      PushedNewHash(bs[1..], hash, k, v);
      assert bs == [bs[0]] + bs[1..];
    }
  }

  /** Only the bucket of the hash code changes, and it stays in its place. */
  lemma {:induction false} PushedInBucket(front: seq<Bucket>, es: seq<Entry>, back: seq<Bucket>, hash: int, k: Value, v: Value)
    requires forall i :: 0 <= i < |front| ==> front[i].hash != hash
    ensures Pushed(front + [Bucket(hash, es)] + back, hash, k, v) == front + [Bucket(hash, Stored(es, k, v))] + back
    decreases front
  {
    var bs := front + [Bucket(hash, es)] + back;
    if front == [] {
      assert bs[1..] == back;
    } else {
      var rest := front[1..];
      assert forall i :: 0 <= i < |rest| ==> rest[i] == front[i + 1];
      PushedInBucket(rest, es, back, hash, k, v);
      assert bs[0] == front[0] && bs[1..] == rest + [Bucket(hash, es)] + back;
      assert front + [Bucket(hash, Stored(es, k, v))] + back == [front[0]] + (rest + [Bucket(hash, Stored(es, k, v))] + back);
    }
  }

  /** In its bucket a key keeps its place, and a new key goes to the end. */
  lemma {:induction false} StoredInPlace(front: seq<Entry>, w: Value, back: seq<Entry>, k: Value, v: Value)
    requires Hashable(k) && forall i :: 0 <= i < |front| ==> Hashable(front[i].key) && front[i].key != k
    ensures Stored(front + [Entry(k, w)] + back, k, v) == front + [Entry(k, v)] + back
    ensures Stored(front, k, v) == front + [Entry(k, v)]
    decreases front
  {
    var es := front + [Entry(k, w)] + back;
    KeyEqual(es[0].key, k);
    if front == [] {
      assert es[1..] == back;
    } else {
      var rest := front[1..];
      assert forall i :: 0 <= i < |rest| ==> rest[i] == front[i + 1];
      StoredInPlace(rest, w, back, k, v);
      assert es[0] == front[0] && es[1..] == rest + [Entry(k, w)] + back;
      assert front + [Entry(k, v)] + back == [front[0]] + (rest + [Entry(k, v)] + back);
      assert front + [Entry(k, v)] == [front[0]] + (rest + [Entry(k, v)]);
    }
  }

  lemma {:induction false} StoredFind(es: seq<Entry>, k: Value, v: Value, k': Value)
    requires Hashable(k) && forall i :: 0 <= i < |es| ==> Hashable(es[i].key)
    requires Hashable(k')
    ensures FindKey(Stored(es, k, v), k') == if k' == k then Some(v) else FindKey(es, k')
    decreases es
  {
    if es != [] {
      KeyEqual(es[0].key, k);
      KeyEqual(es[0].key, k');
      KeyEqual(k, k');
      StoredFind(es[1..], k, v, k');
    }
    KeyEqual(k, k');
  }

  lemma {:induction false} FindAppend(es: seq<Entry>, fs: seq<Entry>, k: Value)
    ensures FindKey(es + fs, k) == if FindKey(es, k).Some? then FindKey(es, k) else FindKey(fs, k)
    decreases es
  {
    if es == [] {
      assert es + fs == fs;
    } else {
      assert (es + fs)[1..] == es[1..] + fs;
      FindAppend(es[1..], fs, k);
    }
  }

  /** A key is found in no bucket of another hash code. */
  lemma {:induction false} FindElsewhere(h: string -> int, es: seq<Entry>, k: Value, hash: int)
    requires Hashable(k) && HashOf(h, k) != hash
    requires forall i :: 0 <= i < |es| ==> Hashable(es[i].key) && HashOf(h, es[i].key) == hash
    ensures FindKey(es, k).None?
    decreases es
  {
    if es != [] {
      KeyEqual(es[0].key, k);
      FindElsewhere(h, es[1..], k, hash);
    }
  }

  ghost predicate FormedBuckets(h: string -> int, bs: seq<Bucket>) {
    DistinctHashes(bs) && forall i :: 0 <= i < |bs| ==> FormedBucket(h, bs[i])
  }

  lemma FormedTail(h: string -> int, bs: seq<Bucket>)
    requires FormedBuckets(h, bs) && bs != []
    ensures FormedBuckets(h, bs[1..]) && FormedBucket(h, bs[0])
  {
    assert forall i :: 0 <= i < |bs[1..]| ==> bs[1..][i] == bs[i + 1];
  }

  lemma {:induction false} FindNowhere(h: string -> int, bs: seq<Bucket>, k: Value)
    requires FormedBuckets(h, bs) && Hashable(k) && forall i :: 0 <= i < |bs| ==> bs[i].hash != HashOf(h, k)
    ensures FindKey(AllEntries(bs), k).None?
    decreases bs
  {
    if bs != [] {
      FormedTail(h, bs);
      assert forall i :: 0 <= i < |bs[1..]| ==> bs[1..][i] == bs[i + 1];
      FindElsewhere(h, bs[0].entries, k, bs[0].hash);
      FindAppend(bs[0].entries, AllEntries(bs[1..]), k);
      FindNowhere(h, bs[1..], k);
    }
  }

  /** After a push the key has the new value and every other key has the value it had. */
  lemma {:induction false} PushedFind(h: string -> int, bs: seq<Bucket>, k: Value, v: Value, k': Value)
    requires FormedBuckets(h, bs) && Hashable(k) && Hashable(k')
    ensures FindKey(AllEntries(Pushed(bs, HashOf(h, k), k, v)), k')
         == if k' == k then Some(v) else FindKey(AllEntries(bs), k')
    decreases bs
  {
    var hash := HashOf(h, k);
    KeyEqual(k, k');
    if bs == [] {
      assert AllEntries(Pushed(bs, hash, k, v)) == [Entry(k, v)] + [];
    } else {
      var es, rest := bs[0].entries, bs[1..];
      FormedTail(h, bs);
      FindAppend(es, AllEntries(rest), k');
      if bs[0].hash == hash {
        var stored := Stored(es, k, v);
        StoredFind(es, k, v, k');
        FindAppend(stored, AllEntries(rest), k');
        assert Pushed(bs, hash, k, v)[1..] == rest;
      } else {
        PushedFind(h, rest, k, v, k');
        FindElsewhere(h, es, k, bs[0].hash);
        FindAppend(es, AllEntries(Pushed(rest, hash, k, v)), k');
        assert Pushed(bs, hash, k, v)[1..] == Pushed(rest, hash, k, v);
      }
    }
  }

  predicate UsesHash(bs: seq<Bucket>, hash: int) {
    exists i :: 0 <= i < |bs| && bs[i].hash == hash
  }

  lemma {:induction false} PushedHashes(bs: seq<Bucket>, hash: int, k: Value, v: Value, n: int)
    ensures UsesHash(Pushed(bs, hash, k, v), n) <==> UsesHash(bs, n) || n == hash
    decreases bs
  {
    var pushed := Pushed(bs, hash, k, v);
    if bs == [] {
      assert pushed[0].hash == hash;
    } else {
      ConsHash(bs[0], bs[1..], n);
      assert bs == [bs[0]] + bs[1..];
      if bs[0].hash == hash {
        ConsHash(pushed[0], bs[1..], n);
      } else {
        PushedHashes(bs[1..], hash, k, v, n);
        ConsHash(bs[0], Pushed(bs[1..], hash, k, v), n);
      }
    }
  }

  lemma ConsHash(b: Bucket, bs: seq<Bucket>, n: int)
    ensures UsesHash([b] + bs, n) <==> b.hash == n || UsesHash(bs, n)
  {
    if b.hash == n {
      assert ([b] + bs)[0].hash == n;
    }
    if UsesHash(bs, n) {
      var i :| 0 <= i < |bs| && bs[i].hash == n;
      assert ([b] + bs)[i + 1].hash == n;
    }
  }

  lemma ConsFormed(h: string -> int, b: Bucket, bs: seq<Bucket>)
    requires FormedBucket(h, b) && FormedBuckets(h, bs) && !UsesHash(bs, b.hash)
    ensures FormedBuckets(h, [b] + bs)
  {
    var all := [b] + bs;
    assert forall i :: 0 < i < |all| ==> all[i] == bs[i - 1];
  }

  /** A push keeps a dictionary well formed: this is where the assumptions of equality come from. */
  lemma {:induction false} PushedFormed(h: string -> int, bs: seq<Bucket>, k: Value, v: Value)
    requires FormedBuckets(h, bs) && Hashable(k) && Formed(h, v)
    ensures FormedBuckets(h, Pushed(bs, HashOf(h, k), k, v))
    decreases bs
  {
    var hash := HashOf(h, k);
    if bs == [] {
      var pushed := Pushed(bs, hash, k, v);
      assert FormedBucket(h, pushed[0]);
    } else {
      FormedTail(h, bs);
      HeadUnique(h, bs);
      if bs[0].hash == hash {
        StoredFormed(h, bs[0].entries, hash, k, v);
        ConsFormed(h, Bucket(hash, Stored(bs[0].entries, k, v)), bs[1..]);
      } else {
        PushedFormed(h, bs[1..], k, v);
        PushedHashes(bs[1..], hash, k, v, bs[0].hash);
        ConsFormed(h, bs[0], Pushed(bs[1..], hash, k, v));
      }
    }
  }

  lemma HeadUnique(h: string -> int, bs: seq<Bucket>)
    requires FormedBuckets(h, bs) && bs != []
    ensures !UsesHash(bs[1..], bs[0].hash)
  {
    forall i | 0 <= i < |bs[1..]| ensures bs[1..][i].hash != bs[0].hash {
      assert bs[1..][i] == bs[i + 1];
    }
  }

  lemma {:induction false} StoredFormed(h: string -> int, es: seq<Entry>, hash: int, k: Value, v: Value)
    requires KeysDiffer(es) && Hashable(k) && HashOf(h, k) == hash && Formed(h, v)
    requires forall i :: 0 <= i < |es| ==> Hashable(es[i].key) && HashOf(h, es[i].key) == hash && Formed(h, es[i].val)
    ensures FormedBucket(h, Bucket(hash, Stored(es, k, v)))
    ensures forall i :: 0 <= i < |Stored(es, k, v)| ==>
              Stored(es, k, v)[i].key == k || exists j :: 0 <= j < |es| && es[j].key == Stored(es, k, v)[i].key
    decreases es
  {
    if es != [] {
      KeyEqual(es[0].key, k);
      var rest := es[1..];
      assert forall i :: 0 <= i < |rest| ==> rest[i] == es[i + 1];
      StoredFormed(h, rest, hash, k, v);
      var stored := Stored(es, k, v);
      if es[0].key == k {
        assert forall i :: 0 < i < |stored| ==> stored[i] == es[i];
      } else {
        var tail := Stored(rest, k, v);
        assert forall i :: 0 < i < |stored| ==> stored[i] == tail[i - 1];
        assert stored[0] == es[0];
      }
    }
  }
}
