/** Unpacking a list into variables, one of which may take the rest (`subsc_rest` in
    bytecode/opcode.cpp, reached from SUBSCREST and from FOR_MULTI). */
module Unpack {
  import opened Values

  /** One store into the register pool. */
  datatype Store = Store(reg: nat, val: Value)

  /** `Interpreter::store`. */
  function Put(pool: map<nat, Value>, w: Store): map<nat, Value> {
    pool[w.reg := w.val]
  }

  function StoreAll(pool: map<nat, Value>, ws: seq<Store>): map<nat, Value>
    decreases |ws|
  {
    if ws == [] then pool
    else
      Put(StoreAll(pool, ws[..|ws| - 1]), ws[|ws| - 1])
  }

  /** Enough values; the variable for the rest may take none. */
  predicate Enough(vars: seq<nat>, values: seq<Value>, rest: int) {
    |vars| - (if rest >= 0 then 1 else 0) <= |values|
  }

  function Prefix(vars: seq<nat>, values: seq<Value>, n: nat): (ws: seq<Store>)
    requires n <= |vars| && n <= |values|
    ensures |ws| == n
  {
    seq(n, i requires 0 <= i < n => Store(vars[i], values[i]))
  }

  /** The variables after the rest, from the back. */
  function Suffix(vars: seq<nat>, values: seq<Value>, n: nat): (ws: seq<Store>)
    requires n <= |vars| && n <= |values|
    ensures |ws| == n
  {
    seq(n, b requires 0 <= b < n => Store(vars[|vars| - 1 - b], values[|values| - 1 - b]))
  }

  /** The stores in the order in which they are made; `rest` is -1 without a rest variable. */
  function Writes(vars: seq<nat>, values: seq<Value>, rest: int): (ws: seq<Store>)
    requires -1 <= rest < |vars| && Enough(vars, values, rest)
    ensures |ws| == |vars|
  {
    if rest < 0 then Prefix(vars, values, |vars|)
    else
      var back := |vars| - 1 - rest;
      Prefix(vars, values, rest) + Suffix(vars, values, back) + [RestStore(vars, values, rest)]
  }

  /** The values that are left, for the rest variable. */
  function RestStore(vars: seq<nat>, values: seq<Value>, rest: int): Store
    requires 0 <= rest < |vars| && Enough(vars, values, rest)
  {
    Store(vars[rest], ListVal(values[rest..|values| - (|vars| - 1 - rest)]))
  }

  class Pool {
    var regs: map<nat, Value>

    /** The loop over the first `n` variables. */
    method StoreFront(vars: seq<nat>, values: seq<Value>, n: nat)
      requires n <= |vars| && n <= |values|
      modifies this
      ensures regs == StoreAll(old(regs), Prefix(vars, values, n))
    {
      ghost var ws := Prefix(vars, values, n);
      assert ws[..0] == [] && ws[..n] == ws;
      hide Prefix, Put;
      for i := 0 to n
        invariant regs == StoreAll(old(regs), ws[..i])
      {
        PrefixAt(vars, values, n, i);
        StoreNext(old(regs), ws, i);
        regs := Put(regs, Store(vars[i], values[i]));
      }
    }

    /** The loop over the variables behind `rest`, from the back. */
    method StoreBack(vars: seq<nat>, values: seq<Value>, rest: nat) returns (backIter: nat)
      requires rest < |vars| && |vars| - 1 - rest <= |values|
      modifies this
      ensures backIter == |vars| - 1 - rest
      ensures regs == StoreAll(old(regs), Suffix(vars, values, backIter))
    {
      ghost var ws := Suffix(vars, values, |vars| - 1 - rest);
      assert ws[..0] == [] && ws[..|ws|] == ws;
      hide Suffix, Put;
      backIter := 0;
      var j := |vars| - 1;
      while j > rest
        invariant rest <= j && backIter == |vars| - 1 - j && regs == StoreAll(old(regs), ws[..backIter])
      {
        SuffixAt(vars, values, |vars| - 1 - rest, j);
        StoreNext(old(regs), ws, backIter);
        regs := Put(regs, Store(vars[j], values[|values| - backIter - 1]));
        j, backIter := j - 1, backIter + 1;
      }
    }

    /** `subsc_rest`: false when there are too few values. */
    method SubscRest(vars: seq<nat>, values: seq<Value>, rest: int) returns (ok: bool)
      requires -1 <= rest < |vars|
      modifies this
      ensures ok <==> Enough(vars, values, rest)
      ensures regs == if ok then StoreAll(old(regs), Writes(vars, values, rest)) else old(regs)
    {
      if !(|vars| - (if rest >= 0 then 1 else 0) <= |values|) {
        return false;
      }
      ok := true;
      if rest < 0 {
        StoreFront(vars, values, |vars|);
      } else {
        StoreRest(vars, values, rest);
      }
    }

    /** The branch with a rest variable. */
    method StoreRest(vars: seq<nat>, values: seq<Value>, rest: nat)
      requires rest < |vars| && Enough(vars, values, rest)
      modifies this
      ensures regs == StoreAll(old(regs), Writes(vars, values, rest))
    {
      hide *;
      RestStoreIs(vars, values, rest);
      StoreThree(regs, vars, values, rest);
      StoreFront(vars, values, rest);
      var backIter := StoreBack(vars, values, rest);
      regs := Put(regs, Store(vars[rest], ListVal(values[rest..|values| - backIter])));
    }
  }

  lemma {:induction false} RestStoreIs(vars: seq<nat>, values: seq<Value>, rest: int)
    requires 0 <= rest < |vars| && Enough(vars, values, rest)
    ensures rest <= |values| - (|vars| - 1 - rest) <= |values|
    ensures RestStore(vars, values, rest) == Store(vars[rest], ListVal(values[rest..|values| - (|vars| - 1 - rest)]))
  {}

  /** The three groups of stores, one after another. */
  lemma {:induction false} StoreThree(pool: map<nat, Value>, vars: seq<nat>, values: seq<Value>, rest: int)
    requires 0 <= rest < |vars| && Enough(vars, values, rest)
    ensures var last := RestStore(vars, values, rest);
            var stored := StoreAll(StoreAll(pool, Prefix(vars, values, rest)), Suffix(vars, values, |vars| - 1 - rest));
            StoreAll(pool, Writes(vars, values, rest)) == Put(stored, last)
  {
    WriteParts(vars, values, rest);
    var front, tail := Prefix(vars, values, rest), Suffix(vars, values, |vars| - 1 - rest);
    var last := RestStore(vars, values, rest);
    hide *;
    StoreBoth(pool, front, tail);
    StoreOne(StoreAll(pool, front + tail), last);
    StoreBoth(pool, front + tail, [last]);
  }

  lemma {:induction false} StoreBoth(pool: map<nat, Value>, a: seq<Store>, b: seq<Store>)
    ensures StoreAll(pool, a + b) == StoreAll(StoreAll(pool, a), b)
    decreases |b|
  {
    if b == [] {
      assert a + b == a;
    } else {
      var n := |b| - 1;
      StoreBoth(pool, a, b[..n]);
      assert (a + b)[..|a| + n] == a + b[..n];
    }
  }

  lemma {:induction false} StoreOne(pool: map<nat, Value>, w: Store)
    ensures StoreAll(pool, [w]) == Put(pool, w)
  {
    assert [w][..0] == [];
  }

  lemma {:induction false} StoreNext(pool: map<nat, Value>, ws: seq<Store>, n: nat)
    requires n < |ws|
    ensures StoreAll(pool, ws[..n + 1]) == Put(StoreAll(pool, ws[..n]), ws[n])
  {
    assert ws[..n + 1][..n] == ws[..n];
  }

  // ----- nothing is lost, nothing is taken twice -----

  predicate Distinct(vars: seq<nat>) {
    forall i, j :: 0 <= i < j < |vars| ==> vars[i] != vars[j]
  }

  predicate DistinctStores(ws: seq<Store>) {
    forall i, j :: 0 <= i < j < |ws| ==> ws[i].reg != ws[j].reg
  }

  lemma {:induction false} StoredAt(pool: map<nat, Value>, ws: seq<Store>, i: nat)
    requires DistinctStores(ws) && i < |ws|
    ensures ws[i].reg in StoreAll(pool, ws) && StoreAll(pool, ws)[ws[i].reg] == ws[i].val
    decreases |ws|
  {
    var n := |ws| - 1;
    if i < n {
      assert ws[i].reg != ws[n].reg;
      StoredAt(pool, ws[..n], i);
    }
  }

  /** A register that no store names keeps its value. */
  lemma {:induction false} StoredElsewhere(pool: map<nat, Value>, ws: seq<Store>, r: nat)
    requires forall i :: 0 <= i < |ws| ==> ws[i].reg != r
    ensures (r in StoreAll(pool, ws) <==> r in pool) && (r in pool ==> StoreAll(pool, ws)[r] == pool[r])
    decreases |ws|
  {
    if ws != [] {
      StoredElsewhere(pool, ws[..|ws| - 1], r);
    }
  }

  /** Where the store of variable `k` is. */
  function StoreOf(vars: seq<nat>, rest: int, k: nat): nat
    requires -1 <= rest < |vars| && k < |vars|
  {
    if rest < 0 || k < rest then k else if k == rest then |vars| - 1 else rest + (|vars| - 1 - k)
  }

  /** What variable `k` is due. */
  function Due(vars: seq<nat>, values: seq<Value>, rest: int, k: nat): Value
    requires -1 <= rest < |vars| && Enough(vars, values, rest) && k < |vars|
  {
    if rest < 0 || k < rest then values[k]
    else if k == rest then ListVal(values[rest..|values| - (|vars| - 1 - rest)])
    else values[|values| - |vars| + k]
  }

  lemma {:induction false} WriteOf(vars: seq<nat>, values: seq<Value>, rest: int, k: nat)
    requires -1 <= rest < |vars| && Enough(vars, values, rest) && k < |vars|
    ensures Writes(vars, values, rest)[StoreOf(vars, rest, k)] == Store(vars[k], Due(vars, values, rest, k))
  {
    hide Writes, RestStore;
    if rest < 0 {
      WriteWithoutRest(vars, values, k);
    } else if k < rest {
      WriteBefore(vars, values, rest, k);
    } else if k == rest {
      WriteRest(vars, values, rest);
    } else {
      WriteAfter(vars, values, rest, k);
    }
  }

  lemma {:induction false} WriteWithoutRest(vars: seq<nat>, values: seq<Value>, k: nat)
    requires k < |vars| <= |values|
    ensures Writes(vars, values, -1)[k] == Store(vars[k], values[k])
  {}

  lemma {:induction false} WriteParts(vars: seq<nat>, values: seq<Value>, rest: int)
    requires 0 <= rest < |vars| && Enough(vars, values, rest)
    ensures Writes(vars, values, rest)
         == Prefix(vars, values, rest) + Suffix(vars, values, |vars| - 1 - rest) + [RestStore(vars, values, rest)]
  {
    hide RestStore, Prefix, Suffix;
  }

  lemma {:induction false} WriteBefore(vars: seq<nat>, values: seq<Value>, rest: int, k: nat)
    requires 0 <= k < rest < |vars| && Enough(vars, values, rest)
    ensures Writes(vars, values, rest)[k] == Store(vars[k], values[k])
  {
    WriteParts(vars, values, rest);
    hide RestStore, Writes, Prefix, Suffix;
    PrefixAt(vars, values, rest, k);
    InFront(Prefix(vars, values, rest), Suffix(vars, values, |vars| - 1 - rest), [RestStore(vars, values, rest)], k);
  }

  lemma {:induction false} WriteRest(vars: seq<nat>, values: seq<Value>, rest: int)
    requires 0 <= rest < |vars| && Enough(vars, values, rest)
    ensures Writes(vars, values, rest)[|vars| - 1] == RestStore(vars, values, rest)
    ensures RestStore(vars, values, rest) == Store(vars[rest], Due(vars, values, rest, rest))
  {
    WriteParts(vars, values, rest);
    hide Writes, Prefix, Suffix;
    InLast(Prefix(vars, values, rest), Suffix(vars, values, |vars| - 1 - rest), [RestStore(vars, values, rest)], |vars| - 1);
  }

  lemma {:induction false} WriteAfter(vars: seq<nat>, values: seq<Value>, rest: int, k: nat)
    requires 0 <= rest < k < |vars| && Enough(vars, values, rest)
    ensures Writes(vars, values, rest)[rest + (|vars| - 1 - k)] == Store(vars[k], values[|values| - |vars| + k])
  {
    WriteParts(vars, values, rest);
    hide *;
    var b := |vars| - 1 - k;
    InTail(Prefix(vars, values, rest), Suffix(vars, values, |vars| - 1 - rest), [RestStore(vars, values, rest)], rest + b);
    SuffixAt(vars, values, |vars| - 1 - rest, k);
  }

  lemma {:induction false} PrefixAt(vars: seq<nat>, values: seq<Value>, n: nat, i: nat)
    requires n <= |vars| && n <= |values| && i < n
    ensures Prefix(vars, values, n)[i] == Store(vars[i], values[i])
  {}

  lemma {:induction false} SuffixAt(vars: seq<nat>, values: seq<Value>, n: nat, k: nat)
    requires n <= |vars| && n <= |values| && |vars| - n <= k < |vars|
    ensures Suffix(vars, values, n)[|vars| - 1 - k] == Store(vars[k], values[|values| - |vars| + k])
  {}

  lemma {:induction false} InFront(x: seq<Store>, y: seq<Store>, z: seq<Store>, i: nat)
    requires i < |x|
    ensures (x + y + z)[i] == x[i]
  {}

  lemma {:induction false} InTail(x: seq<Store>, y: seq<Store>, z: seq<Store>, i: nat)
    requires |x| <= i < |x| + |y|
    ensures (x + y + z)[i] == y[i - |x|]
  {}

  lemma {:induction false} InLast(x: seq<Store>, y: seq<Store>, z: seq<Store>, i: nat)
    requires |x| + |y| <= i < |x| + |y| + |z|
    ensures (x + y + z)[i] == z[i - |x| - |y|]
  {}

  lemma {:induction false} WritesDistinct(vars: seq<nat>, values: seq<Value>, rest: int)
    requires -1 <= rest < |vars| && Enough(vars, values, rest) && Distinct(vars)
    ensures DistinctStores(Writes(vars, values, rest))
  {
    var ws := Writes(vars, values, rest);
    forall i, j | 0 <= i < j < |ws| ensures ws[i].reg != ws[j].reg {
      var k, l := VarOf(vars, rest, i), VarOf(vars, rest, j);
      WriteOf(vars, values, rest, k);
      WriteOf(vars, values, rest, l);
    }
  }

  /** The variable of store `i`. */
  function VarOf(vars: seq<nat>, rest: int, i: nat): (k: nat)
    requires -1 <= rest < |vars| && i < |vars|
    ensures k < |vars| && StoreOf(vars, rest, k) == i
  {
    if rest < 0 || i < rest then i else if i == |vars| - 1 then rest else |vars| - 1 - (i - rest)
  }

  /** What variables `k` and on hold, the rest variable for all its values. */
  function Held(pool: map<nat, Value>, vars: seq<nat>, rest: int, k: nat): seq<Value>
    requires k <= |vars| && forall i :: 0 <= i < |vars| ==> vars[i] in pool
    decreases |vars| - k
  {
    if k == |vars| then []
    else (if k == rest && pool[vars[k]].ListVal? then pool[vars[k]].vals else [pool[vars[k]]]) + Held(pool, vars, rest, k + 1)
  }

  /** Every variable holds what it is due. */
  predicate Filled(pool: map<nat, Value>, vars: seq<nat>, values: seq<Value>, rest: int)
    requires -1 <= rest < |vars| && Enough(vars, values, rest)
  {
    forall i :: 0 <= i < |vars| ==> vars[i] in pool && pool[vars[i]] == Due(vars, values, rest, i)
  }

  /** The values due to variables `k` and on. */
  function DueFrom(vars: seq<nat>, values: seq<Value>, rest: int, k: nat): seq<Value>
    requires -1 <= rest < |vars| && Enough(vars, values, rest) && k <= |vars|
  {
    values[if rest < 0 || k <= rest then k else |values| - |vars| + k..if rest < 0 then |vars| else |values|]
  }

  lemma {:induction false} DueStep(vars: seq<nat>, values: seq<Value>, rest: int, k: nat)
    requires -1 <= rest < |vars| && Enough(vars, values, rest) && k < |vars|
    ensures var v := Due(vars, values, rest, k);
            && (k == rest ==> v.ListVal? && DueFrom(vars, values, rest, k) == v.vals + DueFrom(vars, values, rest, k + 1))
            && (k != rest ==> DueFrom(vars, values, rest, k) == [v] + DueFrom(vars, values, rest, k + 1))
  {
    if rest < 0 {
      FirstOf(values, k, |vars|);
    } else if k == rest {
      CutAt(values, k, |values| - |vars| + k + 1, |values|);
    } else {
      FirstOf(values, if k < rest then k else |values| - |vars| + k, |values|);
    }
  }

  lemma {:induction false} FirstOf(values: seq<Value>, k: nat, n: nat)
    requires k < n <= |values|
    ensures [values[k]] + values[k + 1..n] == values[k..n]
  {}

  lemma {:induction false} CutAt(values: seq<Value>, k: nat, m: nat, n: nat)
    requires k <= m <= n <= |values|
    ensures values[k..m] + values[m..n] == values[k..n]
  {}

  lemma {:induction false} FilledAt(pool: map<nat, Value>, vars: seq<nat>, values: seq<Value>, rest: int)
    requires -1 <= rest < |vars| && Enough(vars, values, rest) && Filled(pool, vars, values, rest)
    ensures forall i :: 0 <= i < |vars| ==> vars[i] in pool && pool[vars[i]] == Due(vars, values, rest, i)
    ensures DueFrom(vars, values, rest, |vars|) == []
  {}

  lemma {:induction false} HeldFrom(pool: map<nat, Value>, vars: seq<nat>, values: seq<Value>, rest: int, k: nat)
    requires -1 <= rest < |vars| && Enough(vars, values, rest) && k <= |vars| && Filled(pool, vars, values, rest)
    ensures (forall i :: 0 <= i < |vars| ==> vars[i] in pool) && Held(pool, vars, rest, k) == DueFrom(vars, values, rest, k)
    decreases |vars| - k
  {
    hide Held, Due, DueFrom, Filled, Enough;
    FilledAt(pool, vars, values, rest);
    if k == |vars| {
      HeldNothing(pool, vars, rest);
    } else {
      HeldFrom(pool, vars, values, rest, k + 1);
      DueStep(vars, values, rest, k);
      HeldStep(pool, vars, rest, k);
    }
  }

  lemma {:induction false} HeldNothing(pool: map<nat, Value>, vars: seq<nat>, rest: int)
    requires forall i :: 0 <= i < |vars| ==> vars[i] in pool
    ensures Held(pool, vars, rest, |vars|) == []
  {}

  lemma {:induction false} HeldStep(pool: map<nat, Value>, vars: seq<nat>, rest: int, k: nat)
    requires k < |vars| && forall i :: 0 <= i < |vars| ==> vars[i] in pool
    ensures k == rest && pool[vars[k]].ListVal? ==> Held(pool, vars, rest, k) == pool[vars[k]].vals + Held(pool, vars, rest, k + 1)
    ensures k != rest ==> Held(pool, vars, rest, k) == [pool[vars[k]]] + Held(pool, vars, rest, k + 1)
  {}

  /** With distinct registers and enough values every variable holds what it is due, and the variables in
      order hold exactly the values of the list, except that without a rest variable the values past the
      last variable are dropped. */
  lemma {:induction false} UnpackConserves(pool: map<nat, Value>, vars: seq<nat>, values: seq<Value>, rest: int)
    requires -1 <= rest < |vars| && Distinct(vars) && Enough(vars, values, rest)
    ensures var pool' := StoreAll(pool, Writes(vars, values, rest));
            && Filled(pool', vars, values, rest)
            && (Held(pool', vars, rest, 0) == values <==> rest >= 0 || |vars| == |values|)
            && forall r :: r !in vars && r in pool ==> r in pool' && pool'[r] == pool[r]
  {
    var ws := Writes(vars, values, rest);
    var pool' := StoreAll(pool, ws);
    WritesDistinct(vars, values, rest);
    hide Writes, StoreAll, Due, Held, StoreOf;
    forall i | 0 <= i < |vars| ensures vars[i] in pool' && pool'[vars[i]] == Due(vars, values, rest, i) {
      WriteOf(vars, values, rest, i);
      StoreInRange(vars, rest, i);
      StoredAt(pool, ws, StoreOf(vars, rest, i));
    }
    HeldFrom(pool', vars, values, rest, 0);
    assert values[0..] == values;
    forall r | r !in vars && r in pool ensures r in pool' && pool'[r] == pool[r] {
      forall i | 0 <= i < |ws| ensures ws[i].reg != r {
        WriteOf(vars, values, rest, VarOf(vars, rest, i));
      }
      StoredElsewhere(pool, ws, r);
    }
  }

  lemma {:induction false} StoreInRange(vars: seq<nat>, rest: int, k: nat)
    requires -1 <= rest < |vars| && k < |vars|
    ensures StoreOf(vars, rest, k) < |vars|
  {}
}
