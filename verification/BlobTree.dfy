/** The tree of scopes of a bytecode (`BCBlob::parse_bc_impl` in bytecode/bytecode_blob.cpp). */
module BlobTree {

  /** What parsing looks at in an opcode. */
  datatype Op = CreateFun | FunBegin | BuildSpace | BuildClass | PopFrame | Jmp(addr: nat) | Other

  type Code = seq<Op>

  datatype BlobType = BcBlob | FunBlob | SpaceBlob | ClassBlob

  /** A span [start, end) of the code and the spans inside it. */
  datatype Blob = Blob(kind: BlobType, start: nat, end: nat, inner: seq<Blob>)

  predicate Builds(op: Op) {
    op.BuildSpace? || op.BuildClass?
  }

  predicate Opens(op: Op) {
    op.CreateFun? || Builds(op)
  }

  function KindOf(op: Op): BlobType {
    match op
    case CreateFun => FunBlob
    case BuildSpace => SpaceBlob
    case BuildClass => ClassBlob
    case _ => BcBlob
  }

  // ----- where scopes end -----

  /** The first jump from `i` on, or the end of the code. */
  function FirstJmp(code: Code, i: nat): (j: nat)
    requires i <= |code|
    ensures i <= j <= |code| && (j < |code| ==> code[j].Jmp?)
    ensures forall k :: i <= k < j ==> !code[k].Jmp?
    decreases |code| - i
  {
    if i == |code| || code[i].Jmp? then i else FirstJmp(code, i + 1)
  }

  /** The nesting after an opcode. */
  function Nesting(op: Op, n: nat): nat
    requires n > 0
  {
    if op.PopFrame? then n - 1 else if Builds(op) then n + 1 else n
  }

  /** Where `n` open classes and spaces have been closed, or the end of the code. */
  function MatchingPop(code: Code, i: nat, n: nat): (j: nat)
    requires i <= |code| && n > 0
    ensures i <= j <= |code| && (j < |code| ==> code[j].PopFrame?)
    decreases |code| - i
  {
    if i == |code| then i
    else if Nesting(code[i], n) == 0 then i
    else MatchingPop(code, i + 1, Nesting(code[i], n))
  }

  /** Where the parser ends the scope that opens at `i`: at the target of the first jump behind it, or at
      the matching POP_FRAME. */
  function Close(code: Code, i: nat): nat
    requires i < |code|
  {
    if code[i].CreateFun? then
      var j := FirstJmp(code, i);
      if j < |code| then code[j].addr else |code|
    else MatchingPop(code, i + 1, 1)
  }

  /** The scope at `i` closes within a region that ends at `end`; a function's jump goes forward. */
  predicate ClosesBy(code: Code, i: nat, end: nat)
    requires i < |code|
  {
    if code[i].CreateFun? then FirstJmp(code, i) < Close(code, i) <= end
    else Close(code, i) < end
  }

  /** Brackets nest: every scope closes within the region and within the scopes around it. */
  ghost predicate Nests(code: Code, lo: nat, end: nat) {
    && end <= |code|
    && (forall i :: lo <= i < end && Opens(code[i]) ==> ClosesBy(code, i, end))
    && (forall i, k :: lo <= i < k < end && k < Close(code, i) && Opens(code[i]) && Opens(code[k]) ==>
          ClosesBy(code, k, Close(code, i)))
  }

  // ----- the promised tree -----

  /** The indices of the scope-opening opcodes, in order. */
  function Openers(code: Code, lo: nat, hi: nat): seq<nat>
    requires hi <= |code|
    decreases hi - lo
  {
    if lo >= hi then [] else (if Opens(code[lo]) then [lo] else []) + Openers(code, lo + 1, hi)
  }

  /** The first indices of blobs, outer before inner. */
  function Starts(bs: seq<Blob>): seq<nat> {
    if bs == [] then [] else [bs[0].start] + Starts(bs[0].inner) + Starts(bs[1..])
  }

  /** Blobs in order, apart from each other, and inside a region; so are the blobs inside them. */
  predicate Ordered(bs: seq<Blob>, lo: nat, hi: nat) {
    if bs == [] then lo <= hi
    else
      && lo <= bs[0].start < bs[0].end && Ordered(bs[0].inner, bs[0].start + 1, bs[0].end)
      && Ordered(bs[1..], bs[0].end, hi)
  }

  /** Every blob begins at a scope-opening opcode of its kind and ends where the parser ends it. */
  ghost predicate Faithful(code: Code, bs: seq<Blob>) {
    forall i :: 0 <= i < |bs| ==>
      && bs[i].start < |code| && Opens(code[bs[i].start])
      && bs[i].kind == KindOf(code[bs[i].start]) && bs[i].end == Close(code, bs[i].start)
      && Faithful(code, bs[i].inner)
  }

  /** The blobs of a region are the promised ones. */
  ghost predicate Covers(code: Code, bs: seq<Blob>, lo: nat, hi: nat) {
    hi <= |code| && Ordered(bs, lo, hi) && Faithful(code, bs) && Starts(bs) == Openers(code, lo, hi)
  }

  // ----- parsing -----

  /** The whole bytecode. Every blob asserts that it starts inside the code, so there must be some. */
  method ParseBc(code: Code) returns (b: Blob)
    requires code != [] && Nests(code, 0, |code|)
    ensures b.kind == BcBlob && b.start == 0 && b.end == |code|
    ensures Ordered(b.inner, 0, |code|) && Faithful(code, b.inner)
    ensures Starts(b.inner) == Openers(code, 0, |code|)
  {
    b := ParseImpl(code, 0, |code|, BcBlob, true);
  }

  /** Where the scan of a region begins: past the opcode that opens it. */
  function ScanFrom(start: nat, isGlob: bool): nat {
    if isGlob then start else start + 1
  }

  method ParseImpl(code: Code, start: nat, end: nat, kind: BlobType, isGlob: bool) returns (b: Blob)
    requires ScanFrom(start, isGlob) <= end && Nests(code, ScanFrom(start, isGlob), end)
    ensures b.kind == kind && b.start == start && b.end == end
    ensures Covers(code, b.inner, ScanFrom(start, isGlob), end)
    decreases end - ScanFrom(start, isGlob), 2
  {
    var inner := ParseRegion(code, ScanFrom(start, isGlob), end);
    b := Blob(kind, start, end, inner);
  }

  /** The scanning loop. */
  method ParseRegion(code: Code, lo: nat, end: nat) returns (inner: seq<Blob>)
    requires lo <= end && Nests(code, lo, end)
    ensures Covers(code, inner, lo, end)
    decreases end - lo, 1
  {
    assert end <= |code|;
    hide *;
    inner := [];
    var i := lo;
    Empty(code, lo);
    while i < end
      invariant lo <= i <= end
      invariant Covers(code, inner, lo, i)
    {
      if Opens(code[i]) {
        inner, i := ParseScope(code, inner, i, end, lo);
      } else {
        Skip(code, inner, lo, i);
        i := i + 1;
      }
    }
  }

  /** The scope that opens at `s`; scanning goes on at the target of a function's jump, or past the
      POP_FRAME of a class or a space. */
  method ParseScope(code: Code, bs: seq<Blob>, s: nat, end: nat, ghost lo: nat) returns (inner: seq<Blob>, next: nat)
    requires lo <= s < end <= |code| && Nests(code, lo, end) && Opens(code[s]) && Covers(code, bs, lo, s)
    ensures s < next <= end && Covers(code, inner, lo, next) && next == ScanStep(code, s, end)
    decreases end - lo, 0
  {
    NestsAt(code, lo, end, s);
    ScanScope(code, s, end);
    var op := code[s];
    assert op.CreateFun? || Builds(op);
    assert ScanFrom(s, false) == s + 1;
    hide *;
    if op.CreateFun? {
      var i := FindJmp(code, s, end);
      next := code[i].addr;
      var blob := ParseImpl(code, s, next, FunBlob, false);
      Append(code, bs, blob, lo, s, next);
      inner := bs + [blob];
    } else {
      var i := FindPop(code, s, end);
      next := i + 1;
      var blob := ParseImpl(code, s, i, KindOf(op), false);
      Append(code, bs, blob, lo, s, next);
      inner := bs + [blob];
    }
  }

  /** One turn of the scanning loop, in any code: where `i` is after it. A jump's target less one, and then
      one more, is the target also when it is 0 and wraps around. */
  function ScanStep(code: Code, i: nat, end: nat): nat
    requires i < end <= |code|
  {
    if code[i].CreateFun? then
      var j := FirstJmp(code, i);
      if j < end then code[j].addr else end + 1
    else if Builds(code[i]) then Least(MatchingPop(code, i + 1, 1), end) + 1
    else i + 1
  }

  function Least(a: nat, b: nat): nat {
    if a < b then a else b
  }

  lemma {:induction false} ScanScope(code: Code, s: nat, end: nat)
    requires s < end <= |code| && Opens(code[s]) && ClosesBy(code, s, end)
    ensures ScanStep(code, s, end) == if code[s].CreateFun? then Close(code, s) else Close(code, s) + 1
  {}

  /** The loop that looks for the jump over a function's body. */
  method FindJmp(code: Code, s: nat, end: nat) returns (i: nat)
    requires s < end <= |code| && code[s].CreateFun? && ClosesBy(code, s, end)
    ensures s < i < end && code[i].Jmp? && code[i].addr == Close(code, s) && i < Close(code, s) <= end
  {
    i := s;
    while i < end
      invariant s <= i <= FirstJmp(code, s) < end
      decreases end - i
    {
      if code[i].Jmp? {
        break;
      }
      i := i + 1;
    }
  }

  /** The loop that counts the nesting of classes and spaces. */
  method FindPop(code: Code, s: nat, end: nat) returns (i: nat)
    requires s < end <= |code| && Builds(code[s]) && ClosesBy(code, s, end)
    ensures s < i < end && code[i].PopFrame? && i == Close(code, s)
  {
    var nesting := 1;
    i := s + 1;
    while i < end
      invariant s < i <= MatchingPop(code, s + 1, 1) < end
      invariant nesting > 0 && MatchingPop(code, s + 1, 1) == MatchingPop(code, i, nesting)
      decreases end - i
    {
      if code[i].PopFrame? {
        nesting := nesting - 1;
      } else if Builds(code[i]) {
        nesting := nesting + 1;
      }
      if nesting == 0 {
        break;
      }
      i := i + 1;
    }
  }

  // ----- steps of the parser -----

  lemma {:induction false} Empty(code: Code, lo: nat)
    requires lo <= |code|
    ensures Covers(code, [], lo, lo)
  {}

  /** What the nesting says about one opcode, and about the scope it opens. */
  lemma {:induction false} NestsAt(code: Code, lo: nat, end: nat, i: nat)
    requires Nests(code, lo, end) && lo <= i < end
    ensures end <= |code|
    ensures Opens(code[i]) ==> ClosesBy(code, i, end) && i < Close(code, i) && Nests(code, i + 1, Close(code, i))
  {}

  lemma {:induction false} OpenersSplit(code: Code, lo: nat, mid: nat, hi: nat)
    requires lo <= mid <= hi <= |code|
    ensures Openers(code, lo, hi) == Openers(code, lo, mid) + Openers(code, mid, hi)
    decreases mid - lo
  {
    if lo < mid {
      OpenersSplit(code, lo + 1, mid, hi);
    }
  }

  lemma {:induction false} StartsSnoc(bs: seq<Blob>, b: Blob)
    ensures Starts(bs + [b]) == Starts(bs) + ([b.start] + Starts(b.inner))
    decreases |bs|
  {
    if bs == [] {
      assert [b][1..] == [];
    } else {
      assert (bs + [b])[1..] == bs[1..] + [b];
      StartsSnoc(bs[1..], b);
    }
  }

  lemma {:induction false} OrderedSnoc(bs: seq<Blob>, b: Blob, lo: nat, mid: nat, hi: nat)
    requires Ordered(bs, lo, mid) && mid <= b.start < b.end <= hi && Ordered(b.inner, b.start + 1, b.end)
    ensures Ordered(bs + [b], lo, hi)
    decreases |bs|
  {
    if bs == [] {
      assert [b][1..] == [];
    } else {
      assert (bs + [b])[1..] == bs[1..] + [b];
      OrderedSnoc(bs[1..], b, bs[0].end, mid, hi);
    }
  }

  lemma {:induction false} OrderedGrows(bs: seq<Blob>, lo: nat, mid: nat, hi: nat)
    requires Ordered(bs, lo, mid) && mid <= hi
    ensures Ordered(bs, lo, hi)
    decreases |bs|
  {
    if bs != [] {
      OrderedGrows(bs[1..], bs[0].end, mid, hi);
    }
  }

  lemma {:induction false} FaithfulSnoc(code: Code, bs: seq<Blob>, b: Blob)
    requires Faithful(code, bs) && Faithful(code, b.inner)
    requires b.start < |code| && Opens(code[b.start]) && b.kind == KindOf(code[b.start]) && b.end == Close(code, b.start)
    ensures Faithful(code, bs + [b])
  {}

  /** After the scope that opens at `s`, up to `next`. */
  lemma {:induction false} Append(code: Code, bs: seq<Blob>, b: Blob, lo: nat, s: nat, next: nat)
    requires lo <= s < |code| && Opens(code[s]) && b.start == s && b.end == Close(code, s) && s < b.end <= next <= |code|
    requires b.kind == KindOf(code[s])
    requires next == b.end || (next == b.end + 1 && b.end < |code| && code[b.end].PopFrame?)
    requires Covers(code, bs, lo, s) && Covers(code, b.inner, s + 1, b.end)
    ensures Covers(code, bs + [b], lo, next)
  {
    hide Ordered, Faithful, Starts, Close;
    OrderedSnoc(bs, b, lo, s, next);
    FaithfulSnoc(code, bs, b);
    StartsSnoc(bs, b);
    OpenersSplit(code, lo, s, next);
    OpenersSplit(code, s + 1, b.end, next);
    assert Openers(code, s, next) == [s] + Openers(code, s + 1, next);
    if next == b.end + 1 {
      assert Openers(code, b.end, next) == [] by { assert Openers(code, next, next) == []; }
    } else {
      assert Openers(code, b.end, next) == [];
    }
    assert [s] + Openers(code, s + 1, b.end) + [] == [s] + Openers(code, s + 1, b.end);
  }

  lemma {:induction false} Skip(code: Code, bs: seq<Blob>, lo: nat, i: nat)
    requires lo <= i < |code| && !Opens(code[i])
    requires Covers(code, bs, lo, i)
    ensures Covers(code, bs, lo, i + 1)
  {
    OrderedGrows(bs, lo, i, i + 1);
    OpenersSplit(code, lo, i, i + 1);
    assert Openers(code, i + 1, i + 1) == [];
    assert Openers(code, i, i + 1) == [];
  }

  // ----- there is only one such tree -----

  predicate Within(xs: seq<nat>, lo: nat, hi: nat) {
    forall i :: 0 <= i < |xs| ==> lo <= xs[i] < hi
  }

  lemma {:induction false} OpenersWithin(code: Code, lo: nat, hi: nat)
    requires hi <= |code|
    ensures Within(Openers(code, lo, hi), lo, hi)
    decreases hi - lo
  {
    hide Opens, Within;
    if lo < hi {
      OpenersWithin(code, lo + 1, hi);
      WithinMore(Openers(code, lo + 1, hi), lo, hi);
    } else {
      WithinNone(lo, hi);
    }
  }

  lemma {:induction false} WithinMore(xs: seq<nat>, lo: nat, hi: nat)
    requires lo < hi && Within(xs, lo + 1, hi)
    ensures Within([] + xs, lo, hi) && Within([lo] + xs, lo, hi)
  {}

  lemma {:induction false} WithinNone(lo: nat, hi: nat)
    ensures Within([], lo, hi)
  {}

  lemma {:induction false} StartsWithin(bs: seq<Blob>, lo: nat, hi: nat)
    requires Ordered(bs, lo, hi)
    ensures Within(Starts(bs), lo, hi) && lo <= hi
    decreases bs
  {
    if bs != [] {
      StartsWithin(bs[0].inner, bs[0].start + 1, bs[0].end);
      StartsWithin(bs[1..], bs[0].end, hi);
    }
  }

  /** Numbers below `mid` and then numbers from `mid` on: there is one place to cut. */
  lemma {:induction false} OneCut(xs: seq<nat>, n: nat, m: nat, mid: nat)
    requires n <= |xs| && m <= |xs|
    requires forall i :: 0 <= i < |xs| ==> (xs[i] < mid <==> i < n)
    requires forall i :: 0 <= i < |xs| ==> (xs[i] < mid <==> i < m)
    ensures n == m
  {
    var a := if n < |xs| then xs[n] else 0;
    var b := if m < |xs| then xs[m] else 0;
  }

  lemma {:induction false} CutAt(x: seq<nat>, y: seq<nat>, lo: nat, mid: nat, hi: nat)
    requires Within(x, lo, mid) && Within(y, mid, hi)
    ensures forall i :: 0 <= i < |x + y| ==> ((x + y)[i] < mid <==> i < |x|)
  {
    forall i | 0 <= i < |x + y| ensures (x + y)[i] < mid <==> i < |x| {
      if i < |x| {
        assert (x + y)[i] == x[i];
      } else {
        assert (x + y)[i] == y[i - |x|];
      }
    }
  }

  /** Lists that agree, each cut between smaller and larger numbers, agree in both parts. */
  lemma {:induction false} SameCut(x: seq<nat>, y: seq<nat>, u: seq<nat>, v: seq<nat>, lo: nat, mid: nat, hi: nat)
    requires x + y == u + v && Within(x, lo, mid) && Within(u, lo, mid) && Within(y, mid, hi) && Within(v, mid, hi)
    ensures x == u && y == v
  {
    hide Within;
    CutAt(x, y, lo, mid, hi);
    CutAt(u, v, lo, mid, hi);
    OneCut(x + y, |x|, |u|, mid);
    assert x == (x + y)[..|x|] && u == (u + v)[..|u|] && y == (x + y)[|x|..] && v == (u + v)[|u|..];
  }

  /** What the parts of a list of blobs say, before the numbers are compared. */
  lemma {:induction false} OrderedParts(code: Code, bs: seq<Blob>, lo: nat, hi: nat)
    requires Covers(code, bs, lo, hi) && bs != []
    ensures var b := bs[0];
            && hi <= |code| && lo <= b.start < b.end && b.start < |code|
            && Opens(code[b.start]) && b.kind == KindOf(code[b.start]) && b.end == Close(code, b.start)
            && Ordered(b.inner, b.start + 1, b.end) && Ordered(bs[1..], b.end, hi)
            && Faithful(code, b.inner) && Faithful(code, bs[1..])
            && [b.start] + (Starts(b.inner) + Starts(bs[1..])) == Openers(code, lo, hi)
  {
    hide Close;
    var b, more := bs[0], bs[1..];
    assert [b.start] + Starts(b.inner) + Starts(more) == [b.start] + (Starts(b.inner) + Starts(more));
    forall i | 0 <= i < |more|
      ensures more[i].start < |code| && Opens(code[more[i].start]) && more[i].kind == KindOf(code[more[i].start])
              && more[i].end == Close(code, more[i].start) && Faithful(code, more[i].inner)
    {
      assert more[i] == bs[i + 1];
    }
  }

  lemma {:induction false} OpenersStep(code: Code, lo: nat, hi: nat)
    requires hi <= |code|
    ensures lo >= hi ==> Openers(code, lo, hi) == []
    ensures lo < hi && Opens(code[lo]) ==> Openers(code, lo, hi) == [lo] + Openers(code, lo + 1, hi)
    ensures lo < hi && !Opens(code[lo]) ==> Openers(code, lo, hi) == Openers(code, lo + 1, hi)
  {}

  /** The first opener, and those behind it. */
  lemma {:induction false} FirstOpener(code: Code, lo: nat, hi: nat)
    requires hi <= |code| && Openers(code, lo, hi) != []
    ensures var o := Openers(code, lo, hi); lo <= o[0] < hi && o[1..] == Openers(code, o[0] + 1, hi)
    decreases hi - lo
  {
    hide *;
    OpenersStep(code, lo, hi);
    if lo < hi && !Opens(code[lo]) {
      FirstOpener(code, lo + 1, hi);
    }
  }

  /** The parts of a covering: the first blob's inside, and the blobs after it. */
  lemma {:induction false} CoversParts(code: Code, bs: seq<Blob>, lo: nat, hi: nat)
    requires Covers(code, bs, lo, hi) && bs != []
    ensures var b := bs[0];
            && b.start < |code| && Openers(code, lo, hi) != [] && b.start == Openers(code, lo, hi)[0]
            && b.kind == KindOf(code[b.start]) && b.end == Close(code, b.start)
            && Covers(code, b.inner, b.start + 1, b.end) && Covers(code, bs[1..], b.end, hi)
  {
    hide Ordered, Faithful, Starts, Openers, Close, Within;
    OrderedParts(code, bs, lo, hi);
    var b, more := bs[0], bs[1..];
    var x, y := Starts(b.inner), Starts(more);
    assert ([b.start] + (x + y))[0] == b.start && ([b.start] + (x + y))[1..] == x + y;
    FirstOpener(code, lo, hi);
    StartsWithin(b.inner, b.start + 1, b.end);
    StartsWithin(more, b.end, hi);
    OpenersSplit(code, b.start + 1, b.end, hi);
    OpenersWithin(code, b.start + 1, b.end);
    OpenersWithin(code, b.end, hi);
    SameCut(x, y, Openers(code, b.start + 1, b.end), Openers(code, b.end, hi), b.start + 1, b.end, hi);
  }

  lemma {:induction false} CoversNothing(code: Code, bs: seq<Blob>, lo: nat, hi: nat)
    requires Covers(code, bs, lo, hi)
    ensures bs == [] <==> Openers(code, lo, hi) == []
  {}

  /** A region has only one tree that keeps the promises: they say exactly what the parser returns. */
  lemma {:induction false} OneTree(code: Code, bs: seq<Blob>, bs': seq<Blob>, lo: nat, hi: nat)
    requires Covers(code, bs, lo, hi) && Covers(code, bs', lo, hi)
    ensures bs == bs'
    decreases bs
  {
    hide *;
    CoversNothing(code, bs, lo, hi);
    CoversNothing(code, bs', lo, hi);
    if bs != [] {
      CoversParts(code, bs, lo, hi);
      CoversParts(code, bs', lo, hi);
      var b, b' := bs[0], bs'[0];
      OneTree(code, b.inner, b'.inner, b.start + 1, b.end);
      OneTree(code, bs[1..], bs'[1..], b.end, hi);
      assert bs == [b] + bs[1..] && bs' == [b'] + bs'[1..];
    }
  }

  // ----- the parser's end of a function and the function's own -----

  /** Where `n` functions whose head is open have begun, or the end of the code. Heads nest. */
  function MatchingBegin(code: Code, i: nat, n: nat): (j: nat)
    requires i <= |code| && n > 0
    ensures i <= j <= |code| && (j < |code| ==> code[j].FunBegin?)
    decreases |code| - i
  {
    if i == |code| then i
    else if code[i].FunBegin? then if n == 1 then i else MatchingBegin(code, i + 1, n - 1)
    else MatchingBegin(code, i + 1, if code[i].CreateFun? then n + 1 else n)
  }

  /** The FUN_BEGIN of the function created at `i`. */
  function Begin(code: Code, i: nat): (j: nat)
    requires i < |code|
    ensures i < j <= |code| && (j < |code| ==> code[j].FunBegin?)
  {
    MatchingBegin(code, i + 1, 1)
  }

  /** A function as it is emitted: its FUN_BEGIN is followed by a jump over its body. */
  predicate WholeFun(code: Code, i: nat) {
    && i < |code| && code[i].CreateFun?
    && Begin(code, i) + 1 < |code| && code[Begin(code, i) + 1].Jmp?
    && Begin(code, i) + 1 < code[Begin(code, i) + 1].addr
  }

  /** The end of the function's body: where the jump over it leads. */
  function OwnEnd(code: Code, i: nat): nat
    requires WholeFun(code, i)
  {
    code[Begin(code, i) + 1].addr
  }

  /** No jump in the head, that is among annotations, default values and types. */
  predicate PlainHead(code: Code, i: nat)
    requires i < |code|
  {
    forall k :: i < k < Begin(code, i) ==> !code[k].Jmp?
  }

  /** Jumps of the head stay in the head, as those of expressions do. */
  predicate ClosedHead(code: Code, i: nat)
    requires i < |code|
  {
    forall k :: i < k < Begin(code, i) && code[k].Jmp? ==> code[k].addr <= Begin(code, i)
  }

  lemma {:induction false} FirstJmpIs(code: Code, i: nat, j: nat)
    requires i <= j < |code| && code[j].Jmp? && forall k :: i <= k < j ==> !code[k].Jmp?
    ensures FirstJmp(code, i) == j
    decreases j - i
  {
    if i < j {
      FirstJmpIs(code, i + 1, j);
    }
  }

  /** The parser finds the jump over the body exactly when the head has no jump of its own; otherwise the
      scope it finds ends before the body begins. */
  lemma {:induction false} OwnEndExactly(code: Code, i: nat)
    requires WholeFun(code, i)
    ensures FirstJmp(code, i) == Begin(code, i) + 1 <==> PlainHead(code, i)
    ensures PlainHead(code, i) ==> Close(code, i) == OwnEnd(code, i)
    ensures ClosedHead(code, i) ==> (Close(code, i) == OwnEnd(code, i) <==> PlainHead(code, i))
    ensures ClosedHead(code, i) && !PlainHead(code, i) ==> Close(code, i) <= Begin(code, i) < OwnEnd(code, i)
  {
    hide MatchingBegin, FirstJmp;
    if PlainHead(code, i) {
      FirstJmpIs(code, i, Begin(code, i) + 1);
    } else {
      var k :| i < k < Begin(code, i) && code[k].Jmp?;
      assert FirstJmp(code, i) <= k;
    }
  }

  /** The blobs of functions, and those inside, end where the functions end. */
  ghost predicate EndsOwn(code: Code, bs: seq<Blob>) {
    forall i :: 0 <= i < |bs| ==>
      && (bs[i].kind.FunBlob? && WholeFun(code, bs[i].start) ==> bs[i].end == OwnEnd(code, bs[i].start))
      && EndsOwn(code, bs[i].inner)
  }

  ghost predicate PlainHeads(code: Code) {
    forall i :: 0 <= i < |code| && WholeFun(code, i) ==> PlainHead(code, i)
  }

  /** With plain heads everywhere the tree shows every function as it is. */
  lemma {:induction false} TreeEndsOwn(code: Code, bs: seq<Blob>)
    requires Faithful(code, bs) && PlainHeads(code)
    ensures EndsOwn(code, bs)
    decreases bs
  {
    hide Close, Begin, PlainHead;
    forall i | 0 <= i < |bs|
      ensures bs[i].kind.FunBlob? && WholeFun(code, bs[i].start) ==> bs[i].end == OwnEnd(code, bs[i].start)
      ensures EndsOwn(code, bs[i].inner)
    {
      TreeEndsOwn(code, bs[i].inner);
      if WholeFun(code, bs[i].start) {
        OwnEndExactly(code, bs[i].start);
      }
    }
  }

  /** A conditional as a default value: the function ends at 9, its blob at 4, before its body begins. */
  lemma {:induction false} EarlyEnd() returns (code: Code)
    ensures code == [CreateFun, Other, Jmp(4), Other, Other, FunBegin, Jmp(9), Other, Other]
    ensures Nests(code, 0, |code|) && WholeFun(code, 0) && OwnEnd(code, 0) == 9
    ensures forall bs: seq<Blob> :: Covers(code, bs, 0, |code|) ==> bs == [Blob(FunBlob, 0, 4, [])]
  {
    hide Covers, Nests, Openers, MatchingPop, MatchingBegin, FirstJmp;
    code := [CreateFun, Other, Jmp(4), Other, Other, FunBegin, Jmp(9), Other, Other];
    FirstJmpIs(code, 0, 2);
    BeginIs(code, 1, 5);
    OneNests(code);
    forall bs: seq<Blob> | Covers(code, bs, 0, |code|) ensures bs == [Blob(FunBlob, 0, 4, [])] {
      OneFun(code, bs);
    }
  }

  lemma {:induction false} BeginIs(code: Code, i: nat, j: nat)
    requires i <= j < |code| && code[j].FunBegin? && forall k :: i <= k < j ==> !code[k].FunBegin? && !code[k].CreateFun?
    ensures MatchingBegin(code, i, 1) == j
    decreases j - i
  {
    if i < j {
      BeginIs(code, i + 1, j);
    }
  }

  lemma {:induction false} OneNests(code: Code)
    requires code != [] && forall i :: 1 <= i < |code| ==> !Opens(code[i])
    requires ClosesBy(code, 0, |code|)
    ensures Nests(code, 0, |code|)
  {
    hide Close;
  }

  /** Code that is one function: its tree is one blob. */
  lemma {:induction false} OneFun(code: Code, bs: seq<Blob>)
    requires code != [] && code[0].CreateFun? && forall i :: 1 <= i < |code| ==> !Opens(code[i])
    requires Covers(code, bs, 0, |code|)
    ensures bs == [Blob(FunBlob, 0, Close(code, 0), [])]
  {
    hide Covers, Close, Openers;
    var n, c := |code|, Close(code, 0);
    OpenersStep(code, 0, n);
    NoOpeners(code, 1, n);
    CoversNothing(code, bs, 0, n);
    CoversParts(code, bs, 0, n);
    CoversEnds(code, bs[0].inner, 1, c);
    CoversEnds(code, bs[1..], c, n);
    NoOpeners(code, 1, c);
    NoOpeners(code, c, n);
    CoversNothing(code, bs[0].inner, 1, c);
    CoversNothing(code, bs[1..], c, n);
    assert bs == [bs[0]] + bs[1..];
  }

  lemma {:induction false} CoversEnds(code: Code, bs: seq<Blob>, lo: nat, hi: nat)
    requires Covers(code, bs, lo, hi)
    ensures lo <= hi <= |code|
  {
    hide Faithful, Starts, Openers;
    StartsWithin(bs, lo, hi);
  }

  lemma {:induction false} NoOpeners(code: Code, lo: nat, hi: nat)
    requires lo <= hi <= |code| && forall i :: lo <= i < hi ==> !Opens(code[i])
    ensures Openers(code, lo, hi) == []
    decreases hi - lo
  {
    if lo < hi {
      NoOpeners(code, lo + 1, hi);
    }
  }

  /** A function in a head shares its end with the function around it, whose own end is further on. */
  lemma {:induction false} SharedEnd(code: Code, i: nat, k: nat)
    requires WholeFun(code, i) && ClosedHead(code, i) && i < k < Begin(code, i) && WholeFun(code, k)
    requires Begin(code, k) + 1 < Begin(code, i)
    requires forall m :: i <= m <= k ==> !code[m].Jmp?
    ensures Close(code, i) == Close(code, k) < OwnEnd(code, i)
  {
    hide MatchingBegin, FirstJmp;
    assert code[Begin(code, k) + 1].Jmp?;
    OwnEndExactly(code, i);
    FirstJmpFrom(code, i, k);
  }

  lemma {:induction false} BeginStep(code: Code, i: nat, n: nat)
    requires i < |code| && n > 0
    ensures MatchingBegin(code, i, n) ==
            if code[i].FunBegin? && n == 1 then i
            else MatchingBegin(code, i + 1, if code[i].FunBegin? then n - 1 else if code[i].CreateFun? then n + 1 else n)
  {}

  /** Such a pair of functions: the inner one ends at 4, the outer one at 7, and both blobs at 4. */
  lemma {:induction false} NestedHead() returns (code: Code)
    ensures code == [CreateFun, CreateFun, FunBegin, Jmp(4), FunBegin, Jmp(7), Other]
    ensures WholeFun(code, 0) && OwnEnd(code, 0) == 7 && WholeFun(code, 1) && OwnEnd(code, 1) == 4
    ensures Close(code, 0) == Close(code, 1) == 4
  {
    code := [CreateFun, CreateFun, FunBegin, Jmp(4), FunBegin, Jmp(7), Other];
    hide MatchingBegin, FirstJmp;
    BeginStep(code, 1, 1);
    BeginStep(code, 2, 2);
    BeginStep(code, 3, 1);
    BeginStep(code, 4, 1);
    BeginStep(code, 2, 1);
    FirstJmpIs(code, 0, 3);
    FirstJmpIs(code, 1, 3);
  }

  lemma {:induction false} FirstJmpFrom(code: Code, i: nat, k: nat)
    requires i <= k <= |code| && forall m :: i <= m < k ==> !code[m].Jmp?
    ensures FirstJmp(code, i) == FirstJmp(code, k)
    decreases k - i
  {
    if i < k {
      FirstJmpFrom(code, i + 1, k);
    }
  }

  // ----- the three kinds of scopes -----

  /** A class holding a function that holds a space. */
  const THREE_KINDS: Code := [Other, BuildClass, CreateFun, FunBegin, Jmp(8), BuildSpace, Other, PopFrame, PopFrame, Other]

  lemma {:induction false} PopStep(code: Code, i: nat, n: nat)
    requires i < |code| && n > 0
    ensures MatchingPop(code, i, n) == if Nesting(code[i], n) == 0 then i else MatchingPop(code, i + 1, Nesting(code[i], n))
  {}

  lemma {:induction false} ThreeEnds()
    ensures var code := THREE_KINDS;
            Close(code, 1) == 8 && Close(code, 2) == 8 && Close(code, 5) == 7 && FirstJmp(code, 2) == 4
  {
    hide MatchingPop, FirstJmp;
    var code := THREE_KINDS;
    FirstJmpIs(code, 2, 4);
    PopStep(code, 6, 1);
    PopStep(code, 7, 1);
    PopStep(code, 2, 1);
    PopStep(code, 3, 1);
    PopStep(code, 4, 1);
    PopStep(code, 5, 1);
    PopStep(code, 6, 2);
    PopStep(code, 7, 2);
    PopStep(code, 8, 1);
  }

  lemma {:induction false} ThreeOpen(i: nat)
    requires i < |THREE_KINDS|
    ensures Opens(THREE_KINDS[i]) <==> i in {1, 2, 5}
  {}

  lemma {:induction false} ThreeNest()
    ensures Nests(THREE_KINDS, 0, 10)
  {
    hide Close, FirstJmp, Opens;
    var code := THREE_KINDS;
    ThreeEnds();
    forall i | 0 <= i < 10 ensures Opens(code[i]) <==> i in {1, 2, 5} {
      ThreeOpen(i);
    }
  }

  lemma {:induction false} ThreeOpeners()
    ensures Openers(THREE_KINDS, 0, 10) == [1, 2, 5]
  {
    hide Openers, Opens;
    var code := THREE_KINDS;
    ThreeOpen(1);
    ThreeOpen(2);
    ThreeOpen(5);
    forall i | 0 <= i < 10 && i !in {1, 2, 5} ensures !Opens(code[i]) {
      ThreeOpen(i);
    }
    OpenersStep(code, 0, 10);
    OpenersStep(code, 1, 10);
    OpenersStep(code, 2, 10);
    OpenersStep(code, 3, 10);
    OpenersStep(code, 4, 10);
    OpenersStep(code, 5, 10);
    NoOpeners(code, 6, 10);
  }

  lemma {:induction false} StartsOne(b: Blob)
    ensures Starts([b]) == [b.start] + Starts(b.inner) && Starts([]) == []
  {
    assert [b][1..] == [];
  }

  lemma {:induction false} OrderedOne(b: Blob, lo: nat, hi: nat)
    ensures Ordered([b], lo, hi) <==> lo <= b.start < b.end <= hi && Ordered(b.inner, b.start + 1, b.end)
    ensures Ordered([], lo, hi) <==> lo <= hi
  {
    assert [b][1..] == [];
  }

  lemma FaithfulNone(code: Code)
    ensures Faithful(code, [])
  {}

  lemma {:induction false} FaithfulOne(code: Code, b: Blob)
    requires b.start < |code| && Opens(code[b.start])
    requires b.kind == KindOf(code[b.start]) && b.end == Close(code, b.start) && Faithful(code, b.inner)
    ensures Faithful(code, [b])
  {}

  /** Its tree has each of them, as what it is and with its end. */
  lemma {:induction false} ThreeKinds(bs: seq<Blob>)
    ensures Nests(THREE_KINDS, 0, |THREE_KINDS|)
    ensures Covers(THREE_KINDS, bs, 0, |THREE_KINDS|) <==>
              bs == [Blob(ClassBlob, 1, 8, [Blob(FunBlob, 2, 8, [Blob(SpaceBlob, 5, 7, [])])])]
  {
    hide Close, Openers, Nests, Starts, Ordered, Faithful;
    var code, space := THREE_KINDS, Blob(SpaceBlob, 5, 7, []);
    var fun := Blob(FunBlob, 2, 8, [space]);
    var cls := Blob(ClassBlob, 1, 8, [fun]);
    ThreeNest();
    ThreeEnds();
    ThreeOpeners();
    StartsOne(space);
    StartsOne(fun);
    StartsOne(cls);
    OrderedOne(space, 3, 8);
    OrderedOne(space, 6, 7);
    OrderedOne(fun, 2, 8);
    OrderedOne(cls, 0, 10);
    FaithfulNone(code);
    FaithfulOne(code, space);
    FaithfulOne(code, fun);
    FaithfulOne(code, cls);
    assert Covers(code, [cls], 0, 10);
    if Covers(code, bs, 0, 10) { OneTree(code, bs, [cls], 0, 10); }
  }

  // ----- code that does not nest -----

  /** Where the scanning loop of a region is after `n` turns; past the end when it is over. */
  function ScanAfter(code: Code, i: nat, end: nat, n: nat): nat
    requires end <= |code|
    decreases n
  {
    if n == 0 || i >= end then i else ScanAfter(code, ScanStep(code, i, end), end, n - 1)
  }

  /** A jump back to the function it follows: the loop never gets past it. */
  lemma {:induction false} BackwardLoops(n: nat)
    ensures ScanAfter([CreateFun, Jmp(0)], 0, 2, n) == 0 && !Nests([CreateFun, Jmp(0)], 0, 2)
    decreases n
  {
    var code := [CreateFun, Jmp(0)];
    FirstJmpIs(code, 0, 1);
    assert Opens(code[0]) && Close(code, 0) == 0;
    assert !ClosesBy(code, 0, 2);
    if n > 0 {
      BackwardLoops(n - 1);
    }
  }
}
