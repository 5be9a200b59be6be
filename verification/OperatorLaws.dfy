/** What the operators of the interpreter (bytecode/opcode.cpp, vm/values.hpp) compute, stated without
    the functions that compute it: division by its remainder law, bitwise operators by single bits,
    orders and searches by positions, subscripts from either end, membership and iteration by places. */
module OperatorLaws {
  import opened Values
  import opened Lists
  import Dictionaries
  import Equality
  import Escapes
  import Text

  // ----- which operands an operator takes -----

  datatype Kind = AnInt | ABool | AString | ANil | AList | ADict

  function KindOf(v: Value): Kind {
    match v
    case Int(_) => AnInt
    case Bool(_) => ABool
    case Str(_) => AString
    case Nil => ANil
    case ListVal(_) => AList
    case Dict(_) => ADict
  }

  const EVERY := {AnInt, ABool, AString, ANil, AList, ADict}
  const KEYS := {AnInt, ABool, AString, ANil}

  /** The kinds of right operand that an operator takes beside a left operand. */
  function Takes(op: BinOp, left: Kind): set<Kind> {
    match op
    case Concat => EVERY
    case Add => if left in {AnInt, AList} then {left} else {}
    case Sub => if left == AnInt then {AnInt} else {}
    case Div => if left == AnInt then {AnInt} else {}
    case Mod => if left == AnInt then {AnInt} else {}
    case Mul => if left in {AnInt, AString, AList} then {AnInt} else {}
    case Eq => EVERY
    case Neq => EVERY
    case Bt => if left in {AnInt, AString} then {left} else {}
    case Lt => if left in {AnInt, AString} then {left} else {}
    case Beq => if left in {AnInt, AString} then {left} else {}
    case Leq => if left in {AnInt, AString} then {left} else {}
    case In => {AList} + (if left == AString then {AString} else {}) + (if left in KEYS then {ADict} else {})
    case And => if left in {AnInt, ABool} then {left} else {}
    case Or => if left in {AnInt, ABool} then {left} else {}
    case Xor => if left in {AnInt, ABool} then {left} else {}
    case Subsc => if left in {AString, AList} then {AnInt} else if left == ADict then KEYS else {}
  }

  /** A type error is raised exactly for operands outside the table. */
  lemma TypeErrorExactly(op: BinOp, a: Value, b: Value)
    ensures Apply(op, a, b) == Err(TypeError) <==> KindOf(b) !in Takes(op, KindOf(a))
  {}

  /** The other exceptions: a zero divisor, a subscript outside a list or string, a key that is not there. */
  lemma OtherErrorsExactly(op: BinOp, a: Value, b: Value)
    ensures Apply(op, a, b) == Err(DivisionByZero) <==> op in {Div, Mod} && a.Int? && b == Int(0)
    ensures Apply(op, a, b) == Err(IndexError) <==>
              && op == Subsc && b.Int?
              && ((a.ListVal? && !(-|a.vals| <= b.i < |a.vals|)) || (a.Str? && b.i != 0 && !(-|a.s| <= b.i < |a.s|)))
    ensures Apply(op, a, b) == Err(KeyError) ==> op == Subsc && a.Dict? && KindOf(b) in KEYS
    ensures Apply(op, a, b).Err? ==> Apply(op, a, b).error in {TypeError, DivisionByZero, IndexError, KeyError}
  {}

  // ----- integers -----

  lemma Arithmetic(a: int, b: int)
    ensures Apply(Add, Int(a), Int(b)) == Ok(Int(a + b))
    ensures Apply(Sub, Int(a + b), Int(b)) == Ok(Int(a))
    ensures Apply(Mul, Int(a), Int(b)) == Ok(Int(a * b))
    ensures ApplyUnary(false, Int(a)) == Ok(Int(0 - a))
  {}

  function Abs(x: int): nat {
    if x < 0 then -x else x
  }

  /** Quotient and remainder of C++: the remainder has the sign of the dividend. */
  predicate Truncated(a: int, b: int, q: int, m: int) {
    && a == b * q + m
    && Abs(m) < Abs(b)
    && (m == 0 || (m < 0 <==> a < 0))
  }

  lemma QuotientUnique(b: int, q: int, m: int, q': int, m': int)
    requires b * q + m == b * q' + m' && Abs(m - m') < Abs(b)
    ensures q == q' && m == m'
  {
    assert b * (q - q') == m' - m && b * (q' - q) == m - m';
    if q > q' { MultipleAtLeast(b, q - q'); }
    if q < q' { MultipleAtLeast(b, q' - q); }
  }

  lemma MultipleAtLeast(b: int, d: int)
    requires d >= 1
    ensures Abs(b * d) >= Abs(b)
  {}

  lemma Signs(y: int, d: int)
    ensures -y * -d == y * d && y * -d == -(y * d) && -y * d == -(y * d)
  {}

  lemma NatDivLaw(x: nat, y: nat)
    requires y > 0
    ensures 0 <= x - y * (x / y) < y
  {}

  lemma TruncDivLaw(a: int, b: int)
    requires b != 0
    ensures Truncated(a, b, TruncDiv(a, b), TruncMod(a, b))
  {
    NatDivLaw(Abs(a), Abs(b));
    Signs(Abs(b), Abs(a) / Abs(b));
    assert b * TruncDiv(a, b) == (if a < 0 then -(Abs(b) * (Abs(a) / Abs(b))) else Abs(b) * (Abs(a) / Abs(b)));
  }

  /** Division and remainder together: they give `q` and `m` exactly when these truncate. */
  lemma DivisionExactly(a: int, b: int, q: int, m: int)
    requires b != 0
    ensures Apply(Div, Int(a), Int(b)) == Ok(Int(q)) && Apply(Mod, Int(a), Int(b)) == Ok(Int(m)) <==> Truncated(a, b, q, m)
  {
    TruncDivLaw(a, b);
    if Truncated(a, b, q, m) {
      QuotientUnique(b, q, m, TruncDiv(a, b), TruncMod(a, b));
    }
  }

  // ----- bits -----

  /** Bit `k` of the two's-complement form of `x`. */
  predicate BitAt(x: int, k: nat)
    decreases k
  {
    if k == 0 then x % 2 == 1 else BitAt(x / 2, k - 1)
  }

  predicate BitResult(op: BinOp, a: bool, b: bool)
    requires op in {And, Or, Xor}
  {
    match op case And => a && b case Or => a || b case _ => a != b
  }

  function BitOpOf(op: BinOp): BitOp
    requires op in {And, Or, Xor}
  {
    match op case And => BitAnd case Or => BitOr case _ => BitXor
  }

  lemma {:induction false} ConstantBits(k: nat)
    ensures !BitAt(0, k) && BitAt(-1, k)
    decreases k
  {
    if k > 0 { ConstantBits(k - 1); }
  }

  lemma {:induction false} BitwiseAt(op: BinOp, a: int, b: int, k: nat)
    requires op in {And, Or, Xor}
    ensures BitAt(Bitwise(BitOpOf(op), a, b), k) <==> BitResult(op, BitAt(a, k), BitAt(b, k))
    decreases k
  {
    ConstantBits(k);
    if !((a == 0 || a == -1) && (b == 0 || b == -1)) {
      var low, high := BitStep(BitOpOf(op), a % 2, b % 2), Bitwise(BitOpOf(op), a / 2, b / 2);
      assert (low + 2 * high) % 2 == low && (low + 2 * high) / 2 == high;
      if k > 0 { BitwiseAt(op, a / 2, b / 2, k - 1); }
    }
  }

  /** `and`, `or` and `xor` of integers act on every bit. */
  lemma LogicBits(op: BinOp, a: int, b: int, k: nat)
    requires op in {And, Or, Xor}
    ensures Apply(op, Int(a), Int(b)).Ok? && Apply(op, Int(a), Int(b)).value.Int?
    ensures BitAt(Apply(op, Int(a), Int(b)).value.i, k) <==> BitResult(op, BitAt(a, k), BitAt(b, k))
  {
    BitwiseAt(op, a, b, k);
  }

  /** `not` of an integer turns every bit. */
  lemma {:induction false} NotBits(a: int, k: nat)
    ensures ApplyUnary(true, Int(a)).Ok? && ApplyUnary(true, Int(a)).value.Int?
    ensures BitAt(ApplyUnary(true, Int(a)).value.i, k) <==> !BitAt(a, k)
    decreases k
  {
    if k > 0 {
      NotBits(a / 2, k - 1);
      assert (-a - 1) / 2 == -(a / 2) - 1;
    }
  }

  /** The bits determine the integer, so the two lemmas above leave no other result. */
  lemma {:induction false} BitsDetermine(x: int, y: int)
    requires forall k: nat :: BitAt(x, k) <==> BitAt(y, k)
    ensures x == y
    decreases Abs(x) + Abs(y)
  {
    assert BitAt(x, 0) <==> BitAt(y, 0);
    if (x == 0 || x == -1) && (y == 0 || y == -1) {
    } else {
      forall k: nat ensures BitAt(x / 2, k) <==> BitAt(y / 2, k) {
        assert BitAt(x, k + 1) <==> BitAt(y, k + 1);
      }
      BitsDetermine(x / 2, y / 2);
    }
  }

  /** On truth values the operators are those of logic. */
  lemma LogicTruth(op: BinOp, a: bool, b: bool)
    requires op in {And, Or, Xor}
    ensures Apply(op, Bool(a), Bool(b)) == Ok(Bool(BitResult(op, a, b)))
    ensures ApplyUnary(true, Bool(a)) == Ok(Bool(!a))
  {}

  lemma UnaryErrorExactly(isNot: bool, a: Value)
    ensures ApplyUnary(isNot, a).Err? <==> KindOf(a) !in (if isNot then {AnInt, ABool} else {AnInt})
    ensures ApplyUnary(isNot, a).Err? ==> ApplyUnary(isNot, a).error == TypeError
  {}

  // ----- orders -----

  /** The first difference of `s` and `t` is at `i` and `s` ends there or has the smaller character. */
  predicate LessFrom(s: string, t: string, i: nat) {
    i <= |s| && i < |t| && s[..i] == t[..i] && (i == |s| || s[i] < t[i])
  }

  lemma {:induction false} StrLessExactly(s: string, t: string)
    ensures StrLess(s, t) <==> exists i: nat :: LessFrom(s, t, i)
    decreases s
  {
    if t == "" {
    } else if s == "" {
      assert LessFrom(s, t, 0);
    } else if s[0] < t[0] {
      assert LessFrom(s, t, 0);
    } else {
      StrLessExactly(s[1..], t[1..]);
      if s[0] == t[0] {
        if i: nat :| LessFrom(s[1..], t[1..], i) {
          assert s[..i + 1] == [s[0]] + s[1..][..i] && t[..i + 1] == [t[0]] + t[1..][..i];
          assert LessFrom(s, t, i + 1);
        }
      }
      if i: nat :| LessFrom(s, t, i) {
        TailLess(s, t, i);
      }
    }
  }

  lemma TailLess(s: string, t: string, i: nat)
    requires LessFrom(s, t, i) && s != "" && t != "" && !(s[0] < t[0])
    ensures s[0] == t[0] && LessFrom(s[1..], t[1..], i - 1)
  {
    assert i > 0;
    assert s[0] == s[..i][0] && t[0] == t[..i][0];
    assert s[1..][..i - 1] == s[..i][1..] && t[1..][..i - 1] == t[..i][1..];
  }

  /** Strings compare by their first difference. */
  lemma CompareStrings(s: string, t: string)
    ensures Apply(Lt, Str(s), Str(t)) == Ok(Bool(exists i: nat :: LessFrom(s, t, i)))
    ensures Apply(Bt, Str(s), Str(t)) == Ok(Bool(exists i: nat :: LessFrom(t, s, i)))
    ensures Apply(Leq, Str(s), Str(t)) == Ok(Bool(!exists i: nat :: LessFrom(t, s, i)))
    ensures Apply(Beq, Str(s), Str(t)) == Ok(Bool(!exists i: nat :: LessFrom(s, t, i)))
  {
    StrLessExactly(s, t);
    StrLessExactly(t, s);
  }

  /** Of two strings one is smaller or they are the same. */
  lemma {:induction false} StringsOrdered(s: string, t: string)
    ensures Apply(Leq, Str(s), Str(t)) == Ok(Bool(true)) <==> Apply(Lt, Str(s), Str(t)) == Ok(Bool(true)) || s == t
    decreases s
  {
    if s != "" && t != "" && s[0] == t[0] {
      StringsOrdered(s[1..], t[1..]);
      assert s == [s[0]] + s[1..] && t == [t[0]] + t[1..];
    }
  }

  lemma CompareInts(a: int, b: int)
    ensures Apply(Lt, Int(a), Int(b)) == Ok(Bool(a < b)) && Apply(Bt, Int(a), Int(b)) == Ok(Bool(b < a))
    ensures Apply(Leq, Int(a), Int(b)) == Ok(Bool(a <= b)) && Apply(Beq, Int(a), Int(b)) == Ok(Bool(b <= a))
  {}

  /** `!=` is the contrary of `==`. */
  lemma Unequal(a: Value, b: Value)
    ensures Apply(Eq, a, b) == Ok(Bool(true)) <==> Apply(Neq, a, b) == Ok(Bool(false))
    ensures Apply(Eq, a, b) in {Ok(Bool(true)), Ok(Bool(false))} && Apply(Neq, a, b) in {Ok(Bool(true)), Ok(Bool(false))}
  {}

  // ----- repetition -----

  lemma {:induction false} RepeatLength<T>(s: seq<T>, n: nat)
    ensures |Repeat(s, n)| == n * |s|
    decreases n
  {
    if n > 0 {
      RepeatLength(s, n - 1);
      assert n * |s| == (n - 1) * |s| + |s|;
    }
  }

  lemma {:induction false} RepeatAt<T>(s: seq<T>, n: nat, r: nat, j: nat)
    requires r < n && j < |s|
    ensures r * |s| + j < |Repeat(s, n)| && Repeat(s, n)[r * |s| + j] == s[j]
    decreases n
  {
    RepeatLength(s, n);
    if r > 0 {
      RepeatAt(s, n - 1, r - 1, j);
      assert r * |s| == (r - 1) * |s| + |s|;
    } else {
      assert r * |s| == 0;
    }
  }

  /** `s * n` is as long as `n` copies of `s`, none when `n` is negative, and copy `r` starts at `r * |s|`. */
  lemma Repeated(s: string, xs: seq<Value>, n: int)
    ensures Apply(Mul, Str(s), Int(n)).Ok? && Apply(Mul, Str(s), Int(n)).value.Str?
    ensures var t := Apply(Mul, Str(s), Int(n)).value.s; RepeatsOf(s, n, t)
    ensures Apply(Mul, ListVal(xs), Int(n)).Ok? && Apply(Mul, ListVal(xs), Int(n)).value.ListVal?
    ensures var ys := Apply(Mul, ListVal(xs), Int(n)).value.vals; RepeatsOf(xs, n, ys)
  {
    RepeatRepeats(s, n);
    RepeatRepeats(xs, n);
  }

  ghost predicate RepeatsOf<T>(s: seq<T>, n: int, t: seq<T>) {
    && |t| == (if n < 0 then 0 else n * |s|)
    && forall r: nat, j: nat :: r < n && j < |s| ==> CopiedAt(s, t, r, j)
  }

  predicate CopiedAt<T(==)>(s: seq<T>, t: seq<T>, r: nat, j: nat)
    requires j < |s|
  {
    r * |s| + j < |t| && t[r * |s| + j] == s[j]
  }

  lemma RepeatRepeats<T>(s: seq<T>, n: int)
    ensures RepeatsOf(s, n, Repeat(s, n))
  {
    if n >= 0 { RepeatLength(s, n); }
    forall r: nat, j: nat | r < n && j < |s| ensures CopiedAt(s, Repeat(s, n), r, j) {
      RepeatAt(s, n, r, j);
    }
  }

  // ----- subscripts -----

  /** An element is found by the number of elements before it and, from the end, by the number behind it. */
  lemma ListSubscript(xs: seq<Value>, v: Value, ys: seq<Value>)
    ensures Apply(Subsc, ListVal(xs + [v] + ys), Int(|xs|)) == Ok(v)
    ensures Apply(Subsc, ListVal(xs + [v] + ys), Int(-1 - |ys|)) == Ok(v)
  {}

  /** The same for the characters of a string; index 0 of the empty string gives the NUL behind it. */
  lemma StringSubscript(s: string, c: char, t: string)
    ensures Apply(Subsc, Str(s + [c] + t), Int(|s|)) == Ok(Str([c]))
    ensures Apply(Subsc, Str(s + [c] + t), Int(-1 - |t|)) == Ok(Str([c]))
    ensures Apply(Subsc, Str(""), Int(0)) == Ok(Str([0 as char]))
  {}

  // ----- membership -----

  predicate OccursAt(s: string, part: string, i: nat) {
    i + |part| <= |s| && s[i..i + |part|] == part
  }

  lemma OccursLater(s: string, part: string, i: nat)
    requires s != ""
    ensures OccursAt(s, part, i + 1) <==> OccursAt(s[1..], part, i)
  {
    if i + 1 + |part| <= |s| {
      assert s[i + 1..i + 1 + |part|] == s[1..][i..i + |part|];
    }
  }

  lemma {:induction false} ContainsExactly(s: string, part: string)
    ensures Contains(s, part) <==> exists i: nat :: OccursAt(s, part, i)
    decreases s
  {
    if part <= s {
      assert OccursAt(s, part, 0);
    } else if s != "" {
      ContainsExactly(s[1..], part);
      if i: nat :| OccursAt(s[1..], part, i) {
        OccursLater(s, part, i);
      }
      if i: nat :| OccursAt(s, part, i) {
        assert i > 0;
        OccursLater(s, part, i - 1);
      }
    }
  }

  /** `in` looks for a part of a string and for an equal element of a list. */
  lemma MemberExactly(s: string, part: string, xs: seq<Value>, v: Value)
    ensures Apply(In, Str(part), Str(s)) == Ok(Bool(exists i: nat :: OccursAt(s, part, i)))
    ensures Apply(In, v, ListVal(xs)) == Ok(Bool(exists x :: x in xs && Equal(x, v)))
  {
    ContainsExactly(s, part);
    if x :| x in xs && Equal(x, v) {
      var i :| 0 <= i < |xs| && xs[i] == x;
    }
    if i :| 0 <= i < |xs| && Equal(xs[i], v) {
      assert xs[i] in xs;
    }
  }

  lemma {:induction false} FindInEntries(es: seq<Entry>, k: Value)
    requires Hashable(k) && Equality.KeysDiffer(es) && forall j :: 0 <= j < |es| ==> Hashable(es[j].key)
    ensures FindKey(es, k).None? <==> forall j :: 0 <= j < |es| ==> es[j].key != k
    ensures forall j :: 0 <= j < |es| && es[j].key == k ==> FindKey(es, k) == Some(es[j].val)
    decreases es
  {
    if es != [] {
      var rest := es[1..];
      assert forall j :: 0 <= j < |rest| ==> rest[j] == es[j + 1];
      FindInEntries(rest, k);
      Equality.KeyEqual(es[0].key, k);
      if FindKey(es, k).None? {
        forall j | 0 <= j < |es| ensures es[j].key != k {
          if j > 0 { assert rest[j - 1].key != k; }
        }
      }
      forall j | 0 <= j < |es| && es[j].key == k ensures FindKey(es, k) == Some(es[j].val) {
        if j > 0 { assert rest[j - 1].key == k && es[0].key != k; }
      }
    }
  }

  /** Looking a key up goes to its place in the dictionary. */
  lemma {:induction false} FindAtPlace(h: string -> int, bs: seq<Bucket>, i: nat, j: nat)
    requires Dictionaries.FormedBuckets(h, bs) && Equality.At(bs, i, j)
    ensures FindKey(AllEntries(bs), bs[i].entries[j].key) == Some(bs[i].entries[j].val)
    decreases bs
  {
    var k, es, rest := bs[i].entries[j].key, bs[0].entries, bs[1..];
    assert Equality.FormedBucket(h, bs[i]);
    Dictionaries.FormedTail(h, bs);
    Dictionaries.FindAppend(es, AllEntries(rest), k);
    FindInEntries(es, k);
    if i > 0 {
      FindAtPlace(h, rest, i - 1, j);
      Dictionaries.FindElsewhere(h, es, k, bs[0].hash);
    }
  }

  lemma {:induction false} FoundSomewhere(es: seq<Entry>, k: Value)
    requires FindKey(es, k).Some?
    ensures exists e :: e in es && Equal(e.key, k)
    decreases es
  {
    if Equal(es[0].key, k) {
      assert es[0] in es;
    } else {
      FoundSomewhere(es[1..], k);
      var e :| e in es[1..] && Equal(e.key, k);
      assert e in es;
    }
  }

  lemma {:induction false} AllEntriesPlace(bs: seq<Bucket>, e: Entry)
    requires e in AllEntries(bs)
    ensures exists i, j :: Equality.At(bs, i, j) && bs[i].entries[j] == e
    decreases bs
  {
    if e in bs[0].entries {
      var j :| 0 <= j < |bs[0].entries| && bs[0].entries[j] == e;
      assert Equality.At(bs, 0, j);
    } else {
      AllEntriesPlace(bs[1..], e);
      var i, j :| Equality.At(bs[1..], i, j) && bs[1..][i].entries[j] == e;
      assert Equality.At(bs, i + 1, j) && bs[i + 1].entries[j] == e;
    }
  }

  /** A dictionary gives the value beside a key it has, and raises a key error exactly for other keys. */
  lemma DictSubscript(h: string -> int, bs: seq<Bucket>, i: nat, j: nat)
    requires Dictionaries.FormedBuckets(h, bs) && Equality.At(bs, i, j)
    ensures Apply(Subsc, Dict(bs), bs[i].entries[j].key) == Ok(bs[i].entries[j].val)
    ensures Apply(In, bs[i].entries[j].key, Dict(bs)) == Ok(Bool(true))
  {
    assert Equality.FormedBucket(h, bs[i]);
    FindAtPlace(h, bs, i, j);
  }

  lemma DictMisses(bs: seq<Bucket>, k: Value)
    requires Hashable(k)
    requires forall i, j :: Equality.At(bs, i, j) ==> bs[i].entries[j].key != k
    ensures Apply(Subsc, Dict(bs), k) == Err(KeyError)
    ensures Apply(In, k, Dict(bs)) == Ok(Bool(false))
  {
    if FindKey(AllEntries(bs), k).Some? {
      FoundSomewhere(AllEntries(bs), k);
      var e :| e in AllEntries(bs) && Equal(e.key, k);
      AllEntriesPlace(bs, e);
      Equality.KeyEqual(k, e.key);
      Equality.KeyEqual(e.key, k);
    }
  }

  // ----- iteration -----

  /** What an iterator delivers: the characters, the elements or the pairs of the parts, in order. */
  lemma IterateParts(s: string, t: string, xs: seq<Value>, ys: seq<Value>, bs: seq<Bucket>, cs: seq<Bucket>)
    ensures Iterate(Str(s)).Ok? && Iterate(Str(t)).Ok? && Iterate(Dict(bs)).Ok? && Iterate(Dict(cs)).Ok?
    ensures Iterate(Str(s + t)) == Ok(Iterate(Str(s)).value + Iterate(Str(t)).value)
    ensures Iterate(ListVal(xs + ys)) == Ok(xs + ys)
    ensures Iterate(Dict(bs + cs)) == Ok(Iterate(Dict(bs)).value + Iterate(Dict(cs)).value)
  {
    AllEntriesAppend(bs, cs);
    assert Iterate(Str(s + t)).value == Iterate(Str(s)).value + Iterate(Str(t)).value;
    assert Iterate(Dict(bs + cs)).value == Iterate(Dict(bs)).value + Iterate(Dict(cs)).value;
  }

  lemma {:induction false} AllEntriesAppend(bs: seq<Bucket>, cs: seq<Bucket>)
    ensures AllEntries(bs + cs) == AllEntries(bs) + AllEntries(cs)
    decreases bs
  {
    if bs == [] {
      assert bs + cs == cs;
    } else {
      assert (bs + cs)[1..] == bs[1..] + cs;
      AllEntriesAppend(bs[1..], cs);
    }
  }

  /** One character gives itself, one bucket a pair of key and value for each of its entries. */
  lemma IterateOne(c: char, k: Bucket, j: nat)
    requires j < |k.entries|
    ensures Iterate(Str([c])) == Ok([Str([c])])
    ensures Iterate(Dict([k])).Ok? && |Iterate(Dict([k])).value| == |k.entries|
    ensures Iterate(Dict([k])).value[j] == ListVal([k.entries[j].key, k.entries[j].val])
  {
    assert [k][1..] == [];
    assert AllEntries([k]) == k.entries + AllEntries([k][1..]) == k.entries;
    assert Iterate(Str([c])).value == [Str([c])];
  }

  lemma NotIterableExactly(v: Value)
    ensures Iterate(v).Err? <==> KindOf(v) in {AnInt, ABool, ANil}
    ensures Iterate(v).Err? ==> Iterate(v).error == NotIterable
  {}

  // ----- text -----

  /** The number a string of decimal digits stands for. */
  function Number(s: string): int {
    if s == "" then 0 else 10 * Number(s[..|s| - 1]) + (s[|s| - 1] as int - '0' as int)
  }

  predicate Decimals(s: string) {
    s != "" && (forall i :: 0 <= i < |s| ==> '0' <= s[i] <= '9') && (|s| > 1 ==> s[0] != '0')
  }

  lemma {:induction false} DigitsNumber(n: nat)
    ensures Decimals(Text.Digits(n)) && Number(Text.Digits(n)) == n
    ensures n > 0 ==> Text.Digits(n)[0] != '0'
    decreases n
  {
    if n >= 10 {
      var front, last := Text.Digits(n / 10), '0' + (n % 10) as char;
      DigitsNumber(n / 10);
      assert (front + [last])[..|front|] == front;
      assert n == 10 * (n / 10) + n % 10;
    } else {
      var last := '0' + n as char;
      assert Number([last]) == 10 * Number([last][..0]) + n;
    }
  }

  /** An integer is written with its sign and digits that stand for it, without leading zeros. */
  lemma IntText(i: int)
    ensures i >= 0 ==> Decimals(AsString(Int(i))) && Number(AsString(Int(i))) == i
    ensures i < 0 ==> AsString(Int(i)) == "-" + AsString(Int(-i))
  {
    DigitsNumber(Abs(i));
  }

  /** The other values without parts; strings are quoted and escaped inside lists and dictionaries only. */
  lemma PlainText(s: string, v: Value)
    requires !v.Str?
    ensures AsString(Str(s)) == s && Dump(Str(s)) == "\"" + Escapes.SanitizeAll(s) + "\""
    ensures AsString(Nil) == "nil" && AsString(Bool(true)) == "true" && AsString(Bool(false)) == "false"
    ensures AsString(ListVal([])) == "[]" && AsString(Dict([])) == "{:}"
    ensures Dump(v) == AsString(v)
  {}

  /** Text without its closing bracket. */
  function Unclosed(s: string): string
    requires s != ""
  {
    s[..|s| - 1]
  }

  /** Joining one text more behind a first one, or behind the rest. */
  lemma JoinRight(a: string, b: string, c: string)
    ensures a + ", " + (b + ", " + c) == (a + ", " + b) + ", " + c
  {
    assert a + ", " + (b + ", " + c) == a + (", " + b) + (", " + c);
  }

  /** The last text of a bracketed one, taken out of the brackets. */
  lemma Bracketed(open: char, text: string, last: string, close: char)
    ensures [open] + (text + ", " + last) + [close] == Unclosed([open] + text + [close]) + ", " + last + [close]
  {
    assert Unclosed([open] + text + [close]) == [open] + text;
    assert [open] + (text + ", " + last) == ([open] + text) + (", " + last);
  }

  lemma DumpAllCons(xs: seq<Value>)
    requires xs != []
    ensures DumpAll(xs) == if |xs| == 1 then Dump(xs[0]) else Dump(xs[0]) + ", " + DumpAll(xs[1..])
  {}

  lemma {:induction false} DumpAllMore(xs: seq<Value>, v: Value)
    requires xs != []
    ensures DumpAll(xs + [v]) == DumpAll(xs) + ", " + Dump(v)
    decreases xs
  {
    hide *;
    var more := xs + [v];
    assert more[0] == xs[0] && more[1..] == xs[1..] + [v];
    DumpAllCons(xs);
    DumpAllCons(more);
    if |xs| == 1 {
      assert more[1..] == [v];
      DumpAllCons([v]);
    } else {
      DumpAllMore(xs[1..], v);
      JoinRight(Dump(xs[0]), DumpAll(xs[1..]), Dump(v));
    }
  }

  lemma ListString(xs: seq<Value>)
    ensures AsString(ListVal(xs)) == ['['] + DumpAll(xs) + [']']
  {}

  /** A list is written in brackets, element behind element with commas between. */
  lemma ListText(xs: seq<Value>, v: Value)
    ensures AsString(ListVal([v])) == "[" + Dump(v) + "]"
    ensures xs != [] ==> AsString(ListVal(xs)) != ""
    ensures xs != [] ==> AsString(ListVal(xs + [v])) == Unclosed(AsString(ListVal(xs))) + ", " + Dump(v) + "]"
  {
    hide *;
    ListString([v]);
    DumpAllCons([v]);
    if xs != [] {
      ListString(xs);
      ListString(xs + [v]);
      DumpAllMore(xs, v);
      Bracketed('[', DumpAll(xs), Dump(v), ']');
    }
  }

  lemma DumpEntriesCons(es: seq<Entry>)
    requires es != []
    ensures DumpEntries(es) == if |es| == 1 then DumpEntry(es[0]) else DumpEntry(es[0]) + ", " + DumpEntries(es[1..])
  {
    if |es| != 1 {
      assert DumpEntry(es[0]) + (", " + DumpEntries(es[1..])) == DumpEntry(es[0]) + ", " + DumpEntries(es[1..]);
    }
  }

  lemma {:induction false} DumpEntriesMore(es: seq<Entry>, e: Entry)
    requires es != []
    ensures DumpEntries(es + [e]) == DumpEntries(es) + ", " + DumpEntry(e)
    decreases es
  {
    hide *;
    var more := es + [e];
    assert more[0] == es[0] && more[1..] == es[1..] + [e];
    DumpEntriesCons(es);
    DumpEntriesCons(more);
    if |es| == 1 {
      assert more[1..] == [e];
      DumpEntriesCons([e]);
    } else {
      DumpEntriesMore(es[1..], e);
      JoinRight(DumpEntry(es[0]), DumpEntries(es[1..]), DumpEntry(e));
    }
  }

  lemma DumpBucketsCons(bs: seq<Bucket>)
    requires bs != []
    ensures DumpBuckets(bs)
         == if |bs| == 1 then DumpEntries(bs[0].entries) else DumpEntries(bs[0].entries) + ", " + DumpBuckets(bs[1..])
  {
    if |bs| != 1 {
      assert DumpEntries(bs[0].entries) + (", " + DumpBuckets(bs[1..])) == DumpEntries(bs[0].entries) + ", " + DumpBuckets(bs[1..]);
    }
  }

  lemma {:induction false} DumpBucketsMore(bs: seq<Bucket>, k: Bucket)
    ensures DumpBuckets(bs + [k]) == if bs == [] then DumpEntries(k.entries) else DumpBuckets(bs) + ", " + DumpEntries(k.entries)
    decreases bs
  {
    hide *;
    var more := bs + [k];
    DumpBucketsCons(more);
    if bs != [] {
      assert more[0] == bs[0] && more[1..] == bs[1..] + [k];
      DumpBucketsCons(bs);
      DumpBucketsMore(bs[1..], k);
      if |bs| != 1 {
        JoinRight(DumpEntries(bs[0].entries), DumpBuckets(bs[1..]), DumpEntries(k.entries));
      }
    }
  }

  lemma DictString(bs: seq<Bucket>)
    requires bs != []
    ensures AsString(Dict(bs)) == ['{'] + DumpBuckets(bs) + ['}']
  {}

  lemma EntryString(e: Entry)
    ensures DumpEntry(e) == Dump(e.key) + ": " + Dump(e.val) && DumpEntries([e]) == DumpEntry(e)
  {}

  /** A dictionary is written in braces, with commas between the entries of a bucket and between buckets. */
  lemma DictText(bs: seq<Bucket>, hash: int, es: seq<Entry>, e: Entry)
    ensures AsString(Dict([Bucket(hash, [e])])) == "{" + (Dump(e.key) + ": " + Dump(e.val)) + "}"
    ensures AsString(Dict(bs + [Bucket(hash, es)])) != "" && (bs != [] ==> AsString(Dict(bs)) != "")
    ensures bs != [] ==> Extends(AsString(Dict(bs)), e, AsString(Dict(bs + [Bucket(hash, [e])])))
    ensures es != [] ==> Extends(AsString(Dict(bs + [Bucket(hash, es)])), e, AsString(Dict(bs + [Bucket(hash, es + [e])])))
  {
    hide DumpBuckets, DumpEntries, DumpEntry, Dump, AsString, Unclosed;
    EntryString(e);
    DictString([Bucket(hash, [e])]);
    DumpBucketsCons([Bucket(hash, [e])]);
    DictString(bs + [Bucket(hash, es)]);
    if bs != [] {
      DictString(bs);
      DictString(bs + [Bucket(hash, [e])]);
      DumpBucketsMore(bs, Bucket(hash, [e]));
      Bracketed('{', DumpBuckets(bs), DumpEntry(e), '}');
    }
    if es != [] {
      DictString(bs + [Bucket(hash, es + [e])]);
      LastBucketMore(bs, hash, es, e);
      Bracketed('{', DumpBuckets(bs + [Bucket(hash, es)]), DumpEntry(e), '}');
    }
  }

  /** `text` with an entry `key: value` more before its closing brace. */
  predicate Extends(text: string, e: Entry, longer: string)
    requires text != ""
  {
    longer == Unclosed(text) + ", " + (Dump(e.key) + ": " + Dump(e.val)) + "}"
  }

  lemma LastBucketMore(bs: seq<Bucket>, hash: int, es: seq<Entry>, e: Entry)
    requires es != []
    ensures DumpBuckets(bs + [Bucket(hash, es + [e])]) == DumpBuckets(bs + [Bucket(hash, es)]) + ", " + DumpEntry(e)
  {
    hide *;
    DumpEntriesMore(es, e);
    DumpBucketsMore(bs, Bucket(hash, es));
    DumpBucketsMore(bs, Bucket(hash, es + [e]));
    if bs != [] {
      JoinRight(DumpBuckets(bs), DumpEntries(es), DumpEntry(e));
    }
  }

  /** `..` joins the text of its operands. */
  lemma ConcatText(a: Value, b: Value)
    ensures Apply(Concat, a, b) == Ok(Str(AsString(a) + AsString(b)))
  {}
}
