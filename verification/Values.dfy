/** Run-time values and the operators the interpreter applies to them
    (vm/values.hpp, vm/values.cpp, bytecode/opcode.cpp). */
module Values {
  import opened Lists
  import Escapes
  import Text

  /** A value. Floats, objects, functions and the other kinds are not part of this model.
      A dictionary keeps one bucket per hash code, in insertion order. */
  datatype Value =
    | Int(i: int)
    | Bool(b: bool)
    | Str(s: string)
    | Nil
    | ListVal(vals: seq<Value>)
    | Dict(buckets: seq<Bucket>)

  datatype Bucket = Bucket(hash: int, entries: seq<Entry>)

  datatype Entry = Entry(key: Value, val: Value)

  /** Exceptions, without the wording of their messages. */
  datatype Exn =
    | NameError(name: string)
    | TypeError
    | DivisionByZero
    | IndexError
    | KeyError
    | NotIterable
    | BoolExpected
    | AssertionError(msg: Value, line: int)
    | Thrown(v: Value)

  datatype BinOp =
    | Concat | Add | Sub | Div | Mul | Mod
    | Eq | Neq | Bt | Lt | Beq | Leq | In | And | Or | Xor | Subsc

  // ----- equality -----

  /** `opcode::eq`: values of different kinds are unequal; lists compare element by element;
      for dictionaries the numbers of hash codes must agree and every entry of the first must
      have an equal entry in the second's bucket of the same hash. */
  predicate Equal(a: Value, b: Value) {
    match a
    case Int(i) => b.Int? && i == b.i
    case Bool(v) => b.Bool? && v == b.b
    case Str(s) => b.Str? && s == b.s
    case Nil => b.Nil?
    case ListVal(xs) =>
      b.ListVal? && |xs| == |b.vals| && forall i :: 0 <= i < |xs| ==> Equal(xs[i], b.vals[i])
    case Dict(bs) =>
      b.Dict? && |bs| == |b.buckets| &&
      forall i :: 0 <= i < |bs| ==> BucketIn(bs[i], b.buckets)
  }

  predicate BucketIn(k: Bucket, others: seq<Bucket>) {
    exists j :: 0 <= j < |others| && others[j].hash == k.hash && BucketMatches(k, others[j])
  }

  predicate BucketMatches(k: Bucket, other: Bucket) {
    forall i :: 0 <= i < |k.entries| ==> EntryIn(k.entries[i], other.entries)
  }

  predicate EntryIn(e: Entry, others: seq<Entry>) {
    exists j :: 0 <= j < |others| && Equal(e.key, others[j].key) && Equal(e.val, others[j].val)
  }

  /** The position of the first value equal to `v`, or `|vs|`. */
  function FirstEqual(vs: seq<Value>, v: Value): (i: nat)
    ensures i <= |vs|
    ensures i < |vs| ==> Equal(vs[i], v)
    ensures forall j :: 0 <= j < i ==> !Equal(vs[j], v)
  {
    if vs == [] then 0 else if Equal(vs[0], v) then 0 else 1 + FirstEqual(vs[1..], v)
  }

  // ----- strings -----

  function AsString(v: Value): string
    decreases v, 0
  {
    match v
    case Int(i) => Text.Decimal(i)
    case Bool(b) => if b then "true" else "false"
    case Str(s) => s
    case Nil => "nil"
    case ListVal(xs) => "[" + DumpAll(xs) + "]"
    case Dict(bs) => if bs == [] then "{:}" else "{" + DumpBuckets(bs) + "}"
  }

  /** The form a value takes inside a list or dictionary: strings are quoted and escaped. */
  function Dump(v: Value): string
    decreases v, 1
  {
    if v.Str? then "\"" + Escapes.SanitizeAll(v.s) + "\"" else AsString(v)
  }

  function DumpAll(xs: seq<Value>): string {
    if xs == [] then ""
    else if |xs| == 1 then Dump(xs[0])
    else Dump(xs[0]) + ", " + DumpAll(xs[1..])
  }

  function DumpEntry(e: Entry): string {
    Dump(e.key) + ": " + Dump(e.val)
  }

  function DumpEntries(es: seq<Entry>): string {
    if es == [] then ""
    else DumpEntry(es[0]) + (if |es| == 1 then "" else ", " + DumpEntries(es[1..]))
  }

  function DumpBuckets(bs: seq<Bucket>): string {
    if bs == [] then ""
    else DumpEntries(bs[0].entries) + (if |bs| == 1 then "" else ", " + DumpBuckets(bs[1..]))
  }

  predicate StrLess(s: string, t: string) {
    t != "" && (s == "" || s[0] < t[0] || (s[0] == t[0] && StrLess(s[1..], t[1..])))
  }

  predicate Contains(s: string, part: string) {
    part <= s || (s != "" && Contains(s[1..], part))
  }

  function Repeat<T>(s: seq<T>, n: int): seq<T>
    decreases if n < 0 then 0 else n
  {
    if n <= 0 then [] else s + Repeat(s, n - 1)
  }

  // ----- integers -----

  /** C++ division: truncation toward zero. */
  function TruncDiv(a: int, b: int): int
    requires b != 0
  {
    if a >= 0 then (if b > 0 then a / b else -(a / -b))
    else (if b > 0 then -(-a / b) else -a / -b)
  }

  function TruncMod(a: int, b: int): int
    requires b != 0
  {
    a - b * TruncDiv(a, b)
  }

  datatype BitOp = BitAnd | BitOr | BitXor

  function BitStep(op: BitOp, a: int, b: int): int {
    match op
    case BitAnd => if a == 1 && b == 1 then 1 else 0
    case BitOr => if a == 0 && b == 0 then 0 else 1
    case BitXor => if a == b then 0 else 1
  }

  /** Bitwise operation on two's-complement integers of unbounded width. */
  function Bitwise(op: BitOp, a: int, b: int): int
    decreases (if a < 0 then -a else a) + (if b < 0 then -b else b)
  {
    if (a == 0 || a == -1) && (b == 0 || b == -1) then
      if BitStep(op, -a, -b) == 1 then -1 else 0
    else
      BitStep(op, a % 2, b % 2) + 2 * Bitwise(op, a / 2, b / 2)
  }

  // ----- subscripts -----

  /** `is_oob`: index 0 is never out of bounds, even in the empty string. */
  predicate StrOob(s: string, i: int) {
    (i < 0 && -i > |s|) || (i > 0 && i >= |s|)
  }

  /** One character as a string; the character past the end of a C++ string is NUL. */
  function StrIndex(s: string, i: int): string
    requires !StrOob(s, i)
  {
    if i < 0 then [s[|s| + i]] else if i < |s| then [s[i]] else [0 as char]
  }

  predicate Hashable(v: Value) {
    !v.ListVal? && !v.Dict?
  }

  /** The entries of a dictionary in iteration order. */
  function AllEntries(bs: seq<Bucket>): seq<Entry> {
    if bs == [] then [] else bs[0].entries + AllEntries(bs[1..])
  }

  function FindKey(es: seq<Entry>, k: Value): Option<Value> {
    if es == [] then None
    else if Equal(es[0].key, k) then Some(es[0].val)
    else FindKey(es[1..], k)
  }

  // ----- operators -----

  function Compare(op: BinOp, a: Value, b: Value): Result<Value, Exn>
    requires op.Bt? || op.Lt? || op.Beq? || op.Leq?
  {
    if a.Int? && b.Int? then
      Ok(Bool(match op case Bt => a.i > b.i case Lt => a.i < b.i case Beq => a.i >= b.i case _ => a.i <= b.i))
    else if a.Str? && b.Str? then
      Ok(Bool(match op
              case Bt => StrLess(b.s, a.s)
              case Lt => StrLess(a.s, b.s)
              case Beq => !StrLess(a.s, b.s)
              case _ => !StrLess(b.s, a.s)))
    else Err(TypeError)
  }

  function Logic(op: BinOp, a: Value, b: Value): Result<Value, Exn>
    requires op.And? || op.Or? || op.Xor?
  {
    if a.Int? && b.Int? then
      Ok(Int(Bitwise(match op case And => BitAnd case Or => BitOr case _ => BitXor, a.i, b.i)))
    else if a.Bool? && b.Bool? then
      Ok(Bool(match op case And => a.b && b.b case Or => a.b || b.b case _ => a.b != b.b))
    else Err(TypeError)
  }

  function Multiply(a: Value, b: Value): Result<Value, Exn> {
    if !b.Int? then Err(TypeError)
    else match a
      case Int(i) => Ok(Int(i * b.i))
      case Str(s) => Ok(Str(Repeat(s, b.i)))
      case ListVal(xs) => Ok(ListVal(Repeat(xs, b.i)))
      case _ => Err(TypeError)
  }

  function Member(a: Value, b: Value): Result<Value, Exn> {
    match b
    case Str(s) => if a.Str? then Ok(Bool(Contains(s, a.s))) else Err(TypeError)
    case ListVal(xs) => Ok(Bool(exists i :: 0 <= i < |xs| && Equal(xs[i], a)))
    case Dict(bs) => if Hashable(a) then Ok(Bool(FindKey(AllEntries(bs), a).Some?)) else Err(TypeError)
    case _ => Err(TypeError)
  }

  function Subscript(a: Value, b: Value): Result<Value, Exn> {
    match a
    case Str(s) =>
      if !b.Int? then Err(TypeError)
      else if StrOob(s, b.i) then Err(IndexError)
      else Ok(Str(StrIndex(s, b.i)))
    case ListVal(xs) =>
      if !b.Int? then Err(TypeError)
      else if b.i < -|xs| || b.i >= |xs| then Err(IndexError)
      else Ok(if b.i < 0 then xs[|xs| + b.i] else xs[b.i])
    case Dict(bs) =>
      if !Hashable(b) then Err(TypeError)
      else (match FindKey(AllEntries(bs), b)
            case Some(v) => Ok(v)
            case None => Err(KeyError))
    case _ => Err(TypeError)
  }

  /** One binary operator on two values. */
  function Apply(op: BinOp, a: Value, b: Value): Result<Value, Exn> {
    match op
    case Concat => Ok(Str(AsString(a) + AsString(b)))
    case Add =>
      if a.Int? && b.Int? then Ok(Int(a.i + b.i))
      else if a.ListVal? && b.ListVal? then Ok(ListVal(a.vals + b.vals))
      else Err(TypeError)
    case Sub => if a.Int? && b.Int? then Ok(Int(a.i - b.i)) else Err(TypeError)
    case Mul => Multiply(a, b)
    case Div =>
      if !(a.Int? && b.Int?) then Err(TypeError)
      else if b.i == 0 then Err(DivisionByZero) else Ok(Int(TruncDiv(a.i, b.i)))
    case Mod =>
      if !(a.Int? && b.Int?) then Err(TypeError)
      else if b.i == 0 then Err(DivisionByZero) else Ok(Int(TruncMod(a.i, b.i)))
    case Eq => Ok(Bool(Equal(a, b)))
    case Neq => Ok(Bool(!Equal(a, b)))
    case Bt => Compare(op, a, b)
    case Lt => Compare(op, a, b)
    case Beq => Compare(op, a, b)
    case Leq => Compare(op, a, b)
    case In => Member(a, b)
    case And => Logic(op, a, b)
    case Or => Logic(op, a, b)
    case Xor => Logic(op, a, b)
    case Subsc => Subscript(a, b)
  }

  /** `not` (logical negation of a Bool, bitwise complement of an Int) and unary minus. */
  function ApplyUnary(isNot: bool, a: Value): Result<Value, Exn> {
    if a.Int? then Ok(Int(if isNot then -a.i - 1 else -a.i))
    else if a.Bool? && isNot then Ok(Bool(!a.b))
    else Err(TypeError)
  }

  /** The values an iterator over `v` delivers, in order. */
  function Iterate(v: Value): Result<seq<Value>, Exn> {
    match v
    case Str(s) => Ok(seq(|s|, i requires 0 <= i < |s| => Str([s[i]])))
    case ListVal(xs) => Ok(xs)
    case Dict(bs) =>
      var es := AllEntries(bs);
      Ok(seq(|es|, i requires 0 <= i < |es| => ListVal([es[i].key, es[i].val])))
    case _ => Err(NotIterable)
  }
}
