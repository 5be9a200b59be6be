/** How expressions group (`Parser::ternary_if` down to `Parser::constant` in frontend/parser.cpp), said on
    tokens: the operators are listed here class by class, in the order in which the methods of the cascade
    call one another, and for any two of them it is said which binds its operands first. */
module Grouping {
  import opened Lists
  import opened Precedence

  /** The operators of each method, from the loosest to the tightest. */
  const CLASSES: seq<set<Operator>> := [
    {ShortAnd, ShortOr}, {And, Or, Xor}, {Eq, Neq}, {Leq, Beq, Lt, Bt}, {In}, {Range}, {Concat},
    {Plus, Minus}, {Mul, Div, Mod}, {Exp}]

  /** Classes below this one take `not` as an operand. */
  const NOT_PLACE: nat := 2

  predicate InClass(op: Operator, i: nat) {
    i < |CLASSES| && op in CLASSES[i]
  }

  lemma {:induction false} ClassExists(op: Operator) returns (i: nat)
    ensures InClass(op, i) && forall j :: InClass(op, j) ==> j == i
  {
    i := match op
      case ShortAnd => 0 case ShortOr => 0
      case And => 1 case Or => 1 case Xor => 1
      case Eq => 2 case Neq => 2
      case Leq => 3 case Beq => 3 case Lt => 3 case Bt => 3
      case In => 4 case Range => 5 case Concat => 6
      case Plus => 7 case Minus => 7
      case Mul => 8 case Div => 8 case Mod => 8
      case Exp => 9;
  }

  /** The level of a class in the cascade. */
  function LevelOf(i: nat): nat {
    if i < 2 then i + 1 else i + 2
  }

  lemma {:induction false} ClassLevel(op: Operator, i: nat)
    requires InClass(op, i)
    ensures Level(op) == LevelOf(i) && (LeftLevel(Level(op)) <==> i !in [4, 5, 9]) && (i == 9 <==> op == Exp)
  {}

  // ----- printing small expressions -----

  lemma {:induction false} PrintName(n: string, level: nat)
    requires level <= CONSTANT_LEVEL
    ensures Print(Name(n), level) == [Id(n)]
  {}

  lemma {:induction false} PrintBinary(op: Operator, l: Expr, r: Expr, n: nat)
    requires n <= Level(op)
    ensures Print(Binary(op, l, r), n) == Print(l, LeftOperand(op)) + ([Sign(op)] + Print(r, RightOperand(op)))
  {
    hide LeftOperand, RightOperand;
  }

  lemma {:induction false} PrintPrefix(x: Expr, n: nat)
    ensures n <= NOT_LEVEL ==> Print(Not(x), n) == [NotSign] + Print(x, NOT_LEVEL)
    ensures n <= UNARY_LEVEL ==> Print(Neg(x), n) == [Sign(Minus)] + Print(x, UNARY_LEVEL)
  {}

  lemma {:induction false} PrintIndex(x: Expr, i: Expr, n: nat)
    requires n <= ACCESS_LEVEL
    ensures Print(Index(x, i), n) == Print(x, ACCESS_LEVEL) + ([LeftSquare] + (Print(i, 0) + [RightSquare]))
  {}

  lemma {:induction false} PrintTernary(c: Expr, t: Expr, f: Expr)
    ensures Print(Ternary(c, t, f), 0) == Print(c, 1) + ([Question] + (Print(t, 0) + ([Colon] + Print(f, 0))))
  {}

  /** Operands of two names around an operator. */
  lemma {:induction false} PrintPair(op: Operator, i: nat, a: string, b: string, n: nat)
    requires InClass(op, i) && n <= LevelOf(i)
    ensures Print(Binary(op, Name(a), Name(b)), n) == [Id(a), Sign(op), Id(b)]
    ensures 1 <= LevelOf(i) <= EXP_LEVEL
  {
    Operands(op, i);
    hide *;
    PrintBinary(op, Name(a), Name(b), n);
    PrintName(a, LeftOperand(op));
    PrintName(b, RightOperand(op));
  }

  lemma {:induction false} Operands(op: Operator, i: nat)
    requires InClass(op, i)
    ensures Level(op) == LevelOf(i) && 1 <= LevelOf(i) <= EXP_LEVEL
    ensures LeftOperand(op) == if i in [4, 5, 9] then LevelOf(i) + 1 else LevelOf(i)
    ensures RightOperand(op) == if i == 9 then LevelOf(i) else LevelOf(i) + 1
  {
    ClassLevel(op, i);
  }

  /** The tokens of a printed expression are that expression. */
  lemma {:induction false} Reads(e: Expr, ts: seq<Token>)
    requires Print(e, 0) == ts
    ensures Parse(0, ts) == Parsed(Some(e), [])
  {
    hide Print, Parse;
    ParsePrint(e, 0, []);
    assert ts + [] == ts;
  }

  // ----- two operators -----

  /** Two operators around three names: the one of the later class binds first. Within a class grouping is to
      the left, for `^` to the right, and `in` and `..` take one operator and leave the rest unread. */
  lemma {:induction false} Pairs(p: Operator, q: Operator, i: nat, j: nat, a: string, b: string, c: string)
    requires InClass(p, i) && InClass(q, j)
    ensures var r := Parse(0, [Id(a), Sign(p), Id(b), Sign(q), Id(c)]);
            var left := Parsed(Some(Binary(q, Binary(p, Name(a), Name(b)), Name(c))), []);
            var right := Parsed(Some(Binary(p, Name(a), Binary(q, Name(b), Name(c)))), []);
            && (i < j ==> r == right)
            && (i > j ==> r == left)
            && (i == j && i !in [4, 5, 9] ==> r == left)
            && (i == j == 9 ==> r == right)
            && (i == j && i in [4, 5] ==> r == Parsed(Some(Binary(p, Name(a), Name(b))), [Sign(q), Id(c)]))
  {
    if i < j || i == j == 9 {
      PairRight(p, q, i, j, a, b, c);
    } else if i == j && i in [4, 5] {
      PairOnce(p, q, i, a, b, c);
    } else {
      PairLeft(p, q, i, j, a, b, c);
    }
  }

  lemma {:induction false} PairRight(p: Operator, q: Operator, i: nat, j: nat, a: string, b: string, c: string)
    requires InClass(p, i) && InClass(q, j) && (i < j || i == j == 9)
    ensures Parse(0, [Id(a), Sign(p), Id(b), Sign(q), Id(c)])
         == Parsed(Some(Binary(p, Name(a), Binary(q, Name(b), Name(c)))), [])
  {
    Operands(p, i);
    Operands(q, j);
    assert RightOperand(p) <= LevelOf(j);
    hide *;
    var inner := Binary(q, Name(b), Name(c));
    PrintPair(q, j, b, c, RightOperand(p));
    PrintBinary(p, Name(a), inner, 0);
    PrintName(a, LeftOperand(p));
    assert [Id(a)] + ([Sign(p)] + [Id(b), Sign(q), Id(c)]) == [Id(a), Sign(p), Id(b), Sign(q), Id(c)];
    Reads(Binary(p, Name(a), inner), [Id(a), Sign(p), Id(b), Sign(q), Id(c)]);
  }

  lemma {:induction false} PairLeft(p: Operator, q: Operator, i: nat, j: nat, a: string, b: string, c: string)
    requires InClass(p, i) && InClass(q, j) && (i > j || (i == j && i !in [4, 5, 9]))
    ensures Parse(0, [Id(a), Sign(p), Id(b), Sign(q), Id(c)])
         == Parsed(Some(Binary(q, Binary(p, Name(a), Name(b)), Name(c))), [])
  {
    Operands(p, i);
    Operands(q, j);
    assert LeftOperand(q) <= LevelOf(i);
    hide *;
    var inner := Binary(p, Name(a), Name(b));
    PrintPair(p, i, a, b, LeftOperand(q));
    PrintBinary(q, inner, Name(c), 0);
    PrintName(c, RightOperand(q));
    assert [Id(a), Sign(p), Id(b)] + ([Sign(q)] + [Id(c)]) == [Id(a), Sign(p), Id(b), Sign(q), Id(c)];
    Reads(Binary(q, inner, Name(c)), [Id(a), Sign(p), Id(b), Sign(q), Id(c)]);
  }

  /** What is parsed at level `m` is parsed at `n` when nothing in between goes on with it. */
  lemma {:induction false} Ascends(n: nat, m: nat, ts: seq<Token>, e: Expr, rest: seq<Token>)
    requires n <= m <= CONSTANT_LEVEL && Parse(m, ts) == Parsed(Some(e), rest)
    requires Head(ts).Id? || Head(ts) == LeftParen
    requires forall k: nat :: n <= k < m ==> ContinuesAt(Head(rest)) != Some(k)
    ensures Parse(n, ts) == Parsed(Some(e), rest)
    decreases m
  {
    hide Parse, ContinuesAt;
    if n < m {
      Descend(m - 1, ts, e, rest);
      NotContinued(m - 1, e, rest);
      Ascends(n, m - 1, ts, e, rest);
    }
  }

  lemma {:induction false} NotContinued(n: nat, e: Expr, ts: seq<Token>)
    requires n <= CONSTANT_LEVEL && ContinuesAt(Head(ts)) != Some(n)
    ensures Continue(n, Some(e), ts) == Parsed(Some(e), ts)
  {
    hide Conditional, Parse, ContinuesAt;
  }

  lemma {:induction false} PairOnce(p: Operator, q: Operator, i: nat, a: string, b: string, c: string)
    requires InClass(p, i) && InClass(q, i) && i in [4, 5]
    ensures Parse(0, [Id(a), Sign(p), Id(b), Sign(q), Id(c)]) == Parsed(Some(Binary(p, Name(a), Name(b))), [Sign(q), Id(c)])
  {
    Operands(p, i);
    Operands(q, i);
    ClassLevel(p, i);
    var n, e, more := LevelOf(i), Binary(p, Name(a), Name(b)), [Sign(q), Id(c)];
    var ts := [Id(a), Sign(p), Id(b), Sign(q), Id(c)];
    assert p != Exp && ContinuesAt(Sign(q)) == Some(n) && ContinuesAt(Sign(p)) == Some(n);
    hide Parse, Continue, Level, ContinuesAt, LeftLevel, InClass;
    var after := [Id(b)] + more;
    assert ts == [Id(a)] + ([Sign(p)] + after);
    ParseName(b, more);
    Ascends(n + 1, CONSTANT_LEVEL, after, Name(b), more);
    ParseName(a, [Sign(p)] + after);
    Ascends(n + 1, CONSTANT_LEVEL, ts, Name(a), [Sign(p)] + after);
    Descend(n, ts, Name(a), [Sign(p)] + after);
    ContinueSign(Name(a), p, after, Name(b), more);
    Ascends(0, n, ts, e, more);
  }

  // ----- `not`, minus and plus -----

  /** `not` in front of an operand: it takes the whole of what the classes from `==` on build. */
  lemma {:induction false} NotFirst(p: Operator, i: nat, a: string, b: string)
    requires InClass(p, i)
    ensures Parse(0, [NotSign, Id(a), Sign(p), Id(b)])
         == Parsed(Some(if i < NOT_PLACE then Binary(p, Not(Name(a)), Name(b)) else Not(Binary(p, Name(a), Name(b)))), [])
  {
    Operands(p, i);
    hide Parse, Print, Level, LeftOperand, RightOperand;
    if i < NOT_PLACE {
      PrintBinary(p, Not(Name(a)), Name(b), 0);
      PrintPrefix(Name(a), LeftOperand(p));
      PrintName(a, NOT_LEVEL);
      PrintName(b, RightOperand(p));
      Reads(Binary(p, Not(Name(a)), Name(b)), [NotSign, Id(a), Sign(p), Id(b)]);
    } else {
      PrintPair(p, i, a, b, NOT_LEVEL);
      PrintPrefix(Binary(p, Name(a), Name(b)), 0);
      Reads(Not(Binary(p, Name(a), Name(b))), [NotSign, Id(a), Sign(p), Id(b)]);
    }
  }

  /** `not` behind an operator: an operand of the first two classes only, otherwise an error. */
  lemma {:induction false} NotSecond(p: Operator, i: nat, a: string, b: string)
    requires InClass(p, i)
    ensures Parse(0, [Id(a), Sign(p), NotSign, Id(b)])
         == if i < NOT_PLACE then Parsed(Some(Binary(p, Name(a), Not(Name(b)))), []) else Failed(ExprExpected)
  {
    Operands(p, i);
    var ts := [Id(a), Sign(p), NotSign, Id(b)];
    if i < NOT_PLACE {
      hide Parse, Print, Level, LeftOperand, RightOperand;
      PrintBinary(p, Name(a), Not(Name(b)), 0);
      PrintPrefix(Name(b), RightOperand(p));
      PrintName(b, NOT_LEVEL);
      PrintName(a, LeftOperand(p));
      Reads(Binary(p, Name(a), Not(Name(b))), ts);
    } else {
      var n, more := LevelOf(i), [NotSign, Id(b)];
      assert ContinuesAt(Sign(p)) == Some(n) && ts == [Id(a)] + ([Sign(p)] + more);
      hide Parse, Continue, ContinuesAt, Level, InClass, LeftOperand, RightOperand;
      NoOperand(RightOperand(p), more);
      ParseName(a, [Sign(p)] + more);
      Ascends(n + 1, CONSTANT_LEVEL, ts, Name(a), [Sign(p)] + more);
      Descend(n, ts, Name(a), [Sign(p)] + more);
      SignFails(Name(a), p, more);
      FailsBelow(0, n, ts, ExprExpected);
    }
  }

  /** At the levels that are tighter than `not`, `not` begins nothing. */
  lemma {:induction false} NoOperand(n: nat, ts: seq<Token>)
    requires NOT_LEVEL < n <= CONSTANT_LEVEL && Head(ts) == NotSign
    ensures Parse(n, ts) == Parsed(None, ts)
    decreases CONSTANT_LEVEL - n
  {
    if n < CONSTANT_LEVEL {
      NoOperand(n + 1, ts);
    }
  }

  lemma {:induction false} SignFails(e: Expr, p: Operator, more: seq<Token>)
    requires Parse(RightOperand(p), more) == Parsed(None, more)
    ensures Continue(Level(p), Some(e), [Sign(p)] + more) == Failed(ExprExpected)
  {
    LevelFacts(p);
    hide Parse, Conditional;
    assert ([Sign(p)] + more)[1..] == more;
  }

  lemma {:induction false} FailsBelow(n: nat, m: nat, ts: seq<Token>, x: ParseError)
    requires n <= m <= CONSTANT_LEVEL && Parse(m, ts) == Failed(x) && (Head(ts).Id? || Head(ts) == LeftParen)
    ensures Parse(n, ts) == Failed(x)
    decreases m
  {
    if n < m {
      FailsOne(m - 1, ts, x);
      FailsBelow(n, m - 1, ts, x);
    }
  }

  lemma {:induction false} FailsOne(n: nat, ts: seq<Token>, x: ParseError)
    requires n < CONSTANT_LEVEL && Parse(n + 1, ts) == Failed(x) && (Head(ts).Id? || Head(ts) == LeftParen)
    ensures Parse(n, ts) == Failed(x)
  {
    hide Continue, Wrap, Need, Constant;
  }

  /** Minus in front of an operand takes just that operand, whatever the operator. */
  lemma {:induction false} Minuses(p: Operator, i: nat, a: string, b: string)
    requires InClass(p, i)
    ensures Parse(0, [Sign(Minus), Id(a), Sign(p), Id(b)]) == Parsed(Some(Binary(p, Neg(Name(a)), Name(b))), [])
    ensures Parse(0, [Id(a), Sign(p), Sign(Minus), Id(b)]) == Parsed(Some(Binary(p, Name(a), Neg(Name(b)))), [])
  {
    Operands(p, i);
    hide Parse, Print, Level, LeftOperand, RightOperand;
    PrintBinary(p, Neg(Name(a)), Name(b), 0);
    PrintBinary(p, Name(a), Neg(Name(b)), 0);
    PrintPrefix(Name(a), LeftOperand(p));
    PrintPrefix(Name(b), RightOperand(p));
    PrintName(a, UNARY_LEVEL);
    PrintName(b, UNARY_LEVEL);
    PrintName(a, LeftOperand(p));
    PrintName(b, RightOperand(p));
    Reads(Binary(p, Neg(Name(a)), Name(b)), [Sign(Minus), Id(a), Sign(p), Id(b)]);
    Reads(Binary(p, Name(a), Neg(Name(b))), [Id(a), Sign(p), Sign(Minus), Id(b)]);
  }

  /** `not` takes a minus, and minus takes no `not`. */
  lemma {:induction false} Prefixes(a: string)
    ensures Parse(0, [NotSign, Sign(Minus), Id(a)]) == Parsed(Some(Not(Neg(Name(a)))), [])
    ensures Parse(0, [NotSign, NotSign, Id(a)]) == Parsed(Some(Not(Not(Name(a)))), [])
    ensures Parse(0, [Sign(Minus), Sign(Minus), Id(a)]) == Parsed(Some(Neg(Neg(Name(a)))), [])
    ensures Parse(0, [Sign(Minus), NotSign, Id(a)]) == Failed(ExprExpected)
  {
    hide Parse, Print;
    PrintName(a, UNARY_LEVEL);
    PrintName(a, NOT_LEVEL);
    PrintPrefix(Name(a), UNARY_LEVEL);
    PrintPrefix(Name(a), NOT_LEVEL);
    PrintPrefix(Neg(Name(a)), 0);
    PrintPrefix(Not(Name(a)), 0);
    Reads(Not(Neg(Name(a))), [NotSign, Sign(Minus), Id(a)]);
    Reads(Not(Not(Name(a))), [NotSign, NotSign, Id(a)]);
    Reads(Neg(Neg(Name(a))), [Sign(Minus), Sign(Minus), Id(a)]);
    var ts := [Sign(Minus), NotSign, Id(a)];
    assert ts[1..] == [NotSign, Id(a)];
    NoOperand(UNARY_LEVEL, ts[1..]);
    MinusFails(ts);
  }

  lemma {:induction false} MinusFails(ts: seq<Token>)
    requires Head(ts) == Sign(Minus) && Parse(UNARY_LEVEL, ts[1..]).Parsed? && Parse(UNARY_LEVEL, ts[1..]).e.None?
    ensures Parse(0, ts) == Failed(ExprExpected)
  {
    assert Parse(UNARY_LEVEL, ts) == Failed(ExprExpected) by {
      hide Continue, Constant;
    }
    SignedFails(0, UNARY_LEVEL, ts);
  }

  lemma {:induction false} SignedFails(n: nat, m: nat, ts: seq<Token>)
    requires n <= m <= UNARY_LEVEL && Head(ts) == Sign(Minus) && Parse(m, ts) == Failed(ExprExpected)
    ensures Parse(n, ts) == Failed(ExprExpected)
    decreases m
  {
    if n < m {
      SignedFailsOne(m - 1, ts);
      SignedFails(n, m - 1, ts);
    }
  }

  lemma {:induction false} SignedFailsOne(n: nat, ts: seq<Token>)
    requires n < UNARY_LEVEL && Head(ts) == Sign(Minus) && Parse(n + 1, ts) == Failed(ExprExpected)
    ensures Parse(n, ts) == Failed(ExprExpected)
  {
    hide Continue, Wrap, Need, Constant;
  }

  /** A plus in front leaves no trace. */
  lemma {:induction false} PlusDropped(n: nat, ts: seq<Token>)
    requires n <= UNARY_LEVEL && (Head(ts).Id? || Head(ts) == LeftParen || Head(ts) == Sign(Minus))
    requires Need(Parse(UNARY_LEVEL, ts)) == Parse(UNARY_LEVEL, ts)
    ensures Parse(n, [Sign(Plus)] + ts) == Parse(n, ts)
    decreases UNARY_LEVEL - n
  {
    assert ([Sign(Plus)] + ts)[1..] == ts;
    if n < UNARY_LEVEL {
      PlusDropped(n + 1, ts);
      hide Continue, Constant, Wrap, Need;
    }
  }

  // ----- subscripts and conditionals -----

  /** A subscript takes just the operand in front of it, and anything between its brackets. */
  lemma {:induction false} Subscripts(p: Operator, i: nat, a: string, b: string, c: string)
    requires InClass(p, i)
    ensures Parse(0, [Id(a), Sign(p), Id(b), LeftSquare, Id(c), RightSquare])
         == Parsed(Some(Binary(p, Name(a), Index(Name(b), Name(c)))), [])
    ensures Parse(0, [Id(a), LeftSquare, Id(b), RightSquare, Sign(p), Id(c)])
         == Parsed(Some(Binary(p, Index(Name(a), Name(b)), Name(c))), [])
    ensures Parse(0, [Id(a), LeftSquare, Id(b), Sign(p), Id(c), RightSquare])
         == Parsed(Some(Index(Name(a), Binary(p, Name(b), Name(c)))), [])
    ensures Parse(0, [Sign(Minus), Id(a), LeftSquare, Id(b), RightSquare]) == Parsed(Some(Neg(Index(Name(a), Name(b)))), [])
    ensures Parse(0, [Id(a), LeftSquare, Id(b), RightSquare, LeftSquare, Id(c), RightSquare])
         == Parsed(Some(Index(Index(Name(a), Name(b)), Name(c))), [])
  {
    Operands(p, i);
    hide Parse, Print, Level, LeftOperand, RightOperand;
    PrintSubscript(b, c, RightOperand(p));
    PrintSubscript(a, b, LeftOperand(p));
    PrintSubscript(a, b, UNARY_LEVEL);
    PrintSubscript(a, b, ACCESS_LEVEL);
    PrintName(a, LeftOperand(p));
    PrintName(c, RightOperand(p));
    PrintName(a, ACCESS_LEVEL);
    PrintName(c, 0);
    PrintPair(p, i, b, c, 0);
    PrintBinary(p, Name(a), Index(Name(b), Name(c)), 0);
    PrintBinary(p, Index(Name(a), Name(b)), Name(c), 0);
    PrintIndex(Name(a), Binary(p, Name(b), Name(c)), 0);
    PrintIndex(Index(Name(a), Name(b)), Name(c), 0);
    PrintPrefix(Index(Name(a), Name(b)), 0);
    Reads(Binary(p, Name(a), Index(Name(b), Name(c))), [Id(a), Sign(p), Id(b), LeftSquare, Id(c), RightSquare]);
    Reads(Binary(p, Index(Name(a), Name(b)), Name(c)), [Id(a), LeftSquare, Id(b), RightSquare, Sign(p), Id(c)]);
    Reads(Index(Name(a), Binary(p, Name(b), Name(c))), [Id(a), LeftSquare, Id(b), Sign(p), Id(c), RightSquare]);
    Reads(Neg(Index(Name(a), Name(b))), [Sign(Minus), Id(a), LeftSquare, Id(b), RightSquare]);
    Reads(Index(Index(Name(a), Name(b)), Name(c)), [Id(a), LeftSquare, Id(b), RightSquare, LeftSquare, Id(c), RightSquare]);
  }

  lemma {:induction false} PrintSubscript(a: string, b: string, n: nat)
    requires n <= ACCESS_LEVEL
    ensures Print(Index(Name(a), Name(b)), n) == [Id(a), LeftSquare, Id(b), RightSquare]
  {
    hide Print;
    PrintIndex(Name(a), Name(b), n);
    PrintName(a, ACCESS_LEVEL);
    PrintName(b, 0);
  }

  /** A conditional is looser than every operator and groups to the right. */
  lemma {:induction false} Conditionals(p: Operator, i: nat, a: string, b: string, c: string, d: string, e: string)
    requires InClass(p, i)
    ensures Parse(0, [Id(a), Sign(p), Id(b), Question, Id(c), Colon, Id(d)])
         == Parsed(Some(Ternary(Binary(p, Name(a), Name(b)), Name(c), Name(d))), [])
    ensures Parse(0, [Id(a), Question, Id(b), Colon, Id(c), Sign(p), Id(d)])
         == Parsed(Some(Ternary(Name(a), Name(b), Binary(p, Name(c), Name(d)))), [])
    ensures Parse(0, [Id(a), Question, Id(b), Colon, Id(c), Question, Id(d), Colon, Id(e)])
         == Parsed(Some(Ternary(Name(a), Name(b), Ternary(Name(c), Name(d), Name(e)))), [])
    ensures Parse(0, [NotSign, Id(a), Question, Id(b), Colon, Id(c)])
         == Parsed(Some(Ternary(Not(Name(a)), Name(b), Name(c))), [])
  {
    hide Parse, Print, InClass;
    PrintPair(p, i, a, b, 1);
    PrintPair(p, i, c, d, 0);
    PrintName(a, 1);
    PrintName(c, 1);
    PrintName(a, NOT_LEVEL);
    PrintName(b, 0);
    PrintName(c, 0);
    PrintName(d, 0);
    PrintName(e, 0);
    PrintPrefix(Name(a), 1);
    PrintTernary(Binary(p, Name(a), Name(b)), Name(c), Name(d));
    PrintTernary(Name(a), Name(b), Binary(p, Name(c), Name(d)));
    PrintTernary(Name(c), Name(d), Name(e));
    PrintTernary(Name(a), Name(b), Ternary(Name(c), Name(d), Name(e)));
    PrintTernary(Not(Name(a)), Name(b), Name(c));
    Reads(Ternary(Binary(p, Name(a), Name(b)), Name(c), Name(d)), [Id(a), Sign(p), Id(b), Question, Id(c), Colon, Id(d)]);
    Reads(Ternary(Name(a), Name(b), Binary(p, Name(c), Name(d))), [Id(a), Question, Id(b), Colon, Id(c), Sign(p), Id(d)]);
    Reads(Ternary(Name(a), Name(b), Ternary(Name(c), Name(d), Name(e))),
          [Id(a), Question, Id(b), Colon, Id(c), Question, Id(d), Colon, Id(e)]);
    Reads(Ternary(Not(Name(a)), Name(b), Name(c)), [NotSign, Id(a), Question, Id(b), Colon, Id(c)]);
  }

  // ----- parentheses -----

  /** Parentheses group whatever the operators are. */
  lemma {:induction false} Parenthesised(p: Operator, q: Operator, i: nat, j: nat, a: string, b: string, c: string)
    requires InClass(p, i) && InClass(q, j)
    ensures Parse(0, [Id(a), Sign(p), LeftParen, Id(b), Sign(q), Id(c), RightParen])
         == Parsed(Some(Binary(p, Name(a), Binary(q, Name(b), Name(c)))), [])
    ensures Parse(0, [LeftParen, Id(a), Sign(p), Id(b), RightParen, Sign(q), Id(c)])
         == Parsed(Some(Binary(q, Binary(p, Name(a), Name(b)), Name(c))), [])
  {
    hide *;
    ParenSecond(p, q, i, j, a, b, c);
    ParenFirst(p, q, i, j, a, b, c);
  }

  lemma {:induction false} Enclosed(p: Operator, i: nat, a: string, b: string, more: seq<Token>)
    requires InClass(p, i)
    ensures Parse(CONSTANT_LEVEL, [LeftParen, Id(a), Sign(p), Id(b), RightParen] + more)
         == Parsed(Some(Binary(p, Name(a), Name(b))), more)
  {
    hide Parse, Print, InClass;
    PrintPair(p, i, a, b, 0);
    var inner := [Id(a), Sign(p), Id(b)] + ([RightParen] + more);
    StopsAtClosing(0, [RightParen], more);
    ParsePrint(Binary(p, Name(a), Name(b)), 0, [RightParen] + more);
    assert [LeftParen, Id(a), Sign(p), Id(b), RightParen] + more == [LeftParen] + inner;
    ParseParens(inner, Binary(p, Name(a), Name(b)), more);
  }

  lemma {:induction false} ParenSecond(p: Operator, q: Operator, i: nat, j: nat, a: string, b: string, c: string)
    requires InClass(p, i) && InClass(q, j)
    ensures Parse(0, [Id(a), Sign(p), LeftParen, Id(b), Sign(q), Id(c), RightParen])
         == Parsed(Some(Binary(p, Name(a), Binary(q, Name(b), Name(c)))), [])
  {
    Operands(p, i);
    var n := LevelOf(i);
    var inner := [LeftParen, Id(b), Sign(q), Id(c), RightParen];
    var ts := [Id(a), Sign(p), LeftParen, Id(b), Sign(q), Id(c), RightParen];
    assert ContinuesAt(Sign(p)) == Some(n) && ts == [Id(a)] + ([Sign(p)] + inner) && inner + [] == inner;
    assert ContinuesAt(End) == None && Stops(n, []);
    hide Parse, Continue, ContinuesAt, Level, InClass, LeftOperand, RightOperand, LeftLevel, Stops;
    Enclosed(q, j, b, c, []);
    Ascends(RightOperand(p), CONSTANT_LEVEL, inner, Binary(q, Name(b), Name(c)), []);
    Joined(p, n, a, inner, Binary(q, Name(b), Name(c)), ts);
  }

  /** A name, an operator and an operand that ends the tokens. */
  lemma {:induction false} Joined(p: Operator, n: nat, a: string, inner: seq<Token>, e: Expr, ts: seq<Token>)
    requires n == Level(p) && ts == [Id(a)] + ([Sign(p)] + inner) && Parse(RightOperand(p), inner) == Parsed(Some(e), [])
    ensures Parse(0, ts) == Parsed(Some(Binary(p, Name(a), e)), [])
  {
    LevelFacts(p);
    assert ContinuesAt(Sign(p)) == Some(n) && ContinuesAt(End) == None && Stops(n, []) && Head(ts) == Id(a);
    hide Parse, Continue, ContinuesAt, Level, LeftLevel, RightOperand, Stops;
    ParseName(a, [Sign(p)] + inner);
    Ascends(n + 1, CONSTANT_LEVEL, ts, Name(a), [Sign(p)] + inner);
    Descend(n, ts, Name(a), [Sign(p)] + inner);
    ContinueSign(Name(a), p, inner, e, []);
    ContinueStops(n, Binary(p, Name(a), e), []);
    Ascends(0, n, ts, Binary(p, Name(a), e), []);
  }

  lemma {:induction false} ParenFirst(p: Operator, q: Operator, i: nat, j: nat, a: string, b: string, c: string)
    requires InClass(p, i) && InClass(q, j)
    ensures Parse(0, [LeftParen, Id(a), Sign(p), Id(b), RightParen, Sign(q), Id(c)])
         == Parsed(Some(Binary(q, Binary(p, Name(a), Name(b)), Name(c))), [])
  {
    Operands(q, j);
    var n, e := LevelOf(j), Binary(p, Name(a), Name(b));
    var ts := [LeftParen, Id(a), Sign(p), Id(b), RightParen, Sign(q), Id(c)];
    var more := [Sign(q)] + [Id(c)];
    assert ContinuesAt(Sign(q)) == Some(n) && ContinuesAt(End) == None && Stops(n, []);
    assert ts == [LeftParen, Id(a), Sign(p), Id(b), RightParen] + more && [Id(c)] + [] == [Id(c)];
    hide Parse, Continue, ContinuesAt, Level, InClass, LeftOperand, RightOperand, LeftLevel, Stops;
    Enclosed(p, i, a, b, more);
    Ascends(n + 1, CONSTANT_LEVEL, ts, e, more);
    ParseName(c, []);
    Ascends(RightOperand(q), CONSTANT_LEVEL, [Id(c)], Name(c), []);
    Descend(n, ts, e, more);
    ContinueSign(e, q, [Id(c)], Name(c), []);
    ContinueStops(n, Binary(q, e, Name(c)), []);
    Ascends(0, n, ts, Binary(q, e, Name(c)), []);
  }

  // ----- operators in parentheses -----

  /** An expression does not begin with `..`. */
  lemma {:induction false} RangeBegins(n: nat, ts: seq<Token>)
    requires n <= CONSTANT_LEVEL && Head(ts) == Sign(Range)
    ensures Parse(n, ts) == if n <= 7 then Failed(NoLeft) else Parsed(None, ts)
    decreases CONSTANT_LEVEL - n
  {
    if n < CONSTANT_LEVEL {
      RangeBegins(n + 1, ts);
    }
  }

  /** Every operator but `..` alone in parentheses is an operator name, and so are `not`, `[]` and `()`. */
  lemma {:induction false} OperatorNames(op: Operator, more: seq<Token>)
    ensures Parse(CONSTANT_LEVEL, [LeftParen, Sign(op), RightParen] + more) == Failed(Outside) <==>
              op in {Concat, Exp, Plus, Minus, Div, Mul, Mod, Eq, Neq, Bt, Lt, Beq, Leq, ShortAnd, ShortOr, And, Or, Xor, In}
    ensures Parse(CONSTANT_LEVEL, [LeftParen, NotSign, RightParen] + more) == Failed(Outside)
    ensures Parse(CONSTANT_LEVEL, [LeftParen, LeftSquare, RightSquare] + more) == Failed(Outside)
    ensures Parse(CONSTANT_LEVEL, [LeftParen, LeftParen, RightParen] + more) == Failed(Outside)
  {
    Operation(Sign(op), RightParen, more);
    Operation(NotSign, RightParen, more);
    Operation(LeftSquare, RightSquare, more);
    Operation(LeftParen, RightParen, more);
    RangeBegins(0, [Sign(Range), RightParen] + more);
  }

  /** What a parenthesis does with the two tokens behind it. */
  lemma Operation(t: Token, t': Token, more: seq<Token>)
    ensures Parse(CONSTANT_LEVEL, [LeftParen, t, t'] + more) ==
            if OperatorName([t, t'] + more) then Failed(Outside)
            else match Need(Parse(0, [t, t'] + more))
                 case Failed(x) => Failed(x)
                 case Parsed(e, rest) => if Head(rest) != RightParen then Failed(MissingRightParen) else Parsed(e, rest[1..])
  {
    hide OperatorName;
    assert ([LeftParen, t, t'] + more)[1..] == [t, t'] + more;
  }
}
