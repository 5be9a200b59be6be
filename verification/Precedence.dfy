/** The precedence cascade of expressions (`Parser::ternary_if` down to `Parser::constant` in
    frontend/parser.cpp) against a printer that writes only the parentheses that are needed. The
    fragment: identifiers, operators, the conditional, subscripts and parentheses, without
    whitespace, newline and comma tokens. Level 0 is the conditional, level 14 a constant. */
module Precedence {
  import opened Lists

  datatype Operator =
    | ShortAnd | ShortOr | And | Or | Xor | Eq | Neq | Leq | Beq | Lt | Bt | In | Range
    | Concat | Plus | Minus | Div | Mul | Mod | Exp

  /** `End` stands for the end of the file and is not stored. */
  datatype Token =
    | Id(name: string) | Sign(op: Operator) | NotSign
    | LeftParen | RightParen | LeftSquare | RightSquare | Question | Colon | End

  datatype Expr =
    | Name(name: string)
    | Binary(op: Operator, left: Expr, right: Expr)
    | Not(x: Expr)
    | Neg(x: Expr)
    | Ternary(cond: Expr, yes: Expr, no: Expr)
    | Index(x: Expr, index: Expr)

  /** `Outside` stands for calls, list literals and operator names, which are not part of this model. */
  datatype ParseError = ExprExpected | NoLeft | MissingColon | MissingRightParen | MissingRightSquare | Outside

  datatype Parsed = Parsed(e: Option<Expr>, rest: seq<Token>) | Failed(error: ParseError)

  const NOT_LEVEL: nat := 3
  const EXP_LEVEL: nat := 11
  const UNARY_LEVEL: nat := 12
  const ACCESS_LEVEL: nat := 13
  const CONSTANT_LEVEL: nat := 14

  function Level(op: Operator): nat {
    match op
    case ShortAnd => 1
    case ShortOr => 1
    case And => 2
    case Or => 2
    case Xor => 2
    case Eq => 4
    case Neq => 4
    case Leq => 5
    case Beq => 5
    case Lt => 5
    case Bt => 5
    case In => 6
    case Range => 7
    case Concat => 8
    case Plus => 9
    case Minus => 9
    case Mul => 10
    case Div => 10
    case Mod => 10
    case Exp => 11
  }

  /** The operators that loop to the left. */
  predicate LeftLevel(n: nat) {
    n == 1 || n == 2 || n == 4 || n == 5 || n == 8 || n == 9 || n == 10
  }

  /** The level at which a token continues an expression, if it does. */
  function ContinuesAt(t: Token): Option<nat> {
    match t
    case Question => Some(0)
    case Sign(op) => Some(Level(op))
    case LeftSquare => Some(13)
    case LeftParen => Some(13)
    case _ => None
  }

  function Head(ts: seq<Token>): Token {
    if ts == [] then End else ts[0]
  }

  // ----- what the cascade computes -----

  function Need(r: Parsed): Parsed {
    if r.Parsed? && r.e.None? then Failed(ExprExpected) else r
  }

  /** The expression after a prefix operator. */
  function Wrap(r: Parsed, negated: bool): Parsed {
    match Need(r)
    case Failed(x) => Failed(x)
    case Parsed(e, rest) => Parsed(Some(if negated then Not(e.value) else Neg(e.value)), rest)
  }

  function Parse(n: nat, ts: seq<Token>): (r: Parsed)
    requires n <= CONSTANT_LEVEL
    ensures r.Parsed? ==> |r.rest| <= |ts| && (r.e.Some? ==> |r.rest| < |ts|)
    decreases |ts|, 2 * (16 - n)
  {
    if n == CONSTANT_LEVEL then Constant(ts)
    else if n == NOT_LEVEL && Head(ts) == NotSign then Wrap(Parse(NOT_LEVEL, ts[1..]), true)
    else if n == UNARY_LEVEL && Head(ts) == Sign(Minus) then Wrap(Parse(UNARY_LEVEL, ts[1..]), false)
    else if n == UNARY_LEVEL && Head(ts) == Sign(Plus) then Need(Parse(UNARY_LEVEL, ts[1..]))
    else
      match Parse(n + 1, ts)
      case Failed(x) => Failed(x)
      case Parsed(e, rest) => Continue(n, e, rest)
  }

  /** What follows an expression at level `n`. */
  function Continue(n: nat, e: Option<Expr>, ts: seq<Token>): (r: Parsed)
    requires n <= CONSTANT_LEVEL
    ensures r.Parsed? ==> |r.rest| <= |ts|
    ensures r.Parsed? && r.e.Some? && e.None? ==> |r.rest| < |ts|
    decreases |ts|, 2 * (16 - n) - 1
  {
    if ContinuesAt(Head(ts)) != Some(n) then Parsed(e, ts)
    else if e.None? then Failed(NoLeft)
    else if n == 0 then Conditional(e.value, ts[1..])
    else if n == ACCESS_LEVEL then
      if ts[0] == LeftParen then Failed(Outside)
      else
        match Need(Parse(0, ts[1..]))
        case Failed(x) => Failed(x)
        case Parsed(i, rest) =>
          if Head(rest) != RightSquare then Failed(MissingRightSquare)
          else Continue(n, Some(Index(e.value, i.value)), rest[1..])
    else
      match Need(Parse(if n == EXP_LEVEL then n else n + 1, ts[1..]))
      case Failed(x) => Failed(x)
      case Parsed(right, rest) =>
        var both := Some(Binary(ts[0].op, e.value, right.value));
        if LeftLevel(n) || n == EXP_LEVEL then Continue(n, both, rest) else Parsed(both, rest)
  }

  /** The two branches of a conditional. */
  function Conditional(cond: Expr, ts: seq<Token>): (r: Parsed)
    ensures r.Parsed? ==> |r.rest| <= |ts|
    decreases |ts|, 40
  {
    match Need(Parse(0, ts))
    case Failed(x) => Failed(x)
    case Parsed(yes, rest) =>
      if Head(rest) != Colon then Failed(MissingColon)
      else
        match Need(Parse(0, rest[1..]))
        case Failed(x) => Failed(x)
        case Parsed(no, rest') => Parsed(Some(Ternary(cond, yes.value, no.value)), rest')
  }

  /** An operator and a closing parenthesis, or one of the two operators of two brackets. */
  predicate OperatorName(ts: seq<Token>) {
    && |ts| >= 2
    && (((ts[0].Sign? || ts[0] == NotSign) && ts[0] != Sign(Range) && ts[1] == RightParen)
        || (ts[0] == LeftSquare && ts[1] == RightSquare)
        || (ts[0] == LeftParen && ts[1] == RightParen))
  }

  function Constant(ts: seq<Token>): (r: Parsed)
    ensures r.Parsed? ==> |r.rest| <= |ts| && (r.e.Some? ==> |r.rest| < |ts|)
    decreases |ts|, 0
  {
    match Head(ts)
    case Id(n) => Parsed(Some(Name(n)), ts[1..])
    case LeftSquare => Failed(Outside)
    case LeftParen =>
      if OperatorName(ts[1..]) then Failed(Outside)
      else
        (match Need(Parse(0, ts[1..]))
         case Failed(x) => Failed(x)
         case Parsed(e, rest) => if Head(rest) != RightParen then Failed(MissingRightParen) else Parsed(e, rest[1..]))
    case _ => Parsed(None, ts)
  }

  // ----- the printer -----

  function Prec(e: Expr): nat {
    match e
    case Name(_) => CONSTANT_LEVEL
    case Binary(op, _, _) => Level(op)
    case Not(_) => NOT_LEVEL
    case Neg(_) => UNARY_LEVEL
    case Ternary(_, _, _) => 0
    case Index(_, _) => ACCESS_LEVEL
  }

  function LeftOperand(op: Operator): nat {
    if LeftLevel(Level(op)) then Level(op) else Level(op) + 1
  }

  function RightOperand(op: Operator): nat {
    if op == Exp then Level(op) else Level(op) + 1
  }

  function Body(e: Expr): seq<Token>
    decreases e, 0
  {
    match e
    case Name(n) => [Id(n)]
    case Binary(op, l, r) => Print(l, LeftOperand(op)) + ([Sign(op)] + Print(r, RightOperand(op)))
    case Not(x) => [NotSign] + Print(x, NOT_LEVEL)
    case Neg(x) => [Sign(Minus)] + Print(x, UNARY_LEVEL)
    case Ternary(c, t, f) => Print(c, 1) + ([Question] + (Print(t, 0) + ([Colon] + Print(f, 0))))
    case Index(x, i) => Print(x, ACCESS_LEVEL) + ([LeftSquare] + (Print(i, 0) + [RightSquare]))
  }

  /** An expression where level `n` is expected: in parentheses only when it binds more weakly. */
  function Print(e: Expr, n: nat): seq<Token>
    decreases e, 1
  {
    if Prec(e) < n then [LeftParen] + (Body(e) + [RightParen]) else Body(e)
  }

  // ----- parsing what was printed -----

  /** The next token does not continue an expression of level `n`. */
  predicate Stops(n: nat, more: seq<Token>) {
    var c := ContinuesAt(Head(more));
    c.Some? ==> c.value < n
  }

  /** Which token can begin an expression where level `n` is expected. */
  predicate Begins(t: Token, n: nat) {
    t.Id? || t == LeftParen || (t == NotSign && n <= NOT_LEVEL) || (t == Sign(Minus) && n <= UNARY_LEVEL)
  }

  lemma {:induction false} PrintBegins(e: Expr, n: nat)
    requires n <= CONSTANT_LEVEL
    ensures Print(e, n) != [] && Begins(Print(e, n)[0], n)
    ensures Print(e, n)[0].Id? || (|Print(e, n)| >= 2 && Print(e, n)[1] != RightParen)
    decreases e, if Prec(e) < n then 1 else 0
  {
    if Prec(e) < n {
      PrintBegins(e, 0);
      assert Print(e, n)[1] == Body(e)[0];
    } else {
      match e
      case Name(_) =>
      case Binary(op, l, r) =>
        PrintBegins(l, LeftOperand(op));
        PrintBegins(r, RightOperand(op));
      case Not(x) => PrintBegins(x, NOT_LEVEL);
      case Neg(x) => PrintBegins(x, UNARY_LEVEL);
      case Ternary(c, t, f) => PrintBegins(c, 1);
      case Index(x, i) => PrintBegins(x, ACCESS_LEVEL);
    }
  }

  // ----- one step of the parser -----

  lemma {:induction false} Descend(n: nat, ts: seq<Token>, e: Expr, rest: seq<Token>)
    requires n < CONSTANT_LEVEL && Parse(n + 1, ts) == Parsed(Some(e), rest)
    requires n == NOT_LEVEL ==> Head(ts) != NotSign
    requires n == UNARY_LEVEL ==> Head(ts) != Sign(Minus) && Head(ts) != Sign(Plus)
    ensures Parse(n, ts) == Continue(n, Some(e), rest)
  {
    hide Continue, Wrap, Need, Constant;
  }

  lemma {:induction false} ContinueStops(n: nat, e: Expr, ts: seq<Token>)
    requires n <= CONSTANT_LEVEL && Stops(n, ts)
    ensures Continue(n, Some(e), ts) == Parsed(Some(e), ts)
  {
    hide Conditional, Parse;
  }

  lemma {:induction false} ContinueSign(e: Expr, op: Operator, ts: seq<Token>, r: Expr, rest: seq<Token>)
    requires Parse(RightOperand(op), ts) == Parsed(Some(r), rest)
    ensures Continue(Level(op), Some(e), [Sign(op)] + ts)
         == if LeftLevel(Level(op)) || op == Exp then Continue(Level(op), Some(Binary(op, e, r)), rest)
            else Parsed(Some(Binary(op, e, r)), rest)
  {
    hide Conditional, Parse;
    assert ([Sign(op)] + ts)[1..] == ts;
  }

  lemma {:induction false} ContinueIndex(e: Expr, ts: seq<Token>, i: Expr, rest: seq<Token>)
    requires Parse(0, ts) == Parsed(Some(i), [RightSquare] + rest)
    ensures Continue(ACCESS_LEVEL, Some(e), [LeftSquare] + ts) == Continue(ACCESS_LEVEL, Some(Index(e, i)), rest)
  {
    hide Conditional, Parse;
    assert ([LeftSquare] + ts)[1..] == ts && ([RightSquare] + rest)[1..] == rest;
  }

  lemma {:induction false} ContinueTernary(c: Expr, ts: seq<Token>, t: Expr, ts': seq<Token>, f: Expr, rest: seq<Token>)
    requires Parse(0, ts) == Parsed(Some(t), [Colon] + ts') && Parse(0, ts') == Parsed(Some(f), rest)
    ensures Continue(0, Some(c), [Question] + ts) == Parsed(Some(Ternary(c, t, f)), rest)
  {
    hide Parse;
    assert ([Question] + ts)[1..] == ts && ([Colon] + ts')[1..] == ts';
  }

  lemma {:induction false} ParsePrefix(negated: bool, ts: seq<Token>, x: Expr, rest: seq<Token>)
    requires Parse(if negated then NOT_LEVEL else UNARY_LEVEL, ts) == Parsed(Some(x), rest)
    ensures negated ==> Parse(NOT_LEVEL, [NotSign] + ts) == Parsed(Some(Not(x)), rest)
    ensures !negated ==> Parse(UNARY_LEVEL, [Sign(Minus)] + ts) == Parsed(Some(Neg(x)), rest)
  {
    hide Continue, Constant;
    assert ([NotSign] + ts)[1..] == ts && ([Sign(Minus)] + ts)[1..] == ts;
  }

  lemma {:induction false} ParseParens(ts: seq<Token>, e: Expr, rest: seq<Token>)
    requires !OperatorName(ts) && Parse(0, ts) == Parsed(Some(e), [RightParen] + rest)
    ensures Parse(CONSTANT_LEVEL, [LeftParen] + ts) == Parsed(Some(e), rest)
  {
    hide Continue, Wrap;
    assert ([LeftParen] + ts)[1..] == ts && ([RightParen] + rest)[1..] == rest;
  }

  lemma {:induction false} ParseName(n: string, rest: seq<Token>)
    ensures Parse(CONSTANT_LEVEL, [Id(n)] + rest) == Parsed(Some(Name(n)), rest)
  {
    assert ([Id(n)] + rest)[1..] == rest;
  }

  // ----- the round trip -----

  function Rank(e: Expr, n: nat): nat {
    if Prec(e) < n then 1 else 0
  }

  lemma {:induction false} PrintSame(e: Expr, n: nat)
    requires Prec(e) != n
    ensures Print(e, n) == Print(e, n + 1)
  {}

  /** Parsing a printed expression gives the expression and consumes exactly its tokens. */
  lemma {:induction false} ParsePrint(e: Expr, n: nat, more: seq<Token>)
    requires n <= CONSTANT_LEVEL && Stops(n, more)
    ensures Parse(n, Print(e, n) + more) == Parsed(Some(e), more)
    decreases e, Rank(e, n), 15 - n, 2
  {
    PrecBound(e);
    BodySmall(e);
    hide Parse, Continue, Print, Body, Level, LeftLevel, ContinuesAt;
    if Prec(e) != n {
      if n == CONSTANT_LEVEL {
        ParenPrint(e, more);
      } else {
        PrintSame(e, n);
        PrintBegins(e, n + 1);
        ParsePrint(e, n + 1, more);
        Descend(n, Print(e, n) + more, e, more);
        ContinueStops(n, e, more);
      }
    } else {
      BodyPrint(e, n);
      match e
      case Name(name) => ParseName(name, more);
      case Binary(op, l, r) => BinaryPrint(op, l, r, more);
      case Not(x) =>
        ParsePrint(x, NOT_LEVEL, more);
        Regroup([NotSign], Print(x, NOT_LEVEL), more);
        ParsePrefix(true, Print(x, NOT_LEVEL) + more, x, more);
      case Neg(x) =>
        ParsePrint(x, UNARY_LEVEL, more);
        Regroup([Sign(Minus)], Print(x, UNARY_LEVEL), more);
        ParsePrefix(false, Print(x, UNARY_LEVEL) + more, x, more);
      case Ternary(c, t, f) => TernaryPrint(c, t, f, more);
      case Index(x, i) =>
        LeftChain(e, n, more);
        ContinueStops(n, e, more);
    }
  }

  lemma {:induction false} BodyPrint(e: Expr, n: nat)
    requires n <= Prec(e)
    ensures Print(e, n) == Body(e)
  {}

  lemma {:induction false} PrecBound(e: Expr)
    ensures Prec(e) <= CONSTANT_LEVEL
  {}

  lemma {:induction false} BodySmall(e: Expr)
    ensures e.Name? ==> Body(e) == [Id(e.name)]
    ensures e.Not? ==> Body(e) == [NotSign] + Print(e.x, NOT_LEVEL)
    ensures e.Neg? ==> Body(e) == [Sign(Minus)] + Print(e.x, UNARY_LEVEL)
  {}

  lemma {:induction false} ParenPrint(e: Expr, more: seq<Token>)
    requires Prec(e) < CONSTANT_LEVEL
    ensures Parse(CONSTANT_LEVEL, Print(e, CONSTANT_LEVEL) + more) == Parsed(Some(e), more)
    decreases e, 1, 1, 0
  {
    hide Parse, Continue, Body, Level, LeftLevel, OperatorName;
    var close := [RightParen] + more;
    BodyPrint(e, 0);
    StopsAtClosing(0, [RightParen], more);
    ParsePrint(e, 0, close);
    Regroup(Body(e), [RightParen], more);
    Regroup([LeftParen], Body(e) + [RightParen], more);
    NoOperatorName(e, close);
    ParseParens(Print(e, 0) + close, e, more);
  }

  /** An expression in parentheses is never taken for the name of an operator. */
  lemma {:induction false} NoOperatorName(e: Expr, more: seq<Token>)
    ensures !OperatorName(Print(e, 0) + more)
  {
    hide Print, Body;
    PrintBegins(e, 0);
    var ts := Print(e, 0) + more;
    assert ts[0] == Print(e, 0)[0];
    assert |Print(e, 0)| >= 2 ==> ts[1] == Print(e, 0)[1];
  }

  lemma {:induction false} StopsAtClosing(n: nat, t: seq<Token>, more: seq<Token>)
    requires t == [RightParen] || t == [RightSquare] || t == [Colon]
    ensures Stops(n, t + more)
  {}

  lemma {:induction false} StopsAtSign(op: Operator, n: nat, more: seq<Token>)
    requires Level(op) < n
    ensures Stops(n, [Sign(op)] + more)
  {}

  lemma {:induction false} StopsHigher(n: nat, m: nat, more: seq<Token>)
    requires Stops(n, more) && n <= m
    ensures Stops(m, more)
  {}

  lemma {:induction false} LevelFacts(op: Operator)
    ensures 1 <= Level(op) <= EXP_LEVEL && Level(op) != NOT_LEVEL
    ensures Level(op) == EXP_LEVEL <==> op == Exp
    ensures LeftLevel(Level(op)) ==> Level(op) < EXP_LEVEL
    ensures LeftOperand(op) == if LeftLevel(Level(op)) then Level(op) else Level(op) + 1
    ensures RightOperand(op) == if op == Exp then Level(op) else Level(op) + 1
  {}

  lemma {:induction false} BinaryPrint(op: Operator, l: Expr, r: Expr, more: seq<Token>)
    requires Stops(Level(op), more)
    ensures Parse(Level(op), Body(Binary(op, l, r)) + more) == Parsed(Some(Binary(op, l, r)), more)
    decreases Binary(op, l, r), 0, 15 - Level(op), 1
  {
    var e := Binary(op, l, r);
    var n := Level(op);
    LevelFacts(op);
    assert n + 1 <= CONSTANT_LEVEL && RightOperand(op) <= CONSTANT_LEVEL;
    assert n < CONSTANT_LEVEL && n != NOT_LEVEL && n != UNARY_LEVEL;
    assert Rank(e, n) == 0 && Prec(e) == n;
    StopsHigher(n, n + 1, more);
    hide *;
    if LeftLevel(n) {
      LeftChain(e, n, more);
      BodyPrint(e, n);
      ContinueStops(n, e, more);
    } else {
      var right := Print(r, RightOperand(op));
      BodyBinary(op, l, r, more);
      StopsAtSign(op, n + 1, right + more);
      ParsePrint(l, n + 1, [Sign(op)] + (right + more));
      Descend(n, Print(l, n + 1) + ([Sign(op)] + (right + more)), l, [Sign(op)] + (right + more));
      StopsHigher(n, RightOperand(op), more);
      ParsePrint(r, RightOperand(op), more);
      ContinueSign(l, op, right + more, r, more);
      ContinueStops(n, e, more);
    }
  }

  lemma {:induction false} BodyBinary(op: Operator, l: Expr, r: Expr, more: seq<Token>)
    ensures Body(Binary(op, l, r)) + more == Print(l, LeftOperand(op)) + ([Sign(op)] + (Print(r, RightOperand(op)) + more))
  {
    hide Print;
    var left, right := Print(l, LeftOperand(op)), Print(r, RightOperand(op));
    Regroup(left, [Sign(op)] + right, more);
    Regroup([Sign(op)], right, more);
  }

  lemma {:induction false} TernaryPrint(c: Expr, t: Expr, f: Expr, more: seq<Token>)
    requires Stops(0, more)
    ensures Parse(0, Body(Ternary(c, t, f)) + more) == Parsed(Some(Ternary(c, t, f)), more)
    decreases Ternary(c, t, f), 0, 15, 1
  {
    var no := Print(f, 0) + more;
    var yes := Print(t, 0) + ([Colon] + no);
    BodyTernary(c, t, f, more);
    assert Stops(1, [Question] + yes);
    hide *;
    ParsePrint(f, 0, more);
    StopsAtClosing(0, [Colon], no);
    ParsePrint(t, 0, [Colon] + no);
    ParsePrint(c, 1, [Question] + yes);
    Descend(0, Print(c, 1) + ([Question] + yes), c, [Question] + yes);
    ContinueTernary(c, yes, t, no, f, more);
  }

  lemma {:induction false} BodyTernary(c: Expr, t: Expr, f: Expr, more: seq<Token>)
    ensures Body(Ternary(c, t, f)) + more
         == Print(c, 1) + ([Question] + (Print(t, 0) + ([Colon] + (Print(f, 0) + more))))
  {
    hide Print;
    var pc, pt, pf := Print(c, 1), Print(t, 0), Print(f, 0);
    Regroup(pc, [Question] + (pt + ([Colon] + pf)), more);
    Regroup([Question], pt + ([Colon] + pf), more);
    Regroup(pt, [Colon] + pf, more);
    Regroup([Colon], pf, more);
  }

  /** At a level that loops to the left, parsing goes on after the expression. */
  lemma {:induction false} LeftChain(e: Expr, n: nat, more: seq<Token>)
    requires (LeftLevel(n) || n == ACCESS_LEVEL) && Stops(n + 1, more)
    ensures Parse(n, Print(e, n) + more) == Continue(n, Some(e), more)
    decreases e, Rank(e, n), 15 - n, 0
  {
    if Prec(e) != n {
      assert n != NOT_LEVEL && n != UNARY_LEVEL;
      assert n < CONSTANT_LEVEL && Rank(e, n + 1) == Rank(e, n);
      PrintSame(e, n);
      hide *;
      ParsePrint(e, n + 1, more);
      Descend(n, Print(e, n) + more, e, more);
    } else {
      BodyPrint(e, n);
      match e
      case Binary(op, l, r) => BinaryChain(op, l, r, more);
      case Index(x, i) => IndexChain(x, i, more);
    }
  }

  lemma {:induction false} BinaryChain(op: Operator, l: Expr, r: Expr, more: seq<Token>)
    requires LeftLevel(Level(op)) && Stops(Level(op) + 1, more)
    ensures Parse(Level(op), Body(Binary(op, l, r)) + more) == Continue(Level(op), Some(Binary(op, l, r)), more)
    decreases Binary(op, l, r), 0, 0, 0
  {
    var n := Level(op);
    LevelFacts(op);
    assert n + 1 <= CONSTANT_LEVEL;
    hide *;
    var right := Print(r, n + 1);
    BodyBinary(op, l, r, more);
    StopsAtSign(op, n + 1, right + more);
    LeftChain(l, n, [Sign(op)] + (right + more));
    ParsePrint(r, n + 1, more);
    ContinueSign(l, op, right + more, r, more);
  }

  lemma {:induction false} IndexChain(x: Expr, i: Expr, more: seq<Token>)
    ensures Parse(ACCESS_LEVEL, Body(Index(x, i)) + more) == Continue(ACCESS_LEVEL, Some(Index(x, i)), more)
    decreases Index(x, i), 0, 0, 0
  {
    var inside := Print(i, 0) + ([RightSquare] + more);
    BodyIndex(x, i, more);
    assert Stops(ACCESS_LEVEL + 1, [LeftSquare] + inside);
    hide *;
    LeftChain(x, ACCESS_LEVEL, [LeftSquare] + inside);
    StopsAtClosing(0, [RightSquare], more);
    ParsePrint(i, 0, [RightSquare] + more);
    ContinueIndex(x, inside, i, more);
  }

  lemma {:induction false} BodyIndex(x: Expr, i: Expr, more: seq<Token>)
    ensures Body(Index(x, i)) + more == Print(x, ACCESS_LEVEL) + ([LeftSquare] + (Print(i, 0) + ([RightSquare] + more)))
  {
    hide Print;
    var px, pi := Print(x, ACCESS_LEVEL), Print(i, 0);
    Regroup(px, [LeftSquare] + (pi + [RightSquare]), more);
    Regroup([LeftSquare], pi + [RightSquare], more);
    Regroup(pi, [RightSquare], more);
  }

  // ----- no shorter text has the same meaning -----

  lemma {:induction false} PrintGrows(e: Expr, n: nat, m: nat)
    requires n <= m
    ensures |Print(e, n)| <= |Print(e, m)| <= |Body(e)| + 2
  {}

  /** The level at which the first operand is expected. */
  function First(n: nat): nat {
    if LeftLevel(n) || n == ACCESS_LEVEL then n else n + 1
  }

  predicate LongEnough(r: Parsed, n: nat, used: nat, ts: seq<Token>)
  {
    r.Parsed? && r.e.Some? ==> used + |ts| - |r.rest| >= |Print(r.e.value, n)|
  }

  /** Whatever parses to an expression is at least as long as the printed expression, so the printer
      writes no parentheses that could be left out. */
  lemma {:induction false} PrintShortest(n: nat, ts: seq<Token>)
    requires n <= CONSTANT_LEVEL
    ensures LongEnough(Parse(n, ts), n, 0, ts)
    decreases |ts|, 2 * (16 - n)
  {
    hide Continue, Print, Body;
    if n == CONSTANT_LEVEL {
      ConstantShortest(ts);
    } else if ts != [] && n == NOT_LEVEL && ts[0] == NotSign {
      PrintShortest(n, ts[1..]);
      PrefixLength(Parse(n, ts[1..]), n);
    } else if ts != [] && n == UNARY_LEVEL && (ts[0] == Sign(Minus) || ts[0] == Sign(Plus)) {
      PrintShortest(n, ts[1..]);
      PrefixLength(Parse(n, ts[1..]), n);
    } else {
      PrintShortest(n + 1, ts);
      var r := Parse(n + 1, ts);
      if r.Parsed? && r.e.Some? {
        PrintGrows(r.e.value, First(n), n + 1);
        ContinueShortest(n, r.e.value, r.rest, |ts| - |r.rest|);
      } else if r.Parsed? {
        ContinueNone(n, r.rest);
      }
    }
  }

  lemma {:induction false} ContinueNone(n: nat, ts: seq<Token>)
    requires n <= CONSTANT_LEVEL
    ensures Continue(n, None, ts).Failed? || Continue(n, None, ts) == Parsed(None, ts)
  {
    hide Parse, Conditional;
  }

  lemma {:induction false} PrefixLength(r: Parsed, n: nat)
    ensures r.Parsed? && r.e.Some? ==>
      |Print(Not(r.e.value), NOT_LEVEL)| == 1 + |Print(r.e.value, NOT_LEVEL)|
      && |Print(Neg(r.e.value), UNARY_LEVEL)| == 1 + |Print(r.e.value, UNARY_LEVEL)|
  {}

  lemma {:induction false} ConstantShortest(ts: seq<Token>)
    ensures LongEnough(Constant(ts), CONSTANT_LEVEL, 0, ts)
    decreases |ts|, 1
  {
    if ts != [] && ts[0].Id? {
      BodySmall(Name(ts[0].name));
      BodyPrint(Name(ts[0].name), CONSTANT_LEVEL);
    } else if ts != [] && ts[0] == LeftParen {
      hide Parse, Print, Body;
      PrintShortest(0, ts[1..]);
      var r := Parse(0, ts[1..]);
      if r.Parsed? && r.e.Some? {
        PrintGrows(r.e.value, 0, CONSTANT_LEVEL);
        BodyPrint(r.e.value, 0);
      }
    }
  }

  lemma {:induction false} ContinueShortest(n: nat, e: Expr, ts: seq<Token>, used: nat)
    requires n < CONSTANT_LEVEL && used >= |Print(e, First(n))|
    ensures LongEnough(Continue(n, Some(e), ts), n, used, ts)
    decreases |ts|, 2 * (16 - n) - 1
  {
    if ContinuesAt(Head(ts)) != Some(n) {
      hide Parse, Print;
      PrintGrows(e, n, First(n));
    } else if n == 0 {
      ConditionalShortest(e, ts, used);
    } else if n == ACCESS_LEVEL {
      IndexShortest(e, ts, used);
    } else {
      SignShortest(n, e, ts, used);
    }
  }

  lemma {:induction false} IndexShortest(e: Expr, ts: seq<Token>, used: nat)
    requires ContinuesAt(Head(ts)) == Some(ACCESS_LEVEL) && used >= |Print(e, ACCESS_LEVEL)|
    ensures LongEnough(Continue(ACCESS_LEVEL, Some(e), ts), ACCESS_LEVEL, used, ts)
    decreases |ts|, 0
  {
    hide Parse, Print;
    if ts[0] == LeftSquare {
      PrintShortest(0, ts[1..]);
      var r := Parse(0, ts[1..]);
      if r.Parsed? && r.e.Some? && Head(r.rest) == RightSquare {
        IndexLength(e, r.e.value);
        ContinueShortest(ACCESS_LEVEL, Index(e, r.e.value), r.rest[1..], used + |ts| - |r.rest| + 1);
      }
    }
  }

  lemma {:induction false} IndexLength(e: Expr, i: Expr)
    ensures |Print(Index(e, i), ACCESS_LEVEL)| == |Print(e, ACCESS_LEVEL)| + |Print(i, 0)| + 2
  {}

  lemma {:induction false} ConditionalShortest(e: Expr, ts: seq<Token>, used: nat)
    requires ContinuesAt(Head(ts)) == Some(0) && used >= |Print(e, 1)|
    ensures LongEnough(Continue(0, Some(e), ts), 0, used, ts)
    decreases |ts|, 0
  {
    hide Parse, Print;
    PrintShortest(0, ts[1..]);
    var r := Parse(0, ts[1..]);
    if r.Parsed? && r.e.Some? && Head(r.rest) == Colon {
      PrintShortest(0, r.rest[1..]);
      var r' := Parse(0, r.rest[1..]);
      if r'.Parsed? && r'.e.Some? {
        TernaryLength(e, r.e.value, r'.e.value);
      }
    }
  }

  lemma {:induction false} TernaryLength(c: Expr, t: Expr, f: Expr)
    ensures |Print(Ternary(c, t, f), 0)| == |Print(c, 1)| + |Print(t, 0)| + |Print(f, 0)| + 2
  {}

  lemma {:induction false} SignShortest(n: nat, e: Expr, ts: seq<Token>, used: nat)
    requires 0 < n < ACCESS_LEVEL && ContinuesAt(Head(ts)) == Some(n) && used >= |Print(e, First(n))|
    ensures LongEnough(Continue(n, Some(e), ts), n, used, ts)
    decreases |ts|, 0
  {
    var op := ts[0].op;
    LevelFacts(op);
    hide Parse, Print, Level, LeftLevel;
    var m := RightOperand(op);
    PrintShortest(m, ts[1..]);
    var r := Parse(m, ts[1..]);
    if r.Parsed? && r.e.Some? {
      var both := Binary(op, e, r.e.value);
      BinaryLength(op, e, r.e.value);
      if LeftLevel(n) {
        ContinueShortest(n, both, r.rest, used + |ts| - |r.rest|);
      } else if op == Exp {
        ExpStops(ts[1..]);
      }
    }
  }

  lemma {:induction false} BinaryLength(op: Operator, l: Expr, r: Expr)
    ensures |Print(Binary(op, l, r), Level(op))| == |Print(l, First(Level(op)))| + |Print(r, RightOperand(op))| + 1
  {}

  /** The right operand of `^` takes every `^` that follows, so that loop never goes round twice. */
  lemma {:induction false} ExpStops(ts: seq<Token>)
    ensures Parse(EXP_LEVEL, ts).Parsed? ==> ContinuesAt(Head(Parse(EXP_LEVEL, ts).rest)) != Some(EXP_LEVEL)
    decreases |ts|, 1
  {
    hide Constant, Conditional;
    var r := Parse(EXP_LEVEL + 1, ts);
    if r.Parsed? {
      ContinueExpStops(r.e, r.rest);
    }
  }

  lemma {:induction false} ContinueExpStops(e: Option<Expr>, ts: seq<Token>)
    ensures var r := Continue(EXP_LEVEL, e, ts);
            r.Parsed? ==> ContinuesAt(Head(r.rest)) != Some(EXP_LEVEL)
    decreases |ts|, 0
  {
    hide Parse, Conditional;
    if ContinuesAt(Head(ts)) == Some(EXP_LEVEL) && e.Some? {
      var r := Parse(EXP_LEVEL, ts[1..]);
      if r.Parsed? && r.e.Some? {
        ContinueExpStops(Some(Binary(ts[0].op, e.value, r.e.value)), r.rest);
      }
    }
  }
}
