/** The expression parser itself: the methods of `Parser` in frontend/parser.cpp move an index over the
    token list and loop over operators; they compute what module Precedence describes, so they undo
    the printer and always terminate. */
module ExprParser {
  import opened Lists
  import opened Precedence

  type Answer = Result<Option<Expr>, ParseError>

  class Parser {
    const tokens: seq<Token>
    var curr: nat

    predicate Valid()
      reads this
    {
      curr <= |tokens| && End !in tokens
    }

    function Rest(): seq<Token>
      reads this
      requires Valid()
    {
      tokens[curr..]
    }

    ghost predicate Gives(p: Parsed, r: Answer)
      reads this
      requires Valid()
    {
      match p
      case Failed(x) => r == Err(x)
      case Parsed(e, rest) => r == Ok(e) && Rest() == rest
    }

    constructor (ts: seq<Token>)
      requires End !in ts
      ensures Valid() && tokens == ts && curr == 0
    {
      tokens, curr := ts, 0;
    }

    function Peek(): Token
      reads this
      requires Valid()
      ensures Peek() == Head(Rest())
    {
      if curr == |tokens| then End else tokens[curr]
    }

    /** `check` and `advance`. */
    method Match(t: Token) returns (matched: bool)
      requires Valid() && t != End
      modifies this`curr
      ensures Valid() && matched == (Head(old(Rest())) == t)
      ensures matched ==> old(Rest()) != [] && Rest() == old(Rest())[1..] && curr == old(curr) + 1
      ensures !matched ==> curr == old(curr)
    {
      matched := Peek() == t;
      if matched {
        curr := curr + 1;
      }
    }

    method Advance()
      requires Valid() && Rest() != []
      modifies this`curr
      ensures Valid() && Rest() == old(Rest())[1..] && curr == old(curr) + 1
    {
      curr := curr + 1;
    }

    /** The method of level `n`. */
    method ParseLevel(n: nat) returns (r: Answer)
      requires Valid() && n <= CONSTANT_LEVEL
      modifies this`curr
      ensures Valid() && Gives(Parse(n, old(Rest())), r) && curr >= old(curr)
      decreases |tokens| - curr, 2 * (16 - n)
    {
      hide Continue, Parse, Constant;
      if n == 0 {
        r := TernaryIf();
      } else if LeftLevel(n) {
        r := LeftAssociative(n);
      } else if n == NOT_LEVEL {
        r := OpNot();
      } else if n == EXP_LEVEL {
        r := Exponentiation();
      } else if n == UNARY_LEVEL {
        r := UnaryPlusMinus();
      } else if n == ACCESS_LEVEL {
        r := CallAccessSubs();
      } else if n == CONSTANT_LEVEL {
        ConstantStep(Rest());
        r := ParseConstant();
      } else {
        r := NonAssociative(n);
      }
    }

    method TernaryIf() returns (r: Answer)
      requires Valid()
      modifies this`curr
      ensures Valid() && Gives(Parse(0, old(Rest())), r) && curr >= old(curr)
      decreases |tokens| - curr, 31
    {
      hide Continue, Parse, Conditional;
      ParseStep(0, Rest());
      r := ParseLevel(1);
      if r.Err? {
        return;
      }
      ContinueStep(0, r.value, Rest());
      var conditional := Match(Question);
      if conditional {
        if r.value.None? {
          return Err(NoLeft);
        }
        var cond := r.value.value;
        ConditionalStep(cond, Rest());
        r := TernaryIf();
        if r.Err? {
          return;
        }
        if r.value.None? {
          return Err(ExprExpected);
        }
        var yes := r.value.value;
        var colon := Match(Colon);
        if !colon {
          return Err(MissingColon);
        }
        r := TernaryIf();
        if r.Err? {
          return;
        }
        if r.value.None? {
          return Err(ExprExpected);
        }
        r := Ok(Some(Ternary(cond, yes, r.value.value)));
      }
    }

    /** `short_circuit`, `and_or_xor`, `eq_neq`, `compare_gl`, `concatenation`, `add_sub` and
        `mul_div_mod`, which differ in their operators and in the method they call. */
    method LeftAssociative(n: nat) returns (r: Answer)
      requires Valid() && LeftLevel(n)
      modifies this`curr
      ensures Valid() && Gives(Parse(n, old(Rest())), r) && curr >= old(curr)
      decreases |tokens| - curr, 2 * (16 - n) - 1
    {
      hide Continue, Parse, Level, LeftLevel, ContinuesAt, Need;
      LeftStart(n, Rest());
      r := ParseLevel(n + 1);
      if r.Err? {
        return;
      }
      var expr := r.value;
      while Peek().Sign? && Level(Peek().op) == n
        invariant Valid() && curr >= old(curr)
        invariant Parse(n, old(Rest())) == Continue(n, expr, Rest())
        decreases |tokens| - curr
      {
        LeftStep(n, expr, Rest());
        var op := Peek().op;
        Advance();
        if expr.None? {
          return Err(NoLeft);
        }
        r := ParseLevel(n + 1);
        if r.Err? {
          return;
        }
        if r.value.None? {
          return Err(ExprExpected);
        }
        expr := Some(Binary(op, expr.value, r.value.value));
      }
      LeftEnd(n, expr, Rest());
      r := Ok(expr);
    }

    /** `membership` and `range`: one operator at most. */
    method NonAssociative(n: nat) returns (r: Answer)
      requires Valid() && (n == Level(In) || n == Level(Range))
      modifies this`curr
      ensures Valid() && Gives(Parse(n, old(Rest())), r) && curr >= old(curr)
      decreases |tokens| - curr, 2 * (16 - n) - 1
    {
      hide Continue, Parse;
      var op := if n == Level(In) then In else Range;
      ParseStep(n, Rest());
      r := ParseLevel(n + 1);
      if r.Err? {
        return;
      }
      var expr := r.value;
      ContinueStep(n, expr, Rest());
      OnlySign(op, Rest());
      var matched := Match(Sign(op));
      if matched {
        if expr.None? {
          return Err(NoLeft);
        }
        r := ParseLevel(n + 1);
        if r.Err? {
          return;
        }
        if r.value.None? {
          return Err(ExprExpected);
        }
        r := Ok(Some(Binary(op, expr.value, r.value.value)));
      }
    }

    method OpNot() returns (r: Answer)
      requires Valid()
      modifies this`curr
      ensures Valid() && Gives(Parse(NOT_LEVEL, old(Rest())), r) && curr >= old(curr)
      decreases |tokens| - curr, 25
    {
      hide Continue, Parse;
      PrefixStep(Rest());
      var negated := Match(NotSign);
      if negated {
        r := OpNot();
        if r.Err? {
          return;
        }
        if r.value.None? {
          return Err(ExprExpected);
        }
        return Ok(Some(Not(r.value.value)));
      }
      ParseStep(NOT_LEVEL, Rest());
      r := ParseLevel(NOT_LEVEL + 1);
      if r.Ok? {
        NothingContinues(NOT_LEVEL, r.value, Rest());
      }
    }

    method Exponentiation() returns (r: Answer)
      requires Valid()
      modifies this`curr
      ensures Valid() && Gives(Parse(EXP_LEVEL, old(Rest())), r) && curr >= old(curr)
      decreases |tokens| - curr, 9
    {
      hide Continue, Parse;
      ParseStep(EXP_LEVEL, Rest());
      r := ParseLevel(EXP_LEVEL + 1);
      if r.Err? {
        return;
      }
      var expr := r.value;
      while Peek() == Sign(Exp)
        invariant Valid() && curr >= old(curr)
        invariant Parse(EXP_LEVEL, old(Rest())) == Continue(EXP_LEVEL, expr, Rest())
        decreases |tokens| - curr
      {
        ContinueStep(EXP_LEVEL, expr, Rest());
        Advance();
        if expr.None? {
          return Err(NoLeft);
        }
        r := Exponentiation();
        if r.Err? {
          return;
        }
        if r.value.None? {
          return Err(ExprExpected);
        }
        expr := Some(Binary(Exp, expr.value, r.value.value));
      }
      OnlySign(Exp, Rest());
      ContinueStep(EXP_LEVEL, expr, Rest());
      r := Ok(expr);
    }

    method UnaryPlusMinus() returns (r: Answer)
      requires Valid()
      modifies this`curr
      ensures Valid() && Gives(Parse(UNARY_LEVEL, old(Rest())), r) && curr >= old(curr)
      decreases |tokens| - curr, 7
    {
      hide Continue, Parse;
      PrefixStep(Rest());
      var minus := Match(Sign(Minus));
      if minus {
        r := UnaryPlusMinus();
        if r.Err? {
          return;
        }
        if r.value.None? {
          return Err(ExprExpected);
        }
        return Ok(Some(Neg(r.value.value)));
      }
      var plus := Match(Sign(Plus));
      if plus {
        r := UnaryPlusMinus();
        if r.Ok? && r.value.None? {
          return Err(ExprExpected);
        }
        return;
      }
      ParseStep(UNARY_LEVEL, Rest());
      r := CallAccessSubs();
      if r.Ok? {
        NothingContinues(UNARY_LEVEL, r.value, Rest());
      }
    }

    method CallAccessSubs() returns (r: Answer)
      requires Valid()
      modifies this`curr
      ensures Valid() && Gives(Parse(ACCESS_LEVEL, old(Rest())), r) && curr >= old(curr)
      decreases |tokens| - curr, 5
    {
      hide Continue, Parse, Constant;
      ParseStep(ACCESS_LEVEL, Rest());
      ConstantStep(Rest());
      r := ParseConstant();
      if r.Err? {
        return;
      }
      var expr := r.value;
      while Peek() == LeftSquare || Peek() == LeftParen
        invariant Valid() && curr >= old(curr)
        invariant Parse(ACCESS_LEVEL, old(Rest())) == Continue(ACCESS_LEVEL, expr, Rest())
        decreases |tokens| - curr
      {
        ContinueStep(ACCESS_LEVEL, expr, Rest());
        var paren := Peek() == LeftParen;
        Advance();
        if expr.None? {
          return Err(NoLeft);
        }
        if paren {
          return Err(Outside);
        }
        r := TernaryIf();
        if r.Err? {
          return;
        }
        if r.value.None? {
          return Err(ExprExpected);
        }
        var index := r.value.value;
        var closed := Match(RightSquare);
        if !closed {
          return Err(MissingRightSquare);
        }
        expr := Some(Index(expr.value, index));
      }
      ContinueStep(ACCESS_LEVEL, expr, Rest());
      OnlyBracket(Rest());
      r := Ok(expr);
    }

    method ParseConstant() returns (r: Answer)
      requires Valid()
      modifies this`curr
      ensures Valid() && Gives(Constant(old(Rest())), r) && curr >= old(curr)
      decreases |tokens| - curr, 3
    {
      hide Parse, OperatorName;
      match Peek() {
        case LeftParen =>
          Advance();
          if OperatorName(Rest()) {
            return Err(Outside);
          }
          r := TernaryIf();
          if r.Err? {
            return;
          }
          if r.value.None? {
            return Err(ExprExpected);
          }
          var expr := r.value;
          var closed := Match(RightParen);
          if !closed {
            return Err(MissingRightParen);
          }
          r := Ok(expr);
        case LeftSquare =>
          r := Err(Outside);
        case Id(n) =>
          Advance();
          r := Ok(Some(Name(n)));
        case _ =>
          r := Ok(None);
      }
    }
  }

  // ----- one step of the specification -----

  lemma {:induction false} ParseStep(n: nat, ts: seq<Token>)
    requires n < CONSTANT_LEVEL
    requires n == NOT_LEVEL ==> Head(ts) != NotSign
    requires n == UNARY_LEVEL ==> Head(ts) != Sign(Minus) && Head(ts) != Sign(Plus)
    ensures Parse(n, ts) == match Parse(n + 1, ts)
                            case Failed(x) => Failed(x)
                            case Parsed(e, rest) => Continue(n, e, rest)
  {
    hide Continue, Wrap, Need, Constant;
  }

  lemma {:induction false} ConstantStep(ts: seq<Token>)
    ensures Parse(CONSTANT_LEVEL, ts) == Constant(ts)
  {
    hide Constant;
  }

  lemma {:induction false} PrefixStep(ts: seq<Token>)
    ensures Head(ts) == NotSign ==> Parse(NOT_LEVEL, ts) == Wrap(Parse(NOT_LEVEL, ts[1..]), true)
    ensures Head(ts) == Sign(Minus) ==> Parse(UNARY_LEVEL, ts) == Wrap(Parse(UNARY_LEVEL, ts[1..]), false)
    ensures Head(ts) == Sign(Plus) ==> Parse(UNARY_LEVEL, ts) == Need(Parse(UNARY_LEVEL, ts[1..]))
  {
    hide Continue, Wrap, Need, Constant;
  }

  lemma {:induction false} ContinueStep(n: nat, e: Option<Expr>, ts: seq<Token>)
    requires n <= CONSTANT_LEVEL
    ensures ContinuesAt(Head(ts)) != Some(n) ==> Continue(n, e, ts) == Parsed(e, ts)
    ensures ContinuesAt(Head(ts)) == Some(n) && e.None? ==> Continue(n, e, ts) == Failed(NoLeft)
    ensures Head(ts) == Question && n == 0 && e.Some? ==> Continue(n, e, ts) == Conditional(e.value, ts[1..])
    ensures Head(ts) == LeftParen && n == ACCESS_LEVEL && e.Some? ==> Continue(n, e, ts) == Failed(Outside)
    ensures Head(ts) == LeftSquare && n == ACCESS_LEVEL && e.Some? ==>
      Continue(n, e, ts) == match Need(Parse(0, ts[1..]))
                            case Failed(x) => Failed(x)
                            case Parsed(i, rest) =>
                              if Head(rest) != RightSquare then Failed(MissingRightSquare)
                              else Continue(n, Some(Index(e.value, i.value)), rest[1..])
    ensures Head(ts).Sign? && Level(Head(ts).op) == n && e.Some? ==>
      Continue(n, e, ts) == match Need(Parse(RightOperand(Head(ts).op), ts[1..]))
                            case Failed(x) => Failed(x)
                            case Parsed(right, rest) =>
                              var both := Some(Binary(Head(ts).op, e.value, right.value));
                              if LeftLevel(n) || n == EXP_LEVEL then Continue(n, both, rest) else Parsed(both, rest)
  {
    hide Parse, Conditional, Constant;
  }

  // What that says at the left-associative levels.

  lemma {:induction false} LeftStart(n: nat, ts: seq<Token>)
    requires LeftLevel(n)
    ensures n < CONSTANT_LEVEL
    ensures Parse(n, ts) == match Parse(n + 1, ts)
                            case Failed(x) => Failed(x)
                            case Parsed(e, rest) => Continue(n, e, rest)
  {
    hide Parse, Continue;
    ParseStep(n, ts);
  }

  lemma {:induction false} LeftStep(n: nat, e: Option<Expr>, ts: seq<Token>)
    requires LeftLevel(n) && Head(ts).Sign? && Level(Head(ts).op) == n
    ensures ts != []
    ensures e.None? ==> Continue(n, e, ts) == Failed(NoLeft)
    ensures e.Some? ==>
      Continue(n, e, ts) == match Parse(n + 1, ts[1..])
                            case Failed(x) => Failed(x)
                            case Parsed(None, _) => Failed(ExprExpected)
                            case Parsed(Some(right), rest) => Continue(n, Some(Binary(Head(ts).op, e.value, right)), rest)
  {
    hide Parse, Continue;
    ContinueStep(n, e, ts);
  }

  lemma {:induction false} LeftEnd(n: nat, e: Option<Expr>, ts: seq<Token>)
    requires LeftLevel(n) && !(Head(ts).Sign? && Level(Head(ts).op) == n)
    ensures Continue(n, e, ts) == Parsed(e, ts)
  {
    hide Parse, Continue;
    ContinueStep(n, e, ts);
  }

  lemma {:induction false} ConditionalStep(cond: Expr, ts: seq<Token>)
    ensures Conditional(cond, ts) ==
            match Need(Parse(0, ts))
            case Failed(x) => Failed(x)
            case Parsed(yes, rest) =>
              if Head(rest) != Colon then Failed(MissingColon)
              else
                match Need(Parse(0, rest[1..]))
                case Failed(x) => Failed(x)
                case Parsed(no, rest') => Parsed(Some(Ternary(cond, yes.value, no.value)), rest')
  {
    hide Parse;
  }

  /** At the levels of `in`, `..` and `^` there is one operator. */
  lemma {:induction false} OnlySign(op: Operator, ts: seq<Token>)
    requires op == In || op == Range || op == Exp
    ensures ContinuesAt(Head(ts)) == Some(Level(op)) <==> Head(ts) == Sign(op)
    ensures RightOperand(op) == if op == Exp then EXP_LEVEL else Level(op) + 1
  {}

  lemma {:induction false} OnlyBracket(ts: seq<Token>)
    ensures ContinuesAt(Head(ts)) == Some(ACCESS_LEVEL) <==> Head(ts) == LeftSquare || Head(ts) == LeftParen
  {}

  /** The prefix levels have no operator to continue with. */
  lemma {:induction false} NothingContinues(n: nat, e: Option<Expr>, ts: seq<Token>)
    requires n == NOT_LEVEL || n == UNARY_LEVEL
    ensures Continue(n, e, ts) == Parsed(e, ts)
  {
    hide Parse, Conditional;
  }

  lemma {:induction false} NoEnd(e: Expr, n: nat)
    ensures End !in Print(e, n)
    decreases e, if Prec(e) < n then 1 else 0
  {
    if Prec(e) < n {
      NoEnd(e, 0);
      BodyPrint(e, 0);
    } else {
      match e
      case Name(_) =>
      case Binary(op, l, r) =>
        NoEnd(l, LeftOperand(op));
        NoEnd(r, RightOperand(op));
      case Not(x) => NoEnd(x, NOT_LEVEL);
      case Neg(x) => NoEnd(x, UNARY_LEVEL);
      case Ternary(c, t, f) =>
        NoEnd(c, 1);
        NoEnd(t, 0);
        NoEnd(f, 0);
      case Index(x, i) =>
        NoEnd(x, ACCESS_LEVEL);
        NoEnd(i, 0);
    }
  }

  /** Printing an expression and parsing the tokens gives the expression and reads all of them. */
  method PrintAndParse(e: Expr) returns (parsed: Answer, left: seq<Token>)
    ensures parsed == Ok(Some(e)) && left == []
  {
    hide Parse, Print, Body, Level, LeftLevel;
    var tokens := Print(e, 0);
    NoEnd(e, 0);
    var parser := new Parser(tokens);
    assert tokens[0..] == tokens && tokens + [] == tokens;
    ParsePrint(e, 0, []);
    parsed := parser.TernaryIf();
    left := parser.Rest();
  }
}
