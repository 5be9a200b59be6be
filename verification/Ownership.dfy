/** Which registers carry names. Every register of a program is either a temporary, never bound
    to a name, or belongs to one name (and possibly one `for` loop) for the whole run. This is
    what keeps re-executed assignments in loops from disturbing other variables. */
module Ownership {
  import opened Lists
  import opened Values
  import opened Ir
  import opened Codegen

  datatype Owner = Owner(name: string, site: Option<nat>)

  type Owners = map<nat, Owner>

  predicate Owns(o: Owners, q: nat, n: string, site: Option<nat>) {
    q in o && o[q] == Owner(n, site)
  }

  /** Different registers never belong to the same `for` loop. */
  ghost predicate SitesUnique(o: Owners) {
    forall p, q :: p in o && q in o && o[p].site.Some? && o[p].site == o[q].site ==> p == q
  }

  // ----- the code for an expression or statement uses its registers as `o` says -----

  ghost predicate OwnedExpr(e: Expr, a: nat, r: nat, c: nat, o: Owners)
    decreases e, 0
  {
    match e
    case Lit(_) => true
    case ListLit(es) => r !in o && OwnedElems(es, r, a + 1, r + 1, c, o)
    case Variable(_) => r !in o
    case Binary(op, x, y) =>
      var g := EmitExpr(x, a, r, c);
      var h := EmitExpr(y, a + |g.code|, g.r, g.c);
      && OwnedExpr(x, a, r, c, o) && OwnedExpr(y, a + |g.code|, g.r, g.c, o)
      && h.r !in o && BinResult(g.rv, h.rv, h.r) !in o
    case Short(_, x, y) =>
      var g := EmitNc(x, a, r, c);
      OwnedNc(x, a, r, c, o) && g.r !in o && OwnedNc(y, a + |g.code| + 3, g.r + 1, g.c, o)
    case Unary(_, x) =>
      OwnedNc(x, a, r, c, o) && EmitNc(x, a, r, c).r !in o
    case Ternary(cond, t, f) =>
      var g := EmitNc(cond, a, r, c);
      var h := EmitExpr(t, a + |g.code| + 1, g.r + 1, g.c);
      && OwnedNc(cond, a, r, c, o) && g.r !in o
      && OwnedExpr(t, a + |g.code| + 1, g.r + 1, g.c, o)
      && OwnedExpr(f, a + |g.code| + 1 + |h.code| + 2, h.r, h.c, o)
    case Set(n, x) => OwnedExpr(x, a, r, c, o) && Owns(o, EmitExpr(x, a, r, c).r, n, None)
    case SetOp(_, n, x) => Owns(o, r, n, None) && OwnedExpr(x, a + 1, r + 1, c, o)
  }

  ghost predicate OwnedNc(e: Expr, a: nat, r: nat, c: nat, o: Owners)
    decreases e, 1
  {
    var g := EmitExpr(e, a, r, c);
    OwnedExpr(e, a, r, c, o) && (g.rv.constant ==> g.r !in o)
  }

  ghost predicate OwnedElems(es: List<Expr>, list: nat, a: nat, r: nat, c: nat, o: Owners)
    decreases es, 0
  {
    match es
    case Empty => true
    case Cons(e, rest) =>
      var g := EmitExpr(e, a, r, c);
      OwnedExpr(e, a, r, c, o) && OwnedElems(rest, list, a + |g.code| + 1, g.r, g.c, o)
  }

  ghost predicate OwnedBlock(b: List<Stmt>, a: nat, r: nat, c: nat, o: Owners)
    decreases b, 0
  {
    match b
    case Empty => true
    case Cons(s, rest) =>
      var g := EmitStmt(s, a, r, c);
      OwnedStmt(s, a, r, c, o) && OwnedBlock(rest, a + |g.code|, g.r, g.c, o)
  }

  ghost predicate OwnedStmt(s: Stmt, a: nat, r: nat, c: nat, o: Owners)
    decreases s, 0
  {
    match s
    case ExprStmt(e) => OwnedNc(e, a, r, c, o)
    case SilentStmt(e) => OwnedExpr(e, a, r, c, o)
    case If(cond, body, orelse) =>
      var g := EmitNc(cond, a, r, c);
      var h := EmitBlock(body, a + |g.code| + 1, g.r, g.c);
      && OwnedNc(cond, a, r, c, o)
      && OwnedBlock(body, a + |g.code| + 1, g.r, g.c, o)
      && (match orelse
          case None => true
          case Some(b) => OwnedBlock(b, a + |g.code| + 1 + |h.code| + 1, h.r, h.c, o))
    case Switch(cond, cs) =>
      var g := EmitNc(cond, a, r, c);
      var v := EmitCaseValues(cs, g.r, a + |g.code| + 1, g.r + 2, g.c);
      var a3 := a + |g.code| + 1 + |v.code| + 1 + 2 * NumValues(cs) + 1;
      && OwnedNc(cond, a, r, c, o)
      && g.r !in o && g.r + 1 !in o
      && OwnedValues(cs, g.r, a + |g.code| + 1, g.r + 2, g.c, o)
      && OwnedBodies(cs, a3, v.r, v.c + NumValues(cs), o)
    case While(cond, body) =>
      var g := EmitNc(cond, a + 1, r, c);
      OwnedNc(cond, a + 1, r, c, o) && OwnedBlock(body, a + 1 + |g.code| + 1, g.r, g.c, o)
    case DoWhile(body, cond) =>
      var h := EmitBlock(body, a + 1, r, c);
      OwnedBlock(body, a + 1, r, c, o) && OwnedNc(cond, a + 1 + |h.code|, h.r, h.c, o)
    case For(site, n, coll, body) =>
      var g := EmitNc(coll, a + 2, r + 1, c + 1);
      && Owns(o, r, n, Some(site))
      && OwnedNc(coll, a + 2, r + 1, c + 1, o)
      && OwnedBlock(body, a + 2 + |g.code| + 2 + 2, g.r + 1, g.c, o)
    case Break => true
    case Continue => true
    case Assert(cond, msg, line) =>
      var g := EmitNc(cond, a, r, c);
      && OwnedNc(cond, a, r, c, o)
      && (match msg
          case None => g.r !in o
          case Some(e) => OwnedNc(e, a + |g.code| + 1, g.r, g.c + 1, o))
    case Raise(e) => OwnedNc(e, a, r, c, o)
  }

  ghost predicate OwnedValues(cs: List<Case>, list: nat, a: nat, r: nat, c: nat, o: Owners)
    decreases cs, 0
  {
    match cs
    case Empty => true
    case Cons(Default(_), rest) => OwnedValues(rest, list, a, r, c, o)
    case Cons(Case(es, _), rest) =>
      var g := EmitElems(es, list, a, r, c);
      OwnedElems(es, list, a, r, c, o) && OwnedValues(rest, list, a + |g.code|, g.r, g.c, o)
  }

  ghost predicate OwnedBodies(cs: List<Case>, a: nat, r: nat, c: nat, o: Owners)
    decreases cs, 0
  {
    match cs
    case Empty => true
    case Cons(k, rest) =>
      var g := EmitBlock(k.body, a, r, c);
      OwnedBlock(k.body, a, r, c, o) && OwnedBodies(rest, a + |g.code| + 1, g.r, g.c, o)
  }

  lemma {:induction false} UnfoldBinaryOwned(op: BinOp, x: Expr, y: Expr, a: nat, r: nat, c: nat, o: Owners)
    ensures var g := EmitExpr(x, a, r, c);
            var h := EmitExpr(y, a + |g.code|, g.r, g.c);
            OwnedExpr(Binary(op, x, y), a, r, c, o) <==>
              && OwnedExpr(x, a, r, c, o) && OwnedExpr(y, a + |g.code|, g.r, g.c, o)
              && h.r !in o && BinResult(g.rv, h.rv, h.r) !in o
  {
    hide EmitNc, EmitExpr, EmitElems, OwnedNc, OwnedElems, BinResult;
  }

  lemma {:induction false} UnfoldTernaryOwned(cond: Expr, t: Expr, f: Expr, a: nat, r: nat, c: nat, o: Owners)
    ensures var g := EmitNc(cond, a, r, c);
            var h := EmitExpr(t, a + |g.code| + 1, g.r + 1, g.c);
            OwnedExpr(Ternary(cond, t, f), a, r, c, o) <==>
              && OwnedNc(cond, a, r, c, o) && g.r !in o
              && OwnedExpr(t, a + |g.code| + 1, g.r + 1, g.c, o)
              && OwnedExpr(f, a + |g.code| + 1 + |h.code| + 2, h.r, h.c, o)
  {
    hide EmitNc, EmitExpr, EmitElems, OwnedNc, OwnedElems;
  }

  lemma {:induction false} UnfoldShortOwned(isAnd: bool, x: Expr, y: Expr, a: nat, r: nat, c: nat, o: Owners)
    ensures var g := EmitNc(x, a, r, c);
            OwnedExpr(Short(isAnd, x, y), a, r, c, o) <==>
              OwnedNc(x, a, r, c, o) && g.r !in o && OwnedNc(y, a + |g.code| + 3, g.r + 1, g.c, o)
  {
    hide EmitNc, EmitExpr, EmitElems, OwnedNc, OwnedElems;
  }

  lemma {:induction false} UnfoldElemsOwned(e: Expr, rest: List<Expr>, list: nat, a: nat, r: nat, c: nat, o: Owners)
    ensures var g := EmitExpr(e, a, r, c);
            OwnedElems(Cons(e, rest), list, a, r, c, o) <==>
              OwnedExpr(e, a, r, c, o) && OwnedElems(rest, list, a + |g.code| + 1, g.r, g.c, o)
  {
    hide EmitExpr, OwnedExpr;
  }
}
