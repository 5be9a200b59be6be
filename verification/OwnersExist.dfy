/** Every program has an ownership: the generator's register counters never hand out one
    register twice, so each register can be given at most one name for the whole run. */
module OwnersExist {
  import opened Lists
  import opened Values
  import opened Ir
  import opened Codegen
  import opened CodegenFacts
  import opened Ownership

  ghost predicate Within(o: Owners, lo: nat, hi: nat) {
    forall q :: q in o ==> lo <= q < hi
  }

  ghost predicate Agrees(o': Owners, o: Owners, lo: nat, hi: nat) {
    forall q :: lo <= q < hi ==> (q in o' <==> q in o) && (q in o ==> o'[q] == o[q])
  }

  /** Only loops of `sites` own registers, one each. */
  ghost predicate SitesIn(o: Owners, sites: set<nat>) {
    && SitesUnique(o)
    && forall q :: q in o && o[q].site.Some? ==> o[q].site.value in sites
  }

  /** `o` is an ownership of the registers from `lo` to `hi` only. */
  ghost predicate Local(o: Owners, lo: nat, hi: nat, sites: set<nat>) {
    Within(o, lo, hi) && SitesIn(o, sites) && lo <= hi
  }

  lemma LocalJoin(x: Owners, y: Owners, lo: nat, mid: nat, mid': nat, hi: nat, s: set<nat>, t: set<nat>)
    requires Local(x, lo, mid, s) && Local(y, mid', hi, t) && mid <= mid' && s !! t
    ensures Local(x + y, lo, hi, s + t)
  {}

  /** Expressions contain no loops. */
  lemma ExprJoin(x: Owners, y: Owners, lo: nat, mid: nat, mid': nat, hi: nat)
    requires Local(x, lo, mid, {}) && Local(y, mid', hi, {}) && mid <= mid'
    ensures Local(x + y, lo, hi, {})
  {
    LocalJoin(x, y, lo, mid, mid', hi, {}, {});
    var none: set<nat> := {};
    assert none + none == none;
  }

  lemma AgreesJoin(o': Owners, x: Owners, y: Owners, lo: nat, mid: nat, mid': nat, hi: nat)
    requires Within(x, lo, mid) && Within(y, mid', hi) && lo <= mid <= mid' <= hi
    requires Agrees(o', x + y, lo, hi)
    ensures Agrees(o', x, lo, mid) && Agrees(o', y, mid', hi)
    ensures forall q :: mid <= q < mid' ==> q !in o'
  {}

  function One(q: nat, n: string, site: Option<nat>): Owners {
    map[q := Owner(n, site)]
  }

  lemma OneLocal(q: nat, n: string)
    ensures Local(One(q, n, None), q, q + 1, {})
  {}

  lemma NoneLocal(lo: nat, hi: nat)
    requires lo <= hi
    ensures Local(map[], lo, hi, {})
  {}

  // ----- expressions -----

  ghost predicate ServesExpr(e: Expr, a: nat, r: nat, c: nat, o: Owners) {
    var hi := EmitExpr(e, a, r, c).r;
    Local(o, r, hi, {}) && forall o' :: Agrees(o', o, r, hi) ==> OwnedExpr(e, a, r, c, o')
  }

  ghost predicate ServesNc(e: Expr, a: nat, r: nat, c: nat, o: Owners) {
    var hi := EmitNc(e, a, r, c).r;
    Local(o, r, hi, {}) && forall o' :: Agrees(o', o, r, hi) ==> OwnedNc(e, a, r, c, o')
  }

  ghost predicate ServesElems(es: List<Expr>, list: nat, a: nat, r: nat, c: nat, o: Owners) {
    var hi := EmitElems(es, list, a, r, c).r;
    Local(o, r, hi, {}) && forall o' :: Agrees(o', o, r, hi) ==> OwnedElems(es, list, a, r, c, o')
  }

  lemma {:induction false} OwnExpr(e: Expr, a: nat, r: nat, c: nat) returns (o: Owners)
    ensures ServesExpr(e, a, r, c, o)
    decreases e, 1
  {
    hide Agrees, Within, SitesIn, EmitNc, EmitElems, OwnedNc, OwnedElems;
    match e
    case Lit(l) =>
      o := map[];
      NoneLocal(r, r);
    case Variable(n) =>
      o := map[];
      NoneLocal(r, r + 1);
      FreeOnly(r);
    case ListLit(es) => o := OwnList(es, a, r, c);
    case Binary(op, x, y) => o := OwnBinary(op, x, y, a, r, c);
    case Short(isAnd, x, y) => o := OwnShort(isAnd, x, y, a, r, c);
    case Unary(isNot, x) => o := OwnUnary(isNot, x, a, r, c);
    case Ternary(cond, t, f) => o := OwnTernary(cond, t, f, a, r, c);
    case Set(n, x) => o := OwnSet(n, x, a, r, c);
    case SetOp(op, n, x) => o := OwnSetOp(op, n, x, a, r, c);
  }

  lemma FreeOnly(q: nat)
    ensures forall o' :: Agrees(o', map[], q, q + 1) ==> q !in o'
  {}

  lemma OwnList(es: List<Expr>, a: nat, r: nat, c: nat) returns (o: Owners)
    ensures ServesExpr(ListLit(es), a, r, c, o)
    decreases ListLit(es), 0
  {
    hide EmitElems, OwnedElems;
    o := OwnElems(es, r, a + 1, r + 1, c);
    var hi := EmitElems(es, r, a + 1, r + 1, c).r;
    ExprJoin(map[], o, r, r, r + 1, hi);
    assert map[] + o == o;
    forall o' | Agrees(o', o, r, hi) ensures OwnedExpr(ListLit(es), a, r, c, o') {
      AgreesJoin(o', map[], o, r, r, r + 1, hi);
    }
  }

  lemma OwnBinary(op: BinOp, x: Expr, y: Expr, a: nat, r: nat, c: nat) returns (o: Owners)
    ensures ServesExpr(Binary(op, x, y), a, r, c, o)
    decreases Binary(op, x, y), 0
  {
    hide Agrees, Within, SitesIn;
    var g := EmitExpr(x, a, r, c);
    var h := EmitExpr(y, a + |g.code|, g.r, g.c);
    var dst := BinResult(g.rv, h.rv, h.r);
    var o1 := OwnExpr(x, a, r, c);
    var o2 := OwnExpr(y, a + |g.code|, g.r, g.c);
    ExprJoin(o1, o2, r, g.r, g.r, h.r);
    o := o1 + o2;
    LocalWiden(o, r, h.r, dst + 1);
    forall o' | Agrees(o', o, r, dst + 1) ensures OwnedExpr(Binary(op, x, y), a, r, c, o') {
      AgreesNarrow(o', o, r, h.r, dst + 1);
      AgreesJoin(o', o1, o2, r, g.r, g.r, h.r);
    }
  }

  lemma LocalWiden(o: Owners, lo: nat, hi: nat, hi': nat)
    requires Local(o, lo, hi, {}) && hi <= hi'
    ensures Local(o, lo, hi', {})
  {}

  /** Registers past the owned range are free. */
  lemma AgreesNarrow(o': Owners, o: Owners, lo: nat, hi: nat, hi': nat)
    requires Within(o, lo, hi) && Agrees(o', o, lo, hi') && lo <= hi <= hi'
    ensures Agrees(o', o, lo, hi) && forall q :: hi <= q < hi' ==> q !in o'
  {}

  lemma OwnShort(isAnd: bool, x: Expr, y: Expr, a: nat, r: nat, c: nat) returns (o: Owners)
    ensures ServesExpr(Short(isAnd, x, y), a, r, c, o)
    decreases Short(isAnd, x, y), 0
  {
    hide Agrees, Within, SitesIn, EmitNc, OwnedNc;
    var g := EmitNc(x, a, r, c);
    var a1 := a + |g.code| + 3;
    var h := EmitNc(y, a1, g.r + 1, g.c);
    var o1 := OwnNc(x, a, r, c);
    var o2 := OwnNc(y, a1, g.r + 1, g.c);
    o := o1 + o2;
    ExprJoin(o1, o2, r, g.r, g.r + 1, h.r);
    forall o' | Agrees(o', o, r, h.r) ensures OwnedExpr(Short(isAnd, x, y), a, r, c, o') {
      AgreesJoin(o', o1, o2, r, g.r, g.r + 1, h.r);
    }
  }

  lemma OwnUnary(isNot: bool, x: Expr, a: nat, r: nat, c: nat) returns (o: Owners)
    ensures ServesExpr(Unary(isNot, x), a, r, c, o)
    decreases Unary(isNot, x), 0
  {
    hide Agrees, Within, SitesIn, EmitNc, OwnedNc;
    var g := EmitNc(x, a, r, c);
    o := OwnNc(x, a, r, c);
    LocalWiden(o, r, g.r, g.r + 1);
    forall o' | Agrees(o', o, r, g.r + 1) ensures OwnedExpr(Unary(isNot, x), a, r, c, o') {
      AgreesNarrow(o', o, r, g.r, g.r + 1);
    }
  }

  lemma OwnTernary(cond: Expr, t: Expr, f: Expr, a: nat, r: nat, c: nat) returns (o: Owners)
    ensures ServesExpr(Ternary(cond, t, f), a, r, c, o)
    decreases Ternary(cond, t, f), 0
  {
    hide Agrees, Within, SitesIn, EmitNc, OwnedNc, EmitExpr, OwnedExpr;
    UnfoldTernaryCode(cond, t, f, a, r, c);
    var g := EmitNc(cond, a, r, c);
    var a1 := a + |g.code| + 1;
    var h := EmitExpr(t, a1, g.r + 1, g.c);
    var a2 := a1 + |h.code| + 2;
    var k := EmitExpr(f, a2, h.r, h.c);
    var o1 := OwnNc(cond, a, r, c);
    var o2 := OwnExpr(t, a1, g.r + 1, g.c);
    var o3 := OwnExpr(f, a2, h.r, h.c);
    ExprJoin(o2, o3, g.r + 1, h.r, h.r, k.r);
    ExprJoin(o1, o2 + o3, r, g.r, g.r + 1, k.r);
    o := o1 + (o2 + o3);
    forall o' | Agrees(o', o, r, k.r) ensures OwnedExpr(Ternary(cond, t, f), a, r, c, o') {
      AgreesJoin(o', o1, o2 + o3, r, g.r, g.r + 1, k.r);
      AgreesJoin(o', o2, o3, g.r + 1, h.r, h.r, k.r);
      UnfoldTernaryOwned(cond, t, f, a, r, c, o');
    }
  }

  lemma OwnSet(n: string, x: Expr, a: nat, r: nat, c: nat) returns (o: Owners)
    ensures ServesExpr(Set(n, x), a, r, c, o)
    decreases Set(n, x), 0
  {
    hide Within, SitesIn;
    var g := EmitExpr(x, a, r, c);
    var o1 := OwnExpr(x, a, r, c);
    var o2 := One(g.r, n, None);
    OneLocal(g.r, n);
    ExprJoin(o1, o2, r, g.r, g.r, g.r + 1);
    o := o1 + o2;
    forall o' | Agrees(o', o, r, g.r + 1) ensures OwnedExpr(Set(n, x), a, r, c, o') {
      AgreesJoin(o', o1, o2, r, g.r, g.r, g.r + 1);
    }
  }

  lemma OwnSetOp(op: BinOp, n: string, x: Expr, a: nat, r: nat, c: nat) returns (o: Owners)
    ensures ServesExpr(SetOp(op, n, x), a, r, c, o)
    decreases SetOp(op, n, x), 0
  {
    hide Within, SitesIn;
    var g := EmitExpr(x, a + 1, r + 1, c);
    var o1 := One(r, n, None);
    var o2 := OwnExpr(x, a + 1, r + 1, c);
    OneLocal(r, n);
    ExprJoin(o1, o2, r, r + 1, r + 1, g.r);
    o := o1 + o2;
    forall o' | Agrees(o', o, r, g.r) ensures OwnedExpr(SetOp(op, n, x), a, r, c, o') {
      AgreesJoin(o', o1, o2, r, r + 1, r + 1, g.r);
    }
  }

  lemma OwnNc(e: Expr, a: nat, r: nat, c: nat) returns (o: Owners)
    ensures ServesNc(e, a, r, c, o)
    decreases e, 2
  {
    hide Agrees, Within, SitesIn, EmitExpr, OwnedExpr;
    var g := EmitExpr(e, a, r, c);
    var hi := EmitNc(e, a, r, c).r;
    o := OwnExpr(e, a, r, c);
    LocalWiden(o, r, g.r, hi);
    forall o' | Agrees(o', o, r, hi) ensures OwnedNc(e, a, r, c, o') {
      AgreesNarrow(o', o, r, g.r, hi);
    }
  }

  lemma {:induction false} OwnElems(es: List<Expr>, list: nat, a: nat, r: nat, c: nat) returns (o: Owners)
    ensures ServesElems(es, list, a, r, c, o)
    decreases es, 0
  {
    match es
    case Empty =>
      o := map[];
      NoneLocal(r, r);
    case Cons(e, rest) =>
      hide Agrees, Within, SitesIn, EmitExpr, OwnedExpr;
      var g := EmitExpr(e, a, r, c);
      var o1 := OwnExpr(e, a, r, c);
      var o2 := OwnElems(rest, list, a + |g.code| + 1, g.r, g.c);
      var hi := EmitElems(es, list, a, r, c).r;
      ExprJoin(o1, o2, r, g.r, g.r, hi);
      o := o1 + o2;
      forall o' | Agrees(o', o, r, hi) ensures OwnedElems(es, list, a, r, c, o') {
        AgreesJoin(o', o1, o2, r, g.r, g.r, hi);
      }
  }

  // ----- statements -----

  ghost predicate ServesStmt(s: Stmt, a: nat, r: nat, c: nat, o: Owners) {
    var hi := EmitStmt(s, a, r, c).r;
    Local(o, r, hi, StmtSites(s)) && forall o' :: Agrees(o', o, r, hi) ==> OwnedStmt(s, a, r, c, o')
  }

  ghost predicate ServesBlock(b: List<Stmt>, a: nat, r: nat, c: nat, o: Owners) {
    var hi := EmitBlock(b, a, r, c).r;
    Local(o, r, hi, BlockSites(b)) && forall o' :: Agrees(o', o, r, hi) ==> OwnedBlock(b, a, r, c, o')
  }

  ghost predicate ServesValues(cs: List<Case>, list: nat, a: nat, r: nat, c: nat, o: Owners) {
    var hi := EmitCaseValues(cs, list, a, r, c).r;
    Local(o, r, hi, {}) && forall o' :: Agrees(o', o, r, hi) ==> OwnedValues(cs, list, a, r, c, o')
  }

  ghost predicate ServesBodies(cs: List<Case>, a: nat, r: nat, c: nat, end: nat, o: Owners) {
    var hi := EmitBodies(cs, a, r, c, end).r;
    Local(o, r, hi, CaseSites(cs)) && forall o' :: Agrees(o', o, r, hi) ==> OwnedBodies(cs, a, r, c, o')
  }

  /** An expression's registers, then those of statements. */
  lemma HeadJoin(x: Owners, y: Owners, lo: nat, mid: nat, mid': nat, hi: nat, t: set<nat>)
    requires Local(x, lo, mid, {}) && Local(y, mid', hi, t) && mid <= mid'
    ensures Local(x + y, lo, hi, t)
  {
    LocalJoin(x, y, lo, mid, mid', hi, {}, t);
    assert {} + t == t;
  }

  lemma TailJoin(x: Owners, y: Owners, lo: nat, mid: nat, hi: nat, s: set<nat>)
    requires Local(x, lo, mid, s) && Local(y, mid, hi, {})
    ensures Local(x + y, lo, hi, s)
  {
    LocalJoin(x, y, lo, mid, mid, hi, s, {});
    assert s + {} == s;
  }

  lemma SiteLocal(q: nat, n: string, site: nat)
    ensures Local(One(q, n, Some(site)), q, q + 1, {site})
  {}

  lemma OutputRange(e: Expr, a: nat, r: nat, c: nat)
    ensures OutputGen(EmitExpr(e, a, r, c)).r == EmitNc(e, a, r, c).r
  {
    hide EmitElems;
  }

  lemma {:induction false} OwnStmt(s: Stmt, a: nat, r: nat, c: nat) returns (o: Owners)
    requires DistinctStmt(s)
    ensures ServesStmt(s, a, r, c, o)
    decreases s, 2
  {
    hide Agrees, Local, EmitExpr, EmitNc, EmitBlock, OwnedExpr, OwnedNc, OwnedBlock, OutputGen,
      DistinctBlock, BlockSites;
    match s
    case ExprStmt(e) =>
      OutputRange(e, a, r, c);
      o := OwnNc(e, a, r, c);
    case SilentStmt(e) => o := OwnExpr(e, a, r, c);
    case If(cond, body, orelse) => o := OwnIf(s, a, r, c);
    case Switch(cond, cs) => o := OwnSwitch(s, a, r, c);
    case While(cond, body) => o := OwnWhile(s, a, r, c);
    case DoWhile(body, cond) => o := OwnDoWhile(s, a, r, c);
    case For(_, n, coll, body) => o := OwnFor(s, a, r, c);
    case Break => o := map[]; NoneLocal(r, r);
    case Continue => o := map[]; NoneLocal(r, r);
    case Assert(cond, msg, line) => o := OwnAssert(s, a, r, c);
    case Raise(e) => o := OwnNc(e, a, r, c);
  }

  lemma {:induction false} OwnBlock(b: List<Stmt>, a: nat, r: nat, c: nat) returns (o: Owners)
    requires DistinctBlock(b)
    ensures ServesBlock(b, a, r, c, o)
    decreases b, 0
  {
    hide Agrees, Within, SitesIn, EmitStmt, OwnedStmt, StmtSites, DistinctStmt;
    match b
    case Empty =>
      o := map[];
      NoneLocal(r, r);
    case Cons(s, rest) =>
      var g := EmitStmt(s, a, r, c);
      var hi := EmitBlock(b, a, r, c).r;
      var o1 := OwnStmt(s, a, r, c);
      var o2 := OwnBlock(rest, a + |g.code|, g.r, g.c);
      LocalJoin(o1, o2, r, g.r, g.r, hi, StmtSites(s), BlockSites(rest));
      o := o1 + o2;
      forall o' | Agrees(o', o, r, hi) ensures OwnedBlock(b, a, r, c, o') {
        AgreesJoin(o', o1, o2, r, g.r, g.r, hi);
      }
  }

  lemma OwnIf(s: Stmt, a: nat, r: nat, c: nat) returns (o: Owners)
    requires s.If? && DistinctStmt(s)
    ensures ServesStmt(s, a, r, c, o)
    decreases s, 1
  {
    hide Agrees, Within, SitesIn, EmitNc, EmitBlock, OwnedNc, OwnedBlock, DistinctBlock, BlockSites;
    var g := EmitNc(s.cond, a, r, c);
    var a1 := a + |g.code| + 1;
    var h := EmitBlock(s.body, a1, g.r, g.c);
    var o1 := OwnNc(s.cond, a, r, c);
    var o2 := OwnBlock(s.body, a1, g.r, g.c);
    if s.orelse.None? {
      HeadJoin(o1, o2, r, g.r, g.r, h.r, BlockSites(s.body));
      o := o1 + o2;
      assert StmtSites(s) == BlockSites(s.body);
      forall o' | Agrees(o', o, r, h.r) ensures OwnedStmt(s, a, r, c, o') {
        AgreesJoin(o', o1, o2, r, g.r, g.r, h.r);
      }
    } else {
      var b := s.orelse.value;
      var k := EmitBlock(b, a1 + |h.code| + 1, h.r, h.c);
      var o3 := OwnBlock(b, a1 + |h.code| + 1, h.r, h.c);
      LocalJoin(o2, o3, g.r, h.r, h.r, k.r, BlockSites(s.body), BlockSites(b));
      HeadJoin(o1, o2 + o3, r, g.r, g.r, k.r, BlockSites(s.body) + BlockSites(b));
      o := o1 + (o2 + o3);
      forall o' | Agrees(o', o, r, k.r) ensures OwnedStmt(s, a, r, c, o') {
        AgreesJoin(o', o1, o2 + o3, r, g.r, g.r, k.r);
        AgreesJoin(o', o2, o3, g.r, h.r, h.r, k.r);
      }
    }
  }

  lemma OwnWhile(s: Stmt, a: nat, r: nat, c: nat) returns (o: Owners)
    requires s.While? && DistinctStmt(s)
    ensures ServesStmt(s, a, r, c, o)
    decreases s, 1
  {
    hide Agrees, Within, SitesIn, EmitNc, EmitBlock, OwnedNc, OwnedBlock, DistinctBlock, BlockSites, Patch;
    var g := EmitNc(s.cond, a + 1, r, c);
    var a1 := a + 1 + |g.code| + 1;
    var h := EmitBlock(s.body, a1, g.r, g.c);
    var o1 := OwnNc(s.cond, a + 1, r, c);
    var o2 := OwnBlock(s.body, a1, g.r, g.c);
    HeadJoin(o1, o2, r, g.r, g.r, h.r, BlockSites(s.body));
    o := o1 + o2;
    forall o' | Agrees(o', o, r, h.r) ensures OwnedStmt(s, a, r, c, o') {
      AgreesJoin(o', o1, o2, r, g.r, g.r, h.r);
    }
  }

  lemma OwnDoWhile(s: Stmt, a: nat, r: nat, c: nat) returns (o: Owners)
    requires s.DoWhile? && DistinctStmt(s)
    ensures ServesStmt(s, a, r, c, o)
    decreases s, 1
  {
    hide Agrees, Within, SitesIn, EmitNc, EmitBlock, OwnedNc, OwnedBlock, DistinctBlock, BlockSites, Patch;
    var h := EmitBlock(s.body, a + 1, r, c);
    var g := EmitNc(s.cond, a + 1 + |h.code|, h.r, h.c);
    var o1 := OwnBlock(s.body, a + 1, r, c);
    var o2 := OwnNc(s.cond, a + 1 + |h.code|, h.r, h.c);
    TailJoin(o1, o2, r, h.r, g.r, BlockSites(s.body));
    o := o1 + o2;
    forall o' | Agrees(o', o, r, g.r) ensures OwnedStmt(s, a, r, c, o') {
      AgreesJoin(o', o1, o2, r, h.r, h.r, g.r);
    }
  }

  lemma OwnFor(s: Stmt, a: nat, r: nat, c: nat) returns (o: Owners)
    requires s.For? && DistinctStmt(s)
    ensures ServesStmt(s, a, r, c, o)
    decreases s, 1
  {
    hide Within, SitesIn, EmitNc, EmitBlock, OwnedNc, OwnedBlock, DistinctBlock, BlockSites, Patch;
    var g := EmitNc(s.collection, a + 2, r + 1, c + 1);
    var a1 := a + 2 + |g.code| + 4;
    var h := EmitBlock(s.body, a1, g.r + 1, g.c);
    var o0 := One(r, s.name, Some(s.site));
    SiteLocal(r, s.name, s.site);
    var o1 := OwnNc(s.collection, a + 2, r + 1, c + 1);
    var o2 := OwnBlock(s.body, a1, g.r + 1, g.c);
    HeadJoin(o1, o2, r + 1, g.r, g.r + 1, h.r, BlockSites(s.body));
    LocalJoin(o0, o1 + o2, r, r + 1, r + 1, h.r, {s.site}, BlockSites(s.body));
    o := o0 + (o1 + o2);
    forall o' | Agrees(o', o, r, h.r) ensures OwnedStmt(s, a, r, c, o') {
      AgreesJoin(o', o0, o1 + o2, r, r + 1, r + 1, h.r);
      AgreesJoin(o', o1, o2, r + 1, g.r, g.r + 1, h.r);
    }
  }

  lemma OwnAssert(s: Stmt, a: nat, r: nat, c: nat) returns (o: Owners)
    requires s.Assert?
    ensures ServesStmt(s, a, r, c, o)
    decreases s, 1
  {
    hide Agrees, Within, SitesIn, EmitNc, OwnedNc;
    var g := EmitNc(s.cond, a, r, c);
    var o1 := OwnNc(s.cond, a, r, c);
    if s.msg.None? {
      o := o1;
      LocalWiden(o, r, g.r, g.r + 1);
      forall o' | Agrees(o', o, r, g.r + 1) ensures OwnedStmt(s, a, r, c, o') {
        AgreesNarrow(o', o, r, g.r, g.r + 1);
      }
    } else {
      var h := EmitNc(s.msg.value, a + |g.code| + 1, g.r, g.c + 1);
      var o2 := OwnNc(s.msg.value, a + |g.code| + 1, g.r, g.c + 1);
      ExprJoin(o1, o2, r, g.r, g.r, h.r);
      o := o1 + o2;
      forall o' | Agrees(o', o, r, h.r) ensures OwnedStmt(s, a, r, c, o') {
        AgreesJoin(o', o1, o2, r, g.r, g.r, h.r);
      }
    }
  }

  lemma OwnSwitch(s: Stmt, a: nat, r: nat, c: nat) returns (o: Owners)
    requires s.Switch? && DistinctStmt(s)
    ensures ServesStmt(s, a, r, c, o)
    decreases s, 1
  {
    hide Agrees, Within, SitesIn, EmitNc, EmitCaseValues, EmitBodies, OwnedNc, OwnedValues, OwnedBodies, CaseAddrs,
      DefaultAddr, Table, NumValues, DistinctCases, CaseSites;
    var g := EmitNc(s.cond, a, r, c);
    var a1 := a + |g.code| + 1;
    var v := EmitCaseValues(s.cases, g.r, a1, g.r + 2, g.c);
    var a3 := a1 + |v.code| + 1 + 2 * NumValues(s.cases) + 1;
    var c3 := v.c + NumValues(s.cases);
    var end := a3 + |EmitBodies(s.cases, a3, v.r, c3, 0).code|;
    var b := EmitBodies(s.cases, a3, v.r, c3, end);
    var o1 := OwnNc(s.cond, a, r, c);
    var o2 := OwnValues(s.cases, g.r, a1, g.r + 2, g.c);
    var o3 := OwnBodies(s.cases, a3, v.r, c3, end);
    HeadJoin(o2, o3, g.r + 2, v.r, v.r, b.r, CaseSites(s.cases));
    HeadJoin(o1, o2 + o3, r, g.r, g.r + 2, b.r, CaseSites(s.cases));
    o := o1 + (o2 + o3);
    forall o' | Agrees(o', o, r, b.r) ensures OwnedStmt(s, a, r, c, o') {
      AgreesJoin(o', o1, o2 + o3, r, g.r, g.r + 2, b.r);
      AgreesJoin(o', o2, o3, g.r + 2, v.r, v.r, b.r);
    }
  }

  lemma {:induction false} OwnValues(cs: List<Case>, list: nat, a: nat, r: nat, c: nat) returns (o: Owners)
    ensures ServesValues(cs, list, a, r, c, o)
    decreases cs, 0
  {
    hide Agrees, Within, SitesIn, EmitElems, OwnedElems;
    match cs
    case Empty =>
      o := map[];
      NoneLocal(r, r);
    case Cons(Default(_), rest) => o := OwnValues(rest, list, a, r, c);
    case Cons(Case(es, _), rest) =>
      var g := EmitElems(es, list, a, r, c);
      var hi := EmitCaseValues(cs, list, a, r, c).r;
      var o1 := OwnElems(es, list, a, r, c);
      var o2 := OwnValues(rest, list, a + |g.code|, g.r, g.c);
      ExprJoin(o1, o2, r, g.r, g.r, hi);
      o := o1 + o2;
      forall o' | Agrees(o', o, r, hi) ensures OwnedValues(cs, list, a, r, c, o') {
        AgreesJoin(o', o1, o2, r, g.r, g.r, hi);
      }
  }

  lemma {:induction false} OwnBodies(cs: List<Case>, a: nat, r: nat, c: nat, end: nat) returns (o: Owners)
    requires DistinctCases(cs)
    ensures ServesBodies(cs, a, r, c, end, o)
    decreases cs, 0
  {
    hide Agrees, Within, SitesIn, EmitBlock, OwnedBlock, BlockSites, DistinctBlock;
    match cs
    case Empty =>
      o := map[];
      NoneLocal(r, r);
    case Cons(k, rest) =>
      var g := EmitBlock(k.body, a, r, c);
      var hi := EmitBodies(cs, a, r, c, end).r;
      var o1 := OwnBlock(k.body, a, r, c);
      var o2 := OwnBodies(rest, a + |g.code| + 1, g.r, g.c, end);
      LocalJoin(o1, o2, r, g.r, g.r, hi, BlockSites(k.body), CaseSites(rest));
      o := o1 + o2;
      forall o' | Agrees(o', o, r, hi) ensures OwnedBodies(cs, a, r, c, o') {
        AgreesJoin(o', o1, o2, r, g.r, g.r, hi);
      }
  }

  /** A whole block, with distinct loops, has an ownership. */
  lemma OwnershipExists(b: List<Stmt>, a: nat, r: nat, c: nat) returns (o: Owners)
    requires DistinctBlock(b)
    ensures OwnedBlock(b, a, r, c, o) && SitesUnique(o)
    ensures forall q :: q in o ==> r <= q
  {
    o := OwnBlock(b, a, r, c);
    assert Agrees(o, o, r, EmitBlock(b, a, r, c).r);
  }
}
