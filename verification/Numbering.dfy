/** Every program can be given loops with numbers of their own: the theorems about code ask for these numbers,
    which stand for the identity of the loop nodes of the source (midend/ir.hpp), and so leave no program out. */
module Numbering {
  import opened Ir
  import opened Lists

  /** A statement with its `for` loops numbered in order from `n` on, and the next number. */
  function NumberStmt(s: Stmt, n: nat): (r: (Stmt, nat))
    decreases s
  {
    match s
    case If(c, body, orelse) =>
      var (body', n1) := NumberBlock(body, n);
      if orelse.None? then (If(c, body', None), n1)
      else
        var (orelse', n2) := NumberBlock(orelse.value, n1);
        (If(c, body', Some(orelse')), n2)
    case Switch(c, cs) =>
      var (cs', n1) := NumberCases(cs, n);
      (Switch(c, cs'), n1)
    case While(c, body) =>
      var (body', n1) := NumberBlock(body, n);
      (While(c, body'), n1)
    case DoWhile(body, c) =>
      var (body', n1) := NumberBlock(body, n);
      (DoWhile(body', c), n1)
    case For(_, name, coll, body) =>
      var (body', n1) := NumberBlock(body, n + 1);
      (For(n, name, coll, body'), n1)
    case _ => (s, n)
  }

  function NumberBlock(b: List<Stmt>, n: nat): (r: (List<Stmt>, nat))
    decreases b
  {
    match b
    case Empty => (Empty, n)
    case Cons(s, rest) =>
      var (s', n1) := NumberStmt(s, n);
      var (rest', n2) := NumberBlock(rest, n1);
      (Cons(s', rest'), n2)
  }

  function NumberCases(cs: List<Case>, n: nat): (r: (List<Case>, nat))
    decreases cs
  {
    match cs
    case Empty => (Empty, n)
    case Cons(k, rest) =>
      var (k', n1) := NumberCase(k, n);
      var (rest', n2) := NumberCases(rest, n1);
      (Cons(k', rest'), n2)
  }

  function NumberCase(k: Case, n: nat): (r: (Case, nat))
    decreases k
  {
    match k
    case Case(es, body) =>
      var (body', n1) := NumberBlock(body, n);
      (Case(es, body'), n1)
    case Default(body) =>
      var (body', n1) := NumberBlock(body, n);
      (Default(body'), n1)
  }

  // ----- the same program -----

  /** Two programs are the same but for the numbers of their loops. */
  predicate SameStmt(s: Stmt, t: Stmt)
    decreases s
  {
    match s
    case If(c, body, orelse) =>
      && t.If? && t.cond == c && SameBlock(body, t.body) && orelse.Some? == t.orelse.Some?
      && (orelse.Some? ==> SameBlock(orelse.value, t.orelse.value))
    case Switch(c, cs) => t.Switch? && t.cond == c && SameCases(cs, t.cases)
    case While(c, body) => t.While? && t.cond == c && SameBlock(body, t.body)
    case DoWhile(body, c) => t.DoWhile? && t.cond == c && SameBlock(body, t.body)
    case For(_, name, coll, body) => t.For? && t.name == name && t.collection == coll && SameBlock(body, t.body)
    case _ => s == t
  }

  predicate SameBlock(b: List<Stmt>, b': List<Stmt>)
    decreases b
  {
    match b
    case Empty => b'.Empty?
    case Cons(s, rest) => b'.Cons? && SameStmt(s, b'.head) && SameBlock(rest, b'.tail)
  }

  predicate SameCases(cs: List<Case>, cs': List<Case>)
    decreases cs
  {
    match cs
    case Empty => cs'.Empty?
    case Cons(k, rest) =>
      && cs'.Cons? && k.Case? == cs'.head.Case? && (k.Case? ==> k.values == cs'.head.values)
      && SameBlock(k.body, cs'.head.body) && SameCases(rest, cs'.tail)
  }

  // ----- numbered programs have loops of their own -----

  predicate Between(sites: set<nat>, lo: nat, hi: nat) {
    lo <= hi && forall i :: i in sites ==> lo <= i < hi
  }

  /** The numbers from different ranges are different. */
  lemma Apart(x: set<nat>, y: set<nat>, lo: nat, mid: nat, hi: nat)
    requires Between(x, lo, mid) && Between(y, mid, hi)
    ensures x !! y && Between(x + y, lo, hi)
  {}

  lemma {:induction false} StmtNumbered(s: Stmt, n: nat)
    ensures var (s', n') := NumberStmt(s, n); SameStmt(s, s') && DistinctStmt(s') && Between(StmtSites(s'), n, n')
    decreases s
  {
    match s
    case If(_, body, orelse) =>
      var (body', n1) := NumberBlock(body, n);
      BlockNumbered(body, n);
      if orelse.Some? {
        var (orelse', n2) := NumberBlock(orelse.value, n1);
        BlockNumbered(orelse.value, n1);
        Apart(BlockSites(body'), BlockSites(orelse'), n, n1, n2);
      }
    case Switch(_, cs) => CasesNumbered(cs, n);
    case While(_, body) => BlockNumbered(body, n);
    case DoWhile(body, _) => BlockNumbered(body, n);
    case For(_, _, _, body) =>
      var (body', n1) := NumberBlock(body, n + 1);
      BlockNumbered(body, n + 1);
      Apart({n}, BlockSites(body'), n, n + 1, n1);
    case _ =>
  }

  /** Any program is, but for the numbers of its loops, one whose loops have numbers of their own. */
  lemma {:induction false} BlockNumbered(b: List<Stmt>, n: nat)
    ensures var (b', n') := NumberBlock(b, n); SameBlock(b, b') && DistinctBlock(b') && Between(BlockSites(b'), n, n')
    decreases b
  {
    if b.Cons? {
      var (s', n1) := NumberStmt(b.head, n);
      var (rest', n2) := NumberBlock(b.tail, n1);
      StmtNumbered(b.head, n);
      BlockNumbered(b.tail, n1);
      Apart(StmtSites(s'), BlockSites(rest'), n, n1, n2);
    }
  }

  lemma {:induction false} CasesNumbered(cs: List<Case>, n: nat)
    ensures var (cs', n') := NumberCases(cs, n); SameCases(cs, cs') && DistinctCases(cs') && Between(CaseSites(cs'), n, n')
    decreases cs
  {
    if cs.Cons? {
      var (k', n1) := NumberCase(cs.head, n);
      var (rest', n2) := NumberCases(cs.tail, n1);
      BlockNumbered(cs.head.body, n);
      CasesNumbered(cs.tail, n1);
      Apart(BlockSites(k'.body), CaseSites(rest'), n, n1, n2);
    }
  }
}
