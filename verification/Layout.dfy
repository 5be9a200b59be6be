/** Emitted code in its place inside a program. */
module Layout {
  import opened Codegen
  import opened CodegenFacts
  import opened LoopDepth
  import M = Machine

  // ----- code in place -----

  ghost predicate CodeAt(P: Code, a: nat, code: Code) {
    a + |code| <= |P| && P[a..a + |code|] == code
  }

  lemma CodeSplit(P: Code, a: nat, x: Code, y: Code)
    requires CodeAt(P, a, x + y)
    ensures CodeAt(P, a, x) && CodeAt(P, a + |x|, y)
  {
    var s := P[a..a + |x + y|];
    assert s[..|x|] == x && s[|x|..] == y;
    assert P[a..a + |x|] == s[..|x|];
    assert P[a + |x|..a + |x| + |y|] == s[|x|..];
  }

  lemma CodeOp(P: Code, a: nat, code: Code, i: nat)
    requires CodeAt(P, a, code) && i < |code|
    ensures a + i < |P| && P[a + i] == code[i]
  {
    assert P[a + i] == P[a..a + |code|][i];
  }

  // ----- code in place, with its loose breaks and continues resolved -----

  ghost predicate LinkedAt(P: Code, a: nat, code: Code, brk: nat, cont: nat) {
    CodeAt(P, a, Patch(code, brk, cont))
  }

  lemma LinkedSplit(P: Code, a: nat, x: Code, y: Code, brk: nat, cont: nat)
    requires LinkedAt(P, a, x + y, brk, cont)
    ensures LinkedAt(P, a, x, brk, cont) && LinkedAt(P, a + |x|, y, brk, cont)
  {
    PatchConcat(x, y, brk, cont);
    CodeSplit(P, a, Patch(x, brk, cont), Patch(y, brk, cont));
  }

  lemma LinkedOp(P: Code, a: nat, code: Code, i: nat, brk: nat, cont: nat)
    requires LinkedAt(P, a, code, brk, cont) && i < |code|
    ensures a + i < |P| && P[a + i] == PatchOp(code[i], brk, cont)
  {
    CodeOp(P, a, Patch(code, brk, cont), i);
  }

  lemma LinkedPlain(P: Code, a: nat, code: Code, brk: nat, cont: nat)
    requires LinkedAt(P, a, code, brk, cont) && Plain(code)
    ensures CodeAt(P, a, code)
  {
    PatchPlain(code, brk, cont);
  }

  lemma LinkedTwice(P: Code, a: nat, code: Code, brk: nat, cont: nat, brk': nat, cont': nat)
    requires LinkedAt(P, a, Patch(code, brk, cont), brk', cont')
    ensures LinkedAt(P, a, code, brk, cont)
  {
    PatchTwice(code, brk, cont, brk', cont');
  }

  // ----- addresses at the same loop depth -----

  lemma {:induction false} HeightAt(P: Code, a: nat, code: Code, i: nat)
    requires CodeAt(P, a, code) && i <= |code|
    ensures M.Height(P, a + i) == M.Height(P, a) + M.Height(code, i)
    decreases i
  {
    if i > 0 {
      HeightAt(P, a, code, i - 1);
      CodeOp(P, a, code, i - 1);
    }
  }

  /** Inside plain code all addresses are at one depth. */
  lemma EvenPlain(P: Code, a: nat, code: Code, p: nat, t: nat)
    requires CodeAt(P, a, code) && Plain(code)
    requires a <= p <= a + |code| && a <= t <= a + |code|
    ensures M.Even(P, p, t)
  {
    HeightAt(P, a, code, p - a);
    HeightAt(P, a, code, t - a);
    PlainHeight(code, p - a);
    PlainHeight(code, t - a);
  }

  /** The two ends of balanced code are at one depth. */
  lemma EvenSpan(P: Code, a: nat, code: Code, brk: nat, cont: nat)
    requires LinkedAt(P, a, code, brk, cont) && Balanced(code)
    ensures M.Even(P, a, a + |code|)
  {
    HeightAt(P, a, Patch(code, brk, cont), |code|);
    PatchHeight(code, brk, cont, |code|);
  }

  lemma EvenOp(P: Code, p: nat)
    requires p < |P| && M.Delta(P[p]) == 0
    ensures M.Even(P, p, p + 1)
  {}

  /** The break and continue targets are at the depth of address `a`. */
  ghost predicate LevelWith(P: Code, a: nat, brk: nat, cont: nat) {
    M.Even(P, a, brk) && M.Even(P, a, cont)
  }

  lemma LevelMove(P: Code, a: nat, a': nat, brk: nat, cont: nat)
    requires LevelWith(P, a, brk, cont) && M.Even(P, a, a')
    ensures LevelWith(P, a', brk, cont)
  {}
}
