/** Under `not` a constant that generation has lost is not missed: the values that its jumps carry are dropped. */
module LuaHarmless {
  import opened Wrappers
  import opened LuaValues
  import opened LuaLimits
  import opened LuaOpcodes
  import opened LuaGen
  import opened LuaEmit
  import opened LuaClose
  import opened LuaProgram
  import opened LuaHeld
  import opened LuaAlways

  /** not (((x or y) and true) or z), for locals x, y and z */
  function Negation(a: int, b: int, d: int): Expr { EUn(Not, EParen(LostLocal(a, b, d))) }

  // ---------- generation ----------

  /** The code after the negation, with its list of false jumps still open; the jumps have lost their values. */
  function NotCode(a: int, b: int, d: int): seq<Instr> {
    [ITest(a, true), IJmp(NO_JUMP), ITest(b, false), IJmp(1), IJmp(NO_JUMP), INot(0, d)]
  }

  function NotState(n: nat, a: int, b: int, d: int): FS {
    ThirdJump(n, a, b).(code := NotCode(a, b, d), jpc := [])
  }

  lemma CodeNegation(n: nat, a: int, b: int, d: int)
    ensures var f := Code(ThirdJump(n, a, b), INot(0, d));
            && f == NotState(n, a, b, d).(code := f.code) && |f.code| == 6
            && RemoveValues(f, [4, 1]) == NotState(n, a, b, d)
  {
    var c := ThirdJump(n, a, b).code;
    assert c == [ITestSet(NO_REG, a, true), IJmp(NO_JUMP), ITestSet(NO_REG, b, false), IJmp(NO_JUMP), IJmp(NO_JUMP)];
    assert Patch(c, [3], 5, NO_REG, 5)
        == [ITestSet(NO_REG, a, true), IJmp(NO_JUMP), ITest(b, false), IJmp(1), IJmp(NO_JUMP)];
    var f := Code(ThirdJump(n, a, b), INot(0, d));
    assert RemoveValues(f, [4, 1]).code == NotCode(a, b, d);
  }

  lemma NotLost(n: nat, a: int, b: int, d: int)
    requires 0 <= d < n
    ensures CodeNot(ThirdJump(n, a, b), Exp(VNonReloc(d), [4, 1], []))
              == FE(NotState(n, a, b, d), Exp(VReloc(5), [], [4, 1]))
  {
    var fs, e := ThirdJump(n, a, b), Exp(VNonReloc(d), [4, 1], []);
    CodeNegation(n, a, b, d);
    hide Code, NotState, RemoveValues;
    assert FreeExp(fs, e) == fs && |fs.code| == 5;
    assert NotKind(fs, e) == FE(Code(fs, INot(0, d)), e.(k := VReloc(5)));
    RemoveNothing(RemoveValues(Code(fs, INot(0, d)), [4, 1]));
  }

  lemma RemoveNothing(fs: FS)
    ensures RemoveValues(fs, []) == fs
  {
    assert RemoveValues(fs, []).code == fs.code;
  }

  lemma CompileNegation(p: Prims, n: nat, a: int, b: int, d: int)
    requires 0 <= a < n && 0 <= b < n && 0 <= d < n
    ensures Compile(p, OpenFunc(n), Negation(a, b, d)) == FE(NotState(n, a, b, d), Exp(VReloc(5), [], [4, 1]))
  {
    var x, r := LostLocal(a, b, d), FE(ThirdJump(n, a, b), Exp(VNonReloc(d), [4, 1], []));
    CompileLostLocal(p, n, a, b, d);
    ParenSame(p, OpenFunc(n), x, r);
    NotLost(n, a, b, d);
    UnStep(p, OpenFunc(n), EParen(x));
    hide Compile, CodeNot, OpenFunc, NotState, ThirdJump;
  }

  lemma UnStep(p: Prims, fs: FS, x: Expr)
    ensures var a := Compile(p, fs, x); Compile(p, fs, EUn(Not, x)) == CodeNot(a.fs, a.e)
  {
    hide CodeNot;
  }

  /** The value in register n, with the lists still open, and closed. */
  function Placed(n: nat, a: int, b: int, d: int): FS {
    ReserveRegs(NotState(n, a, b, d), 1).(code := NotCode(a, b, d)[5 := INot(n, d)])
  }

  function ClosedCode(n: nat, a: int, b: int, d: int): seq<Instr> {
    [ITest(a, true), IJmp(5), ITest(b, false), IJmp(1), IJmp(2), INot(n, d)]
  }

  lemma ClosedAt(n: nat, a: int, b: int, d: int, c2: seq<Instr>)
    requires |c2| >= 6
    requires forall i | 0 <= i < 6 :: ShapeAt(Placed(n, a, b, d).code, [], [4, 1], n, 9, true, c2, i)
    ensures c2[..6] == ClosedCode(n, a, b, d)
  {
    var c1 := Placed(n, a, b, d).code;
    forall i | 0 <= i < 6 ensures c2[i] == ClosedCode(n, a, b, d)[i] {
      assert ShapeAt(c1, [], [4, 1], n, 9, true, c2, i);
    }
  }

  lemma CloseNegation(n: nat, a: int, b: int, d: int)
    requires 0 <= d < n < MAXSTACK - 1
    ensures CloseLists(Placed(n, a, b, d), false, [], [4, 1], n)
              == Placed(n, a, b, d).(code := ClosedCode(n, a, b, d)
                                       + [IJmp(NO_JUMP), ILoadBool(n, false, true), ILoadBool(n, true, false)],
                                     jpc := [6], lasttarget := 9)
  {
    var fs, t: seq<int>, f := Placed(n, a, b, d), [], [4, 1];
    var g := CloseLists(fs, false, t, f, n);
    assert 4 in f && !Carries(fs.code, 4);
    CloseOk(n, a, b, d);
    CloseShape(fs, false, t, f, n);
    hide CloseLists, ShapeAt, ClosedCode;
    assert HeldAfter(fs, true, false) == [6] && |g.code| == 9;
    ClosedAt(n, a, b, d, g.code);
    assert g.code == g.code[..6] + g.code[6..];
  }

  lemma CloseOk(n: nat, a: int, b: int, d: int)
    requires n < MAXSTACK - 1
    ensures CloseLists(Placed(n, a, b, d), false, [], [4, 1], n).ok
  {
    LoadBoolsShape(Placed(n, a, b, d), false, n);
    hide LoadBools, Patch;
  }

  /** The code of `return not (((x or y) and true) or z)` in a function with n parameters. */
  function HarmlessCode(n: nat, a: int, b: int, d: int): seq<Instr> {
    [ITest(a, true), IJmp(5), ITest(b, false), IJmp(1), IJmp(2), INot(n, d), IJmp(2),
     ILoadBool(n, false, true), ILoadBool(n, true, false), IReturn(n, 2)]
  }

  function OpenState(n: nat, a: int, b: int, d: int): FS {
    Placed(n, a, b, d).(code := HarmlessCode(n, a, b, d)[..9][6 := IJmp(NO_JUMP)], jpc := [6], lasttarget := 9)
  }

  lemma AnyRegNegation(n: nat, a: int, b: int, d: int)
    requires 0 <= d < n < MAXSTACK - 1
    ensures Exp2AnyReg(NotState(n, a, b, d), Exp(VReloc(5), [], [4, 1]))
              == FE(OpenState(n, a, b, d), Init(VNonReloc(n)))
  {
    var fs, e := NotState(n, a, b, d), Exp(VReloc(5), [], [4, 1]);
    var f := ReserveRegs(fs, 1);
    CloseNegation(n, a, b, d);
    assert OpenState(n, a, b, d).code == ClosedCode(n, a, b, d)
                                         + [IJmp(NO_JUMP), ILoadBool(n, false, true), ILoadBool(n, true, false)];
    hide CloseLists, ClosedCode, HarmlessCode;
    assert Discharge2Reg(f, e, n) == FE(Placed(n, a, b, d), e.(k := VNonReloc(n)));
  }

  lemma CodeReturnAt(n: nat, a: int, b: int, d: int)
    requires n < MAXSTACK - 1
    ensures var f := Code(OpenState(n, a, b, d), IReturn(n, 2));
            f.ok && f.asserts && !f.clean && f.code == HarmlessCode(n, a, b, d)
  {
    var code := OpenState(n, a, b, d).code;
    assert Patch(code, [6], 9, NO_REG, 9) == HarmlessCode(n, a, b, d)[..9];
    assert InRange(6, 9);
  }

  lemma NegationCode(p: Prims, n: nat, a: int, b: int, d: int)
    requires 0 <= a < n && 0 <= b < n && 0 <= d < n < MAXSTACK - 1
    ensures var f := ReturnExpr(p, n, Negation(a, b, d));
            f.ok && f.asserts && !f.clean && f.code == HarmlessCode(n, a, b, d)
  {
    CompileNegation(p, n, a, b, d);
    AnyRegNegation(n, a, b, d);
    CodeReturnAt(n, a, b, d);
    hide Compile, Exp2AnyReg, Code, OpenState, HarmlessCode, NotState, OpenFunc;
  }

  // ---------- the run ----------

  lemma NegationRun(p: Prims, k: seq<Value>, n: nat, a: int, b: int, d: int, r: Regs, h: History) returns (steps: nat)
    ensures var v := Truthy(Get(r, a)) || Truthy(Get(r, b)) || Truthy(Get(r, d));
            Steps(p, k, HarmlessCode(n, a, b, d), Machine(0, r, h), steps) == Some(Machine(9, r[n := Bool(!v)], h))
  {
    var code, m0 := HarmlessCode(n, a, b, d), Machine(0, r, h);
    var m7, m9 := Machine(7, r, h), Machine(9, r[n := Bool(false)], h);
    assert Step(p, k, code, m7) == Some(m9) && Steps(p, k, code, m7, 1) == Steps(p, k, code, m9, 0);
    if Truthy(Get(r, a)) {
      assert Step(p, k, code, m0) == Some(m7) && Steps(p, k, code, m0, 2) == Steps(p, k, code, m7, 1);
      steps := 2;
    } else if Truthy(Get(r, b)) {
      var m2, m4 := Machine(2, r, h), Machine(4, r, h);
      assert Step(p, k, code, m0) == Some(m2) && Step(p, k, code, m2) == Some(m4) && Step(p, k, code, m4) == Some(m7);
      assert Steps(p, k, code, m2, 3) == Steps(p, k, code, m4, 2) == Steps(p, k, code, m7, 1);
      assert Steps(p, k, code, m0, 4) == Steps(p, k, code, m2, 3);
      steps := 4;
    } else {
      var r' := r[n := Bool(!Truthy(Get(r, d)))];
      var m2, m5, m6, m := Machine(2, r, h), Machine(5, r, h), Machine(6, r', h), Machine(9, r', h);
      assert Step(p, k, code, m0) == Some(m2) && Step(p, k, code, m2) == Some(m5);
      assert Step(p, k, code, m5) == Some(m6) && Step(p, k, code, m6) == Some(m);
      assert Steps(p, k, code, m5, 2) == Steps(p, k, code, m6, 1) == Steps(p, k, code, m, 0);
      assert Steps(p, k, code, m0, 4) == Steps(p, k, code, m2, 3) == Steps(p, k, code, m5, 2);
      steps := 4;
    }
  }

  lemma NegationValue(p: Prims, a: int, b: int, d: int, r: Regs, h: History)
    ensures var v := Truthy(Get(r, a)) || Truthy(Get(r, b)) || Truthy(Get(r, d));
            Eval(p, Negation(a, b, d), r, h) == Outcome(Bool(!v), h)
    ensures !LosesNothing(p, Negation(a, b, d))
  {
    var x := LostLocal(a, b, d);
    LostLocalValue(p, a, b, d, r, h);
    assert Eval(p, EParen(x), r, h) == Eval(p, x, r, h);
    LostLocalSketch(p, a, b, d);
    assert Analyse(p, EParen(x), false).clean == Analyse(p, x, false).clean;
    hide LostLocal;
  }

  /** For all locals x, y and z the code of `return not (((x or y) and true) or z)` is right, although the
      constant is lost as it is without `not`. */
  lemma LostConstantHarmless(p: Prims, n: nat, a: int, b: int, d: int, r: Regs, h: History) returns (steps: nat)
    requires 0 <= a < n && 0 <= b < n && 0 <= d < n < MAXSTACK - 1
    ensures var f := ReturnExpr(p, n, Negation(a, b, d)); var m := Steps(p, f.k, f.code, Machine(0, r, h), steps);
            && f.ok && f.asserts && !f.clean && !LosesNothing(p, Negation(a, b, d))
            && m.Some? && Returning(f.code, n, r, Eval(p, Negation(a, b, d), r, h), m.value)
  {
    NegationCode(p, n, a, b, d);
    var f := ReturnExpr(p, n, Negation(a, b, d));
    var k := f.k;
    hide ReturnExpr;
    NegationValue(p, a, b, d, r, h);
    assert HarmlessCode(n, a, b, d)[9] == IReturn(n, 2) && |HarmlessCode(n, a, b, d)| == 10;
    hide LostLocal, Analyse, Eval, Steps, HarmlessCode;
    steps := NegationRun(p, k, n, a, b, d, r, h);
  }
}
