/** The always-taken jump that luaK_goiftrue and luaK_goiffalse code for a constant operand. It joins
    the jumps held for the next position to its own list without dropping the values they carry, so
    the constant is lost on their paths. */
module LuaAlways {
  import opened Wrappers
  import opened LuaValues
  import opened LuaLimits
  import opened LuaOpcodes
  import opened LuaGen
  import opened LuaRun
  import opened LuaInv
  import opened LuaEmit
  import opened LuaDischarge
  import opened LuaClose
  import opened LuaProgram
  import opened LuaHeld

  // ---------- when the jump is right ----------

  /** On the run c, if control comes here, it leaves by the always-taken jump's list with the registers
      as they were, and what the list stands for on this path is v. */
  ghost predicate LeavesWith(c: Ctx, fs: FS, v: Value) {
    var j := AlwaysJump(fs);
    var before, after := ViewOf(c, fs), ViewOf(c, j.fs);
    before.Here? ==>
      && after.Away? && after.n in j.list && after.r == before.r && after.h == before.h
      && (after.carried.None? || after.carried.value == v)
  }

  /** A value of the given truth that is not v. */
  function OtherThan(v: Value, truth: bool): (w: Value)
    ensures w != v && Truthy(w) == truth
  {
    if truth then (if v == Bool(true) then Num(Real(0.0)) else Bool(true)) else if v == Nil then Bool(false) else Nil
  }

  /** A run that enters at the TESTSET of the jump n and takes that jump with a value other than v. */
  lemma CarriedRun(p: Prims, k: seq<Value>, fs: FS, n: int, v: Value) returns (c: Ctx)
    requires WF(fs) && n in fs.jpc && Carries(fs.code, n) && AlwaysJump(fs).fs.ok
    ensures c.p == p && c.k == k && Entry(c, fs) && !LeavesWith(c, fs, v)
  {
    var i := fs.code[n - 1];
    var w := OtherThan(v, i.cond);
    c := Ctx(p, k, n - 1, map[i.b := w], [], true);
    if n > 1 { assert InstrOK(fs.code, fs.lasttarget, n - 2); }
    CodeUnheld(fs.(jpc := []), IJmp(NO_JUMP));
    assert AlwaysJump(fs).fs.code == fs.code + [IJmp(NO_JUMP)];
    assert Entering(c, fs.code) == Exit(n, c.r, [], Some(w));
    assert Entering(c, AlwaysJump(fs).fs.code) == Exit(n, c.r, [], Some(w));
  }

  /** On every run from every entry point the always-taken jump stands for its constant, exactly if no
      jump that is held when it is coded carries a value. */
  lemma AlwaysJumpExact(p: Prims, k: seq<Value>, fs: FS, v: Value)
    requires WF(fs) && AlwaysJump(fs).fs.ok
    ensures (forall c: Ctx | c.p == p && c.k == k && Entry(c, fs) :: LeavesWith(c, fs, v))
            <==> !AnyCarries(fs.code, fs.jpc)
  {
    if AnyCarries(fs.code, fs.jpc) {
      var n :| n in fs.jpc && Carries(fs.code, n);
      var c := CarriedRun(p, k, fs, n, v);
    } else {
      forall c: Ctx | c.p == p && c.k == k && Entry(c, fs) ensures LeavesWith(c, fs, v) {
        JumpView(c, fs);
        assert AlwaysJump(fs) == FL(Jump(fs).fs.(clean := AlwaysJump(fs).fs.clean), Jump(fs).list);
      }
    }
  }

  // ---------- expressions whose code is wrong ----------

  /** ((x or y) and true) or z, for locals x, y and z */
  function LostLocal(a: int, b: int, d: int): Expr {
    EBin(OrOp, EParen(EBin(AndOp, EParen(EBin(OrOp, ELocal(a), ELocal(b))), ETrue)), ELocal(d))
  }

  lemma CondJumpUnheld(fs: FS, i: Instr)
    requires fs.jpc == []
    ensures CondJump(fs, i) == FL(fs.(code := fs.code + [i, IJmp(NO_JUMP)]), [|fs.code| + 1])
  {
    CodeUnheld(fs, i);
    CodeUnheld(fs.(code := fs.code + [i]), IJmp(NO_JUMP));
    assert fs.code + [i, IJmp(NO_JUMP)] == fs.code + [i] + [IJmp(NO_JUMP)];
  }

  function TestLocal(fs: FS, a: int, cond: bool): FS {
    fs.(code := fs.code + [ITestSet(NO_REG, a, cond), IJmp(NO_JUMP)])
  }

  /** The left operand of and/or is a local whose jumps are all of the kind that stays. */
  lemma LocalLeft(fs: FS, k: Kind, a: int, sense: bool, stay: seq<int>)
    requires fs.jpc == [] && 0 <= a < fs.nactvar && (k == VLocal(a) || k == VNonReloc(a))
    ensures var g := TestLocal(fs, a, !sense); var n := |fs.code| + 1;
            GoIf(fs, if sense then Exp(k, stay, []) else Exp(k, [], stay), sense)
              == FE(g.(jpc := stay, lasttarget := n + 1),
                    if sense then Exp(VNonReloc(a), [], [n]) else Exp(VNonReloc(a), [n], []))
  {
    CondJumpUnheld(fs, ITestSet(NO_REG, a, !sense));
    hide CondJump;
  }

  function FirstTest(n: nat, a: int): FS { TestLocal(OpenFunc(n), a, true).(lasttarget := 2) }

  function SecondTest(n: nat, a: int, b: int): FS {
    TestLocal(FirstTest(n, a), b, false).(lasttarget := 4, jpc := [1])
  }

  function ThirdJump(n: nat, a: int, b: int): FS {
    var fs := SecondTest(n, a, b);
    fs.(code := fs.code + [IJmp(NO_JUMP)], lasttarget := 5, jpc := [3], clean := false)
  }

  lemma InfixAlways(n: nat, a: int, b: int)
    ensures Infix(SecondTest(n, a, b), OrOp, Exp(VTrue, [], [3])) == FE(ThirdJump(n, a, b), Exp(VTrue, [4, 1], []))
  {
    var fs := SecondTest(n, a, b);
    CodeUnheld(fs.(jpc := []), IJmp(NO_JUMP));
    assert Carries(fs.code, 1) && 1 in fs.jpc;
    assert AlwaysJump(fs) == FL(fs.(code := fs.code + [IJmp(NO_JUMP)], jpc := [], clean := false), [4, 1]);
    hide AlwaysJump;
  }

  lemma ParenSame(p: Prims, fs: FS, x: Expr, a: FE)
    requires Compile(p, fs, x) == a && Discharged(a.e.k)
    ensures Compile(p, fs, EParen(x)) == a
  {
    hide Infix, Posfix, Prefix, Indexed, Exp2AnyReg, Exp2Val, AddK, Code, FreeReg;
  }

  /** What is known of a leaf without code, once luaK_dischargevars has seen it. */
  function LeafKind(y: Expr): Kind {
    match y
    case ETrue => VTrue
    case ELocal(d) => VNonReloc(d)
    case _ => VFalse
  }

  lemma BinStep(p: Prims, fs: FS, op: BinOp, x: Expr, y: Expr)
    ensures var a := Compile(p, fs, x); var b := Infix(a.fs, op, a.e); var c := Compile(p, b.fs, y);
            Compile(p, fs, EBin(op, x, y)) == Posfix(p, c.fs, op, b.e, c.e)
  {
    hide Infix, Posfix, Prefix, DischargeVars, Indexed, Exp2AnyReg, Exp2Val, AddK;
  }

  lemma LeafStep(p: Prims, fs: FS, y: Expr)
    requires y.ETrue? || y.EFalse? || y.ELocal?
    ensures var c := Compile(p, fs, y); c.fs == fs && DischargeVars(fs, c.e) == FE(fs, Init(LeafKind(y)))
  {}

  /** and/or with a leaf on the right. */
  lemma LogicLeaf(p: Prims, fs: FS, op: BinOp, x: Expr, y: Expr, a: FE, b: FE)
    requires (op == AndOp || op == OrOp) && (y.ETrue? || y.EFalse? || y.ELocal?)
    requires Compile(p, fs, x) == a && Infix(a.fs, op, a.e) == b && b.fs.asserts
    requires if op == AndOp then b.e.t == [] else b.e.f == []
    ensures Compile(p, fs, EBin(op, x, y))
              == FE(b.fs, if op == AndOp then Exp(LeafKind(y), [], b.e.f) else Exp(LeafKind(y), b.e.t, []))
  {
    BinStep(p, fs, op, x, y);
    LeafStep(p, b.fs, y);
    hide Infix, Compile, LeafKind, DischargeVars;
    assert b.fs.(asserts := true) == b.fs;
  }

  /** The same, when the left operand is parenthesised. */
  lemma ParenLogic(p: Prims, fs: FS, op: BinOp, x: Expr, y: Expr, a: FE, b: FE)
    requires (op == AndOp || op == OrOp) && (y.ETrue? || y.EFalse? || y.ELocal?)
    requires Compile(p, fs, x) == a && Discharged(a.e.k) && Infix(a.fs, op, a.e) == b && b.fs.asserts
    requires if op == AndOp then b.e.t == [] else b.e.f == []
    ensures Compile(p, fs, EBin(op, EParen(x), y))
              == FE(b.fs, if op == AndOp then Exp(LeafKind(y), [], b.e.f) else Exp(LeafKind(y), b.e.t, []))
  {
    ParenSame(p, fs, x, a);
    hide Infix, Compile, LeafKind;
    LogicLeaf(p, fs, op, EParen(x), y, a, b);
  }

  lemma InfixFirst(n: nat, a: int)
    requires 0 <= a < n
    ensures Infix(OpenFunc(n), OrOp, Init(VLocal(a))) == FE(FirstTest(n, a), Exp(VNonReloc(a), [1], []))
  {
    LocalLeft(OpenFunc(n), VLocal(a), a, false, []);
    hide GoIfTrue, GoIfFalse;
  }

  lemma InfixSecond(n: nat, a: int, b: int)
    requires 0 <= b < n
    ensures Infix(FirstTest(n, a), AndOp, Exp(VNonReloc(b), [1], []))
              == FE(SecondTest(n, a, b), Exp(VNonReloc(b), [], [3]))
  {
    LocalLeft(FirstTest(n, a), VNonReloc(b), b, true, [1]);
    hide GoIfTrue, GoIfFalse;
  }

  lemma CompileFirst(p: Prims, n: nat, a: int, b: int)
    requires 0 <= a < n && 0 <= b < n
    ensures Compile(p, OpenFunc(n), EBin(OrOp, ELocal(a), ELocal(b))) == FE(FirstTest(n, a), Exp(VNonReloc(b), [1], []))
  {
    var fs, x := OpenFunc(n), ELocal(a);
    InfixFirst(n, a);
    assert Compile(p, fs, x) == FE(fs, Init(VLocal(a))) && FirstTest(n, a).asserts;
    hide Infix, Compile, OpenFunc, FirstTest;
    LogicLeaf(p, fs, OrOp, x, ELocal(b), FE(fs, Init(VLocal(a))), FE(FirstTest(n, a), Exp(VNonReloc(a), [1], [])));
  }

  lemma CompileSecond(p: Prims, n: nat, a: int, b: int)
    requires 0 <= a < n && 0 <= b < n
    ensures var x := EBin(OrOp, ELocal(a), ELocal(b));
            Compile(p, OpenFunc(n), EBin(AndOp, EParen(x), ETrue)) == FE(SecondTest(n, a, b), Exp(VTrue, [], [3]))
  {
    var x, f2 := EBin(OrOp, ELocal(a), ELocal(b)), SecondTest(n, a, b);
    CompileFirst(p, n, a, b);
    InfixSecond(n, a, b);
    assert f2.asserts;
    hide Infix, Compile, OpenFunc, FirstTest, SecondTest;
    ParenLogic(p, OpenFunc(n), AndOp, x, ETrue, FE(FirstTest(n, a), Exp(VNonReloc(b), [1], [])),
               FE(f2, Exp(VNonReloc(b), [], [3])));
  }

  lemma CompileLostLocal(p: Prims, n: nat, a: int, b: int, d: int)
    requires 0 <= a < n && 0 <= b < n && 0 <= d < n
    ensures Compile(p, OpenFunc(n), LostLocal(a, b, d)) == FE(ThirdJump(n, a, b), Exp(VNonReloc(d), [4, 1], []))
  {
    var y, f3 := EBin(AndOp, EParen(EBin(OrOp, ELocal(a), ELocal(b))), ETrue), ThirdJump(n, a, b);
    CompileSecond(p, n, a, b);
    InfixAlways(n, a, b);
    assert f3.asserts;
    hide Infix, Compile, OpenFunc, SecondTest, ThirdJump;
    ParenLogic(p, OpenFunc(n), OrOp, y, ELocal(d), FE(SecondTest(n, a, b), Exp(VTrue, [], [3])),
               FE(f3, Exp(VTrue, [4, 1], [])));
  }

  /** Six instructions with a bare jump at 4 and a jump with a value at m, after their list is closed. */
  function TwoClosed(code: seq<Instr>, m: int, reg: int): seq<Instr>
    requires |code| == 6 && 1 <= m <= 2 && code[m - 1].ITestSet?
  {
    var i := code[m - 1];
    code[m - 1 := if reg != i.b then ITestSet(reg, i.b, i.cond) else ITest(i.b, i.cond)][m := IJmp(8 - m)][4 := IJmp(3)]
  }

  lemma TwoShape(c1: seq<Instr>, m: int, reg: int, c2: seq<Instr>)
    requires |c1| == 6 <= |c2| && 1 <= m <= 2 && c1[m - 1].ITestSet? && !c1[3].ITestSet?
    requires forall i | 0 <= i < 6 :: ShapeAt(c1, [4, m], [], reg, 9, true, c2, i)
    ensures c2[..6] == TwoClosed(c1, m, reg)
  {
    forall i | 0 <= i < 6 ensures c2[i] == TwoClosed(c1, m, reg)[i] {
      assert ShapeAt(c1, [4, m], [], reg, 9, true, c2, i);
    }
  }

  lemma TwoNeed(fs: FS, m: int)
    requires |fs.code| == 6 && !fs.code[3].ITestSet?
    ensures Need(fs, [4, m], [])
  {
    var t := [4, m];
    assert 4 in t && !Carries(fs.code, 4);
  }

  lemma CloseTwo(fs: FS, m: int, reg: int)
    requires |fs.code| == 6 && fs.jpc == [] && (m == 1 || m == 2) && reg != NO_REG && fs.ok
    requires Pending(fs.code, 4) && !fs.code[3].ITestSet? && Pending(fs.code, m) && fs.code[m - 1].ITestSet?
    ensures CloseLists(fs, false, [4, m], [], reg)
              == fs.(code := TwoClosed(fs.code, m, reg)
                             + [IJmp(NO_JUMP), ILoadBool(reg, false, true), ILoadBool(reg, true, false)],
                     jpc := [6], lasttarget := 9)
  {
    var t, f: seq<int> := [4, m], [];
    var g := CloseLists(fs, false, t, f, reg);
    CloseOk(fs, m, reg);
    TwoNeed(fs, m);
    CloseShape(fs, false, t, f, reg);
    hide CloseLists, Need, ShapeAt, TwoClosed;
    assert HeldAfter(fs, true, false) == [6] && |g.code| == 9;
    forall i | 0 <= i < 6 ensures ShapeAt(fs.code, t, f, reg, 9, true, g.code, i) {
      assert ShapeAt(fs.code, t, f, reg, |g.code|, Need(fs, t, f), g.code, i);
    }
    TwoShape(fs.code, m, reg, g.code);
    assert g.code == g.code[..6] + g.code[6..];
  }

  lemma CloseOk(fs: FS, m: int, reg: int)
    requires |fs.code| == 6 && fs.jpc == [] && (m == 1 || m == 2) && fs.ok
    ensures CloseLists(fs, false, [4, m], [], reg).ok
  {
    LoadBoolsShape(fs, false, reg);
    hide LoadBools, Patch;
  }

  /** The state after z has been moved to the register n, with the list of true jumps still open. */
  function MovedCode(n: nat, a: int, b: int, d: int): seq<Instr> {
    [ITestSet(NO_REG, a, true), IJmp(NO_JUMP), ITest(b, false), IJmp(1), IJmp(NO_JUMP), IMove(n, d)]
  }

  function Moved(n: nat, a: int, b: int, d: int): FS {
    ReserveRegs(ThirdJump(n, a, b), 1).(code := MovedCode(n, a, b, d), jpc := [])
  }

  lemma CodeMove(n: nat, a: int, b: int, d: int)
    requires n < MAXSTACK - 1
    ensures Code(ReserveRegs(ThirdJump(n, a, b), 1), IMove(n, d)) == Moved(n, a, b, d) && Moved(n, a, b, d).ok
  {
    var f := ReserveRegs(ThirdJump(n, a, b), 1);
    var c := f.code;
    assert c == [ITestSet(NO_REG, a, true), IJmp(NO_JUMP), ITestSet(NO_REG, b, false), IJmp(NO_JUMP), IJmp(NO_JUMP)];
    assert Patch(c, [3], 5, NO_REG, 5)
        == [ITestSet(NO_REG, a, true), IJmp(NO_JUMP), ITest(b, false), IJmp(1), IJmp(NO_JUMP)];
  }

  /** The code of `return ((x or y) and true) or z` in a function with n parameters. */
  function LostLocalCode(n: nat, a: int, b: int, d: int): seq<Instr> {
    [ITestSet(n, a, true), IJmp(7), ITest(b, false), IJmp(1), IJmp(3), IMove(n, d), IJmp(2),
     ILoadBool(n, false, true), ILoadBool(n, true, false), IReturn(n, 2)]
  }

  function OpenCode(n: nat, a: int, b: int, d: int): seq<Instr> {
    LostLocalCode(n, a, b, d)[..9][6 := IJmp(NO_JUMP)]
  }

  lemma DischargeMoved(n: nat, a: int, b: int, d: int)
    requires 0 <= d < n < MAXSTACK - 1
    ensures var e := Exp(VNonReloc(d), [4, 1], []);
            Discharge2Reg(ReserveRegs(ThirdJump(n, a, b), 1), e, n) == FE(Moved(n, a, b, d), e.(k := VNonReloc(n)))
  {
    CodeMove(n, a, b, d);
    hide Code, Moved, ThirdJump;
  }

  lemma CloseMoved(n: nat, a: int, b: int, d: int)
    requires a < n < MAXSTACK - 1
    ensures CloseLists(Moved(n, a, b, d), false, [4, 1], [], n)
              == Moved(n, a, b, d).(code := OpenCode(n, a, b, d), jpc := [6], lasttarget := 9)
  {
    var code := MovedCode(n, a, b, d);
    CodeMove(n, a, b, d);
    CloseTwo(Moved(n, a, b, d), 1, n);
    hide CloseLists;
    assert TwoClosed(code, 1, n) + [IJmp(NO_JUMP), ILoadBool(n, false, true), ILoadBool(n, true, false)]
        == OpenCode(n, a, b, d);
  }

  lemma AnyRegLost(n: nat, a: int, b: int, d: int)
    requires 0 <= a < n && 0 <= b < n && 0 <= d < n < MAXSTACK - 1
    ensures Exp2AnyReg(ThirdJump(n, a, b), Exp(VNonReloc(d), [4, 1], []))
              == FE(Moved(n, a, b, d).(code := OpenCode(n, a, b, d), jpc := [6], lasttarget := 9), Init(VNonReloc(n)))
  {
    var fs, e := ThirdJump(n, a, b), Exp(VNonReloc(d), [4, 1], []);
    DischargeMoved(n, a, b, d);
    CloseMoved(n, a, b, d);
    assert fs.nactvar == n == fs.freereg && FreeExp(fs, e) == fs;
    hide CloseLists, OpenCode, Moved, ThirdJump, Discharge2Reg, FreeExp;
    assert Exp2NextReg(fs, e) == Exp2Reg(ReserveRegs(fs, 1), e, n);
  }

  lemma LostLocalReturn(p: Prims, n: nat, a: int, b: int, d: int)
    requires 0 <= a < n && 0 <= b < n && 0 <= d < n < MAXSTACK - 1
    ensures var f := ReturnExpr(p, n, LostLocal(a, b, d));
            f.ok && f.asserts && !f.clean && f.code == LostLocalCode(n, a, b, d)
  {
    CompileLostLocal(p, n, a, b, d);
    AnyRegLost(n, a, b, d);
    CodeReturn(n, a, b, d);
    hide Compile, Exp2AnyReg, Code, Moved, OpenCode, LostLocalCode, ThirdJump, OpenFunc;
  }

  lemma CodeReturn(n: nat, a: int, b: int, d: int)
    requires n < MAXSTACK - 1
    ensures var g := Moved(n, a, b, d).(code := OpenCode(n, a, b, d), jpc := [6], lasttarget := 9);
            var f := Code(g, IReturn(n, 2));
            f.ok && f.asserts && !f.clean && f.code == LostLocalCode(n, a, b, d)
  {
    CodeMove(n, a, b, d);
    var code := OpenCode(n, a, b, d);
    hide MovedCode;
    assert Patch(code, [6], 9, NO_REG, 9) == LostLocalCode(n, a, b, d)[..9];
    assert InRange(6, 9);
  }

  /** For all locals x, y and z the code of `return ((x or y) and true) or z` returns x itself where x is
      true, so it is right exactly if x is false, nil or the value `true`. No step of generation fails. */
  lemma LostLocalWrong(p: Prims, n: nat, a: int, b: int, d: int, r: Regs, h: History) returns (steps: nat)
    requires 0 <= a < n && 0 <= b < n && 0 <= d < n < MAXSTACK - 1
    ensures var f := ReturnExpr(p, n, LostLocal(a, b, d)); var m := Steps(p, f.k, f.code, Machine(0, r, h), steps);
            var o := Eval(p, LostLocal(a, b, d), r, h);
            && f.ok && f.asserts && !LosesNothing(p, LostLocal(a, b, d))
            && m.Some? && m.value.pc == |f.code| - 1 && f.code[|f.code| - 1] == IReturn(n, 2) && m.value.h == o.h
            && Get(m.value.r, n) == (if Truthy(Get(r, a)) then Get(r, a) else o.v)
            && (Get(m.value.r, n) == o.v <==> !Truthy(Get(r, a)) || Get(r, a) == Bool(true))
  {
    LostLocalReturn(p, n, a, b, d);
    var f := ReturnExpr(p, n, LostLocal(a, b, d));
    var k, code, m0 := f.k, f.code, Machine(0, r, h);
    hide ReturnExpr;
    LostLocalValue(p, a, b, d, r, h);
    LostLocalSketch(p, a, b, d);
    steps := LostLocalRun(p, k, n, a, b, d, r, h);
  }

  lemma LostLocalValue(p: Prims, a: int, b: int, d: int, r: Regs, h: History)
    ensures Eval(p, LostLocal(a, b, d), r, h)
              == Outcome(if Truthy(Get(r, a)) || Truthy(Get(r, b)) then Bool(true) else Get(r, d), h)
  {
    var x := EBin(OrOp, ELocal(a), ELocal(b));
    assert Eval(p, x, r, h) == Outcome(if Truthy(Get(r, a)) then Get(r, a) else Get(r, b), h);
    var y := EBin(AndOp, EParen(x), ETrue);
    assert Eval(p, y, r, h) == Outcome(if Truthy(Get(r, a)) || Truthy(Get(r, b)) then Bool(true) else Get(r, b), h);
  }

  lemma LostLocalSketch(p: Prims, a: int, b: int, d: int)
    ensures !LosesNothing(p, LostLocal(a, b, d))
  {
    var x := EBin(OrOp, ELocal(a), ELocal(b));
    var y := EBin(AndOp, EParen(x), ETrue);
    assert Analyse(p, ELocal(a), false) == Plainly(SLocal, false, true);
    assert Analyse(p, x, false) == Sketch(SLocal, Valued, NoJumps, false, true);
    assert Analyse(p, ETrue, true) == Plainly(STrue, true, true);
    assert Analyse(p, EParen(x), false) == Analyse(p, x, false);
    assert Analyse(p, y, false) == Sketch(STrue, NoJumps, Valued, true, true);
    assert Analyse(p, EParen(y), false) == Analyse(p, y, false);
  }

  lemma LostLocalRun(p: Prims, k: seq<Value>, n: nat, a: int, b: int, d: int, r: Regs, h: History) returns (steps: nat)
    ensures var code := LostLocalCode(n, a, b, d);
            Steps(p, k, code, Machine(0, r, h), steps)
              == Some(Machine(9, r[n := if Truthy(Get(r, a)) then Get(r, a)
                                        else if Truthy(Get(r, b)) then Bool(true) else Get(r, d)], h))
  {
    var code, m0 := LostLocalCode(n, a, b, d), Machine(0, r, h);
    if Truthy(Get(r, a)) {
      var m1 := Machine(9, r[n := Get(r, a)], h);
      assert Step(p, k, code, m0) == Some(m1);
      assert Steps(p, k, code, m0, 1) == Steps(p, k, code, m1, 0);
      steps := 1;
    } else if Truthy(Get(r, b)) {
      var m1, m2, m3, m4 := Machine(2, r, h), Machine(4, r, h), Machine(8, r, h), Machine(9, r[n := Bool(true)], h);
      assert Step(p, k, code, m0) == Some(m1) && Step(p, k, code, m1) == Some(m2);
      assert Step(p, k, code, m2) == Some(m3) && Step(p, k, code, m3) == Some(m4);
      assert Steps(p, k, code, m2, 2) == Steps(p, k, code, m3, 1) == Steps(p, k, code, m4, 0);
      assert Steps(p, k, code, m0, 4) == Steps(p, k, code, m1, 3);
      steps := 4;
    } else {
      var r' := r[n := Get(r, d)];
      var m1, m2, m3, m4 := Machine(2, r, h), Machine(5, r, h), Machine(6, r', h), Machine(9, r', h);
      assert Step(p, k, code, m0) == Some(m1) && Step(p, k, code, m1) == Some(m2);
      assert Step(p, k, code, m2) == Some(m3) && Step(p, k, code, m3) == Some(m4);
      assert Steps(p, k, code, m2, 2) == Steps(p, k, code, m3, 1) == Steps(p, k, code, m4, 0);
      assert Steps(p, k, code, m0, 4) == Steps(p, k, code, m1, 3);
      steps := 4;
    }
  }

  // ---------- the same with constants only ----------

  /** ((1 or false) and true) or false */
  function LostConstant(): Expr {
    EBin(OrOp, EParen(EBin(AndOp, EParen(EBin(OrOp, ENum(Real(1.0)), EFalse)), ETrue)), EFalse)
  }

  function AfterOr(): FS {
    FS([ILoadK(0, 0), ITestSet(NO_REG, 0, true), IJmp(NO_JUMP)], [], 3, 0, 0, [Num(Real(1.0))], 2, true, true, true)
  }

  function LoadedOne(): FS {
    FS([ILoadK(0, 0)], [], -1, 1, 0, [Num(Real(1.0))], 2, true, true, true)
  }

  lemma LoadOne()
    ensures Discharge2AnyReg(OpenFunc(0), Init(VKNum(Real(1.0)))) == FE(LoadedOne(), Init(VNonReloc(0)))
  {
    var f := ReserveRegs(OpenFunc(0), 1);
    assert AddK(f, Num(Real(1.0))) == FI(f.(k := [Num(Real(1.0))]), 0);
    CodeUnheld(f.(k := [Num(Real(1.0))]), ILoadK(0, 0));
    hide Code, AddK;
  }

  lemma TestOne()
    ensures Infix(OpenFunc(0), OrOp, Init(VKNum(Real(1.0)))) == FE(AfterOr(), Exp(VKNum(Real(1.0)), [2], []))
  {
    var fs, e, i := OpenFunc(0), Init(VKNum(Real(1.0))), ITestSet(NO_REG, 0, true);
    LoadOne();
    CondJumpUnheld(LoadedOne().(freereg := 0), i);
    hide CondJump, Discharge2AnyReg;
    assert FreeExp(LoadedOne(), Init(VNonReloc(0))) == LoadedOne().(freereg := 0);
    assert JumpOnCond(fs, e, true) == FL(AfterOr().(lasttarget := -1), [2]);
    hide JumpOnCond, FreeExp;
  }

  lemma CompileOr(p: Prims)
    ensures Compile(p, OpenFunc(0), EBin(OrOp, ENum(Real(1.0)), EFalse)) == FE(AfterOr(), Exp(VFalse, [2], []))
  {
    var fs, a, b := OpenFunc(0), FE(OpenFunc(0), Init(VKNum(Real(1.0)))), FE(AfterOr(), Exp(VKNum(Real(1.0)), [2], []));
    TestOne();
    assert Compile(p, fs, ENum(Real(1.0))) == a;
    hide Infix, Compile;
    LogicLeaf(p, fs, OrOp, ENum(Real(1.0)), EFalse, a, b);
  }

  function AfterAnd(): FS {
    AfterOr().(code := AfterOr().code + [IJmp(NO_JUMP)], jpc := [2], lasttarget := 4)
  }

  lemma InfixAnd()
    ensures Infix(AfterOr(), AndOp, Exp(VFalse, [2], [])) == FE(AfterAnd(), Exp(VFalse, [], [3]))
  {
    CodeUnheld(AfterOr(), IJmp(NO_JUMP));
  }

  lemma InfixOr()
    ensures Infix(AfterAnd(), OrOp, Exp(VTrue, [], [3])) == FE(AfterAll(), Exp(VTrue, [4, 2], []))
  {
    var fs := AfterAnd();
    CodeUnheld(fs.(jpc := []), IJmp(NO_JUMP));
    assert Carries(fs.code, 2) && 2 in fs.jpc;
  }

  function AfterAll(): FS {
    AfterAnd().(code := AfterAnd().code + [IJmp(NO_JUMP)], jpc := [3], lasttarget := 5, clean := false)
  }

  lemma CompileLostConstant(p: Prims)
    ensures Compile(p, OpenFunc(0), LostConstant()) == FE(AfterAll(), Exp(VFalse, [4, 2], []))
  {
    var x := EBin(OrOp, ENum(Real(1.0)), EFalse);
    var y := EBin(AndOp, EParen(x), ETrue);
    CompileOr(p);
    InfixAnd();
    InfixOr();
    hide Compile, Infix;
    var a1, a2 := FE(AfterOr(), Exp(VFalse, [2], [])), FE(AfterAnd(), Exp(VTrue, [], [3]));
    ParenLogic(p, OpenFunc(0), AndOp, x, ETrue, a1, FE(AfterAnd(), Exp(VFalse, [], [3])));
    ParenLogic(p, OpenFunc(0), OrOp, y, EFalse, a2, FE(AfterAll(), Exp(VTrue, [4, 2], [])));
  }

  function LostCode(): seq<Instr> {
    [ILoadK(0, 0), ITest(0, true), IJmp(6), IJmp(1), IJmp(3), ILoadBool(0, false, false), IJmp(2),
     ILoadBool(0, false, true), ILoadBool(0, true, false)]
  }

  /** The value in register 0, with the lists still open. */
  function ValueCode(): seq<Instr> {
    [ILoadK(0, 0), ITestSet(NO_REG, 0, true), IJmp(NO_JUMP), IJmp(1), IJmp(NO_JUMP), ILoadBool(0, false, false)]
  }

  lemma DischargeLost()
    ensures var f := AfterAll().(freereg := 1);
            Code(f, ILoadBool(0, false, false)) == f.(code := ValueCode(), jpc := [])
  {
    var f := AfterAll().(freereg := 1);
    var c := f.code;
    assert c == [ILoadK(0, 0), ITestSet(NO_REG, 0, true), IJmp(NO_JUMP), IJmp(NO_JUMP), IJmp(NO_JUMP)];
    assert Patch(c, [3], 5, NO_REG, 5)
        == [ILoadK(0, 0), ITestSet(NO_REG, 0, true), IJmp(NO_JUMP), IJmp(1), IJmp(NO_JUMP)];
  }

  function ClosedLost(): FS {
    AfterAll().(freereg := 1, jpc := [6], lasttarget := 9,
                code := [ILoadK(0, 0), ITest(0, true), IJmp(6), IJmp(1), IJmp(3), ILoadBool(0, false, false),
                         IJmp(NO_JUMP), ILoadBool(0, false, true), ILoadBool(0, true, false)])
  }

  lemma CloseLost()
    ensures CloseLists(AfterAll().(freereg := 1, code := ValueCode(), jpc := []), false, [4, 2], [], 0) == ClosedLost()
  {
    CloseTwo(AfterAll().(freereg := 1, code := ValueCode(), jpc := []), 2, 0);
    hide CloseLists;
    assert TwoClosed(ValueCode(), 2, 0)
        == [ILoadK(0, 0), ITest(0, true), IJmp(6), IJmp(1), IJmp(3), ILoadBool(0, false, false)];
  }

  lemma ToRegLost()
    ensures Exp2NextReg(AfterAll(), Exp(VFalse, [4, 2], [])) == FE(ClosedLost(), Init(VNonReloc(0)))
  {
    var e := Exp(VFalse, [4, 2], []);
    var f := AfterAll().(freereg := 1);
    assert ReserveRegs(FreeExp(AfterAll(), e), 1) == f;
    DischargeLost();
    CloseLost();
    hide CloseLists, Code;
    assert Discharge2Reg(f, e, 0) == FE(f.(code := ValueCode(), jpc := []), e.(k := VNonReloc(0)));
  }

  lemma LostConstantCode(p: Prims)
    ensures var f := ReturnExpr(p, 0, LostConstant());
            f.ok && f.asserts && !f.clean && f.k == [Num(Real(1.0))] && f.code == LostCode() + [IReturn(0, 2)]
  {
    CompileLostConstant(p);
    ToRegLost();
    hide Compile, Exp2NextReg;
    var g := ClosedLost();
    assert Patch(g.code, [6], 9, NO_REG, 9) == LostCode();
    assert InRange(6, 9);
  }

  /** The generated code returns 1 where the expression is true. No step of generation failed. */
  lemma LostConstantWrong(p: Prims, r: Regs, h: History)
    ensures var f := ReturnExpr(p, 0, LostConstant());
            && f.ok && f.asserts
            && Eval(p, LostConstant(), r, h) == Outcome(Bool(true), h)
            && Steps(p, f.k, f.code, Machine(0, r, h), 2) == Some(Machine(|f.code| - 1, r[0 := Num(Real(1.0))], h))
            && f.code[|f.code| - 1] == IReturn(0, 2)
  {
    LostConstantCode(p);
    hide ReturnExpr;
    var x := EBin(OrOp, ENum(Real(1.0)), EFalse);
    var y := EBin(AndOp, EParen(x), ETrue);
    assert Eval(p, ENum(Real(1.0)), r, h) == Outcome(Num(Real(1.0)), h) && Truthy(Num(Real(1.0)));
    assert Eval(p, x, r, h) == Outcome(Num(Real(1.0)), h);
    assert Eval(p, y, r, h) == Outcome(Bool(true), h);
    var f := ReturnExpr(p, 0, LostConstant());
    var m1 := Machine(1, r[0 := Num(Real(1.0))], h);
    assert Step(p, f.k, f.code, Machine(0, r, h)) == Some(m1);
    assert Step(p, f.k, f.code, m1) == Some(Machine(9, m1.r, h));
    assert Steps(p, f.k, f.code, m1, 1) == Steps(p, f.k, f.code, Machine(9, m1.r, h), 0);
  }
}
