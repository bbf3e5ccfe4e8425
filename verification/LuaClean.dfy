/** The exact condition: generation loses no constant exactly if the analysis of the expression's
    text finds no always-taken jump that meets a jump with a value. */
module LuaClean {
  import opened LuaValues
  import opened LuaLimits
  import opened LuaOpcodes
  import opened LuaGen
  import opened LuaInv
  import opened LuaDischarge
  import opened LuaToReg
  import opened LuaCond
  import opened LuaNot
  import opened LuaOperators
  import opened LuaCorrect
  import opened LuaHeld
  import LuaParser
  import LuaProgram

  // ---------- not ----------

  lemma StripFits(fs: FS, e: Exp, g: FS, s: Sketch, exact: bool)
    requires ListFits(fs.code, e.t, s.t) && ListFits(fs.code, e.f, s.f) && HeldFits(fs, s.held, exact)
    requires Stripped(fs.code, e.f, e.t, g.code) && g.jpc == fs.jpc
    requires forall n | n in e.t || n in e.f :: n !in fs.jpc
    ensures ListFits(g.code, e.t, Strip(s.t)) && ListFits(g.code, e.f, Strip(s.f)) && HeldFits(g, s.held, exact)
  {
    forall n | 0 < n <= |fs.code|
      ensures Carries(g.code, n) == (Carries(fs.code, n) && n !in e.t && n !in e.f)
    {
      assert StrippedAt(fs.code, e.f, e.t, g.code, n - 1);
    }
  }

  /** What NotKind leaves: the lists carry what they did, and only a constant leaves what was held. */
  ghost predicate Turned(fs: FS, e: Exp, n: FE, s: Sketch, exact: bool) {
    && n.e.t == e.t && n.e.f == e.f
    && Same(fs.code, n.fs.code, e.t) && Same(fs.code, n.fs.code, e.f)
    && HeldFits(n.fs, Constant(s.k) && s.held, exact)
    && (n.fs.jpc == [] || n.fs == fs)
    && Fits(n.fs.code, n.fs.nactvar, n.e.k, Negated(s).k)
  }

  lemma NotShape(c: Ctx, fs0: FS, fs: FS, e: Exp, x: Expr, s: Sketch, exact: bool)
    requires Rep(c, fs0, fs, e, x) && Discharged(e.k) && SketchFits(fs, e, s, exact)
    requires NotKind(fs, e).fs.ok && NotKind(fs, e).fs.k <= c.k
    ensures Turned(fs, e, NotKind(fs, e), s, exact)
  {
    RepShape(c, fs0, fs, e, x);
    hide Rep, WF, Discharge2AnyReg, FreeExp, Code, ExpOK, Turned, SketchFits, InvertJump;
    if ConstantIs(e.k, true) || ConstantIs(e.k, false) {
      ConstNot(fs, e, s, exact);
    } else if e.k.VJmp? {
      JmpNot(fs, e, s, exact);
    } else {
      ValueNot(c, fs0, fs, e, x);
      ValueTurned(fs, e, NotKind(fs, e), s, exact);
    }
  }

  lemma ConstNot(fs: FS, e: Exp, s: Sketch, exact: bool)
    requires SketchFits(fs, e, s, exact) && (ConstantIs(e.k, true) || ConstantIs(e.k, false))
    ensures Turned(fs, e, NotKind(fs, e), s, exact)
  {}

  lemma JmpNot(fs: FS, e: Exp, s: Sketch, exact: bool)
    requires SketchFits(fs, e, s, exact) && WF(fs) && ExpOK(fs, e) && e.k.VJmp?
    ensures Turned(fs, e, NotKind(fs, e), s, exact)
  {}

  lemma ValueTurned(fs: FS, e: Exp, n: FE, s: Sketch, exact: bool)
    requires SketchFits(fs, e, s, exact) && Discharged(e.k) && !e.k.VJmp?
    requires !ConstantIs(e.k, true) && !ConstantIs(e.k, false)
    requires Same(fs.code, n.fs.code, e.t) && Same(fs.code, n.fs.code, e.f) && n.fs.jpc == []
    requires |n.fs.code| > 0 && n.fs.code[|n.fs.code| - 1].INot? && n.e.k.VReloc? && n.e.t == e.t && n.e.f == e.f
    ensures Turned(fs, e, n, s, exact)
  {}

  lemma ValueNot(c: Ctx, fs0: FS, fs: FS, e: Exp, x: Expr)
    requires Rep(c, fs0, fs, e, x) && Discharged(e.k) && !e.k.VJmp?
    requires !ConstantIs(e.k, true) && !ConstantIs(e.k, false)
    requires var d := Discharge2AnyReg(fs, e); d.fs.ok && d.fs.k <= c.k
    ensures var n := NotKind(fs, e);
            && Same(fs.code, n.fs.code, e.t) && Same(fs.code, n.fs.code, e.f) && n.fs.jpc == []
            && |n.fs.code| > 0 && n.fs.code[|n.fs.code| - 1].INot? && n.e.k.VReloc? && n.e.t == e.t && n.e.f == e.f
  {
    var d := Discharge2AnyReg(fs, e);
    var f := FreeExp(d.fs, d.e);
    Discharge2AnyRegRep(c, fs0, fs, e, x);
    ListsOK(c, fs0, fs, e, x);
    ListsOK(c, fs0, d.fs, d.e, x);
    AnyRegSame(fs, e);
    FreeWF(c, fs0, d.fs, d.e, x);
    assert ListOK(f, e.t) && ListOK(f, e.f);
    hide Rep, Discharge2AnyReg, WF, FreeExp, ListOK, Carries;
    CodeSame(f, INot(0, d.e.k.info), e.t);
    CodeSame(f, INot(0, d.e.k.info), e.f);
  }

  lemma NotFits(c: Ctx, fs0: FS, fs: FS, e: Exp, x: Expr, s: Sketch, exact: bool)
    requires Rep(c, fs0, fs, e, x) && SketchFits(fs, e, s, exact) && TrueConstants(c, e.k)
    requires CodeNot(fs, e).fs.ok && CodeNot(fs, e).fs.k <= c.k
    ensures var r := CodeNot(fs, e); SketchFits(r.fs, r.e, Negated(s), exact)
  {
    var d := DischargeVars(fs, e);
    var n := NotKind(d.fs, d.e);
    var g := RemoveValues(RemoveValues(n.fs, n.e.t), n.e.f);
    hide Rep, WF, NotKind, DischargeVars, SketchFits, Stripped, TrueConstants, Turned, Read, Negated;
    DischargeVarsRep(c, fs0, fs, e, x);
    ReadFits(c, fs0, fs, e, x, s, exact);
    ListsOK(c, fs0, d.fs, d.e, x);
    NotShape(c, fs0, d.fs, d.e, x, Read(s), exact);
    RemoveBoth(n.fs, n.e.f, n.e.t);
    NotEnd(d.fs, d.e, n, g, s, exact);
  }

  lemma NotLists(fs: FS, e: Exp, n: FE, s: Sketch, exact: bool)
    requires SketchFits(fs, e, s, exact) && ListOK(fs, e.t) && ListOK(fs, e.f) && Turned(fs, e, n, s, exact)
    ensures ListFits(n.fs.code, n.e.t, s.t) && ListFits(n.fs.code, n.e.f, s.f)
    ensures forall m | m in n.e.t || m in n.e.f :: m !in n.fs.jpc
  {
    SameList(fs.code, n.fs.code, e.t, s.t);
    SameList(fs.code, n.fs.code, e.f, s.f);
  }

  lemma NotEnd(fs: FS, e: Exp, n: FE, g: FS, s: Sketch, exact: bool)
    requires SketchFits(fs, e, Read(s), exact) && ListOK(fs, e.t) && ListOK(fs, e.f)
    requires Turned(fs, e, n, Read(s), exact)
    requires g == n.fs.(code := g.code) && Stripped(n.fs.code, n.e.f, n.e.t, g.code)
    ensures SketchFits(g, Exp(n.e.k, n.e.f, n.e.t), Negated(s), exact)
  {
    var r := Read(s);
    var h := r.(held := Constant(r.k) && r.held);
    NotLists(fs, e, n, r, exact);
    NotKindFits(fs, e, n, g, s, exact);
    hide AnyCarries, Same, ListOK, Carries, HeldFits, ListFits, Stripped, Fits;
    StripFits(n.fs, n.e, g, h, exact);
  }

  lemma NotKindFits(fs: FS, e: Exp, n: FE, g: FS, s: Sketch, exact: bool)
    requires Turned(fs, e, n, Read(s), exact)
    requires g == n.fs.(code := g.code) && Stripped(n.fs.code, n.e.f, n.e.t, g.code)
    ensures HeldFits(n.fs, Constant(Read(s).k) && Read(s).held, exact)
    ensures Fits(g.code, g.nactvar, n.e.k, Negated(s).k)
  {
    if |g.code| > 0 { assert StrippedAt(n.fs.code, n.e.f, n.e.t, g.code, |g.code| - 1); }
    hide HeldFits, Same;
  }

  // ---------- unary and binary operators ----------

  lemma ValLists(fs: FS, e: Exp)
    ensures !HasJumps(Exp2AnyReg(fs, e).e) && !HasJumps(Exp2Val(fs, e).e) && Discharged(Exp2Val(fs, e).e.k)
  {
    hide DischargeValue, CloseLists, Code;
  }

  lemma RKLists(fs: FS, e: Exp)
    ensures !HasJumps(Exp2RK(fs, e).e)
  {
    hide Exp2Val, Exp2AnyReg;
    ValLists(fs, e);
    ValLists(Exp2Val(fs, e).fs, Exp2Val(fs, e).e);
  }

  lemma CodeShape(fs: FS, i: Instr)
    ensures var g := Code(fs, i); g.jpc == [] && |g.code| == |fs.code| + 1 && g.code[|fs.code|] == i
    ensures CondJump(fs, i).fs.jpc == []
  {}

  /** An instruction that leaves a value has taken what was held. */
  lemma ArithShape(p: Prims, fs: FS, op: CodeOp, e1: Exp, e2: Exp, clean: bool, exact: bool)
    requires FoldConstants(p, op, e1, e2).None?
    ensures var r := CodeArith(p, fs, op, e1, e2); SketchFits(r.fs, r.e, Plainly(SCode, false, clean), exact)
  {
    var d2 := if Unary(op) then FEI(fs, e2, 0) else Exp2RK(fs, e2);
    var d1 := Exp2RK(d2.fs, e1);
    RKLists(d2.fs, e1);
    CodeShape(FreeExps(d1.fs, d1.e, d1.i, d2.e, d2.i), OpInstr(op, d1.i, d2.i));
    hide Exp2RK, FreeExps, Code, CondJump;
  }

  lemma UnFits(c: Ctx, fs0: FS, fs: FS, op: UnOp, e: Exp, x: Expr, s: Sketch)
    requires Rep(c, fs0, fs, e, x) && SketchFits(fs, e, s, Few(c.k)) && TrueConstants(c, e.k)
    requires var r := Prefix(c.p, fs, op, e); r.fs.ok && r.fs.k <= c.k
    ensures var r := Prefix(c.p, fs, op, e); SketchFits(r.fs, r.e, UnSketch(c.p, op, s), Few(c.k))
  {
    match op
    case Not => NotFits(c, fs0, fs, e, x, s, Few(c.k));
    case Minus =>
      ExitsFit(fs, e, s, Few(c.k));
      if IsNumeral(e) {
        NegateFolds(c, fs, e);
      } else {
        var d := Exp2AnyReg(fs, e);
        hide Rep, CodeArith, Exp2AnyReg;
        Exp2AnyRegRep(c, fs0, fs, e, x);
        ArithShape(c.p, d.fs, CUnm, d.e, Init(VKNum(Real(0.0))), s.clean, Few(c.k));
      }
    case Len =>
      var d := Exp2AnyReg(fs, e);
      hide Rep, CodeArith, Exp2AnyReg;
      ArithShape(c.p, d.fs, CLen, d.e, Init(VKNum(Real(0.0))), s.clean, Few(c.k));
  }

  /** Which of the operands of arithmetic are numerals. */
  predicate NumeralAs(e: Exp, s: Sketch) {
    (IsNumeral(e) <==> Numeral(s)) && (IsNumeral(e) ==> e.k.nval == s.k.n)
  }

  lemma NumeralFits(fs: FS, e: Exp, s: Sketch, exact: bool)
    requires SketchFits(fs, e, s, exact)
    ensures NumeralAs(e, s)
  {}

  lemma LeftFits(c: Ctx, fs0: FS, fs: FS, op: BinOp, e: Exp, x: Expr, s: Sketch)
    requires Rep(c, fs0, fs, e, x) && SketchFits(fs, e, s, Few(c.k)) && op != AndOp && op != OrOp
    requires var b := Infix(fs, op, e); b.fs.ok && b.fs.k <= c.k
    ensures var b := Infix(fs, op, e); var a := BeforeRight(op, s);
            HeldFits(b.fs, a.held, Few(c.k)) && (op.ArithOp? ==> NumeralAs(b.e, a))
  {
    NumeralFits(fs, e, s, Few(c.k));
    if op == ConcatOp {
      ConcatLeft(c, fs0, fs, e, x, s);
    } else {
      hide Rep, SketchFits, HeldFits, Exp2RK;
      if op.ArithOp? && IsNumeral(e) {
        NumeralHeld(fs, e, s, Few(c.k));
      } else {
        OperandFits(c, fs0, fs, e, x, s);
        Exp2RKRep(c, fs0, fs, e, x);
      }
    }
  }

  lemma NumeralHeld(fs: FS, e: Exp, s: Sketch, exact: bool)
    requires SketchFits(fs, e, s, exact) && Numeral(s)
    ensures HeldFits(fs, OperandHeld(s), exact)
  {}

  lemma NextRegRead(fs: FS, e: Exp)
    ensures var d := DischargeVars(fs, e); Exp2NextReg(fs, e) == Exp2NextReg(d.fs, d.e)
  {
    hide Exp2Reg, Code;
  }

  lemma ConcatLeft(c: Ctx, fs0: FS, fs: FS, e: Exp, x: Expr, s: Sketch)
    requires Rep(c, fs0, fs, e, x) && SketchFits(fs, e, s, Few(c.k))
    requires var b := Exp2NextReg(fs, e); b.fs.ok && b.fs.k <= c.k
    ensures HeldFits(Exp2NextReg(fs, e).fs, false, Few(c.k))
  {
    var d := DischargeVars(fs, e);
    NextRegRead(fs, e);
    hide Rep, Exp2NextReg, DischargeVars, AnyCarries, ListFits, HeldFits, Carries;
    DischargeVarsRep(c, fs0, fs, e, x);
    ReadFits(c, fs0, fs, e, x, s, Few(c.k));
    NextRegHeld(c, fs0, d.fs, d.e, x);
    NoneHeld(Exp2NextReg(d.fs, d.e).fs, Few(c.k));
  }

  lemma CompShape(fs: FS, op: CmpOp, cond: bool, e1: Exp, e2: Exp, clean: bool, exact: bool)
    ensures var r := CodeComp(fs, op, cond, e1, e2); SketchFits(r.fs, r.e, Plainly(STest, false, clean), exact)
  {
    var d1 := Exp2RK(fs, e1);
    var d2 := Exp2RK(d1.fs, e2);
    RKLists(fs, e1);
    var i := if !cond && op != Eq then ICmp(op, true, d2.i, d1.i) else ICmp(op, cond, d1.i, d2.i);
    CodeShape(FreeExp(FreeExp(d2.fs, d2.e), d1.e), i);
    hide Exp2RK, FreeExp, Code, CondJump;
  }

  lemma ConcatShape(c: Ctx, fs0: FS, fs: FS, e1: Exp, e2: Exp, y: Expr, clean: bool, exact: bool)
    requires Rep(c, fs0, fs, e2, y) && e1 == Init(e1.k) && e1.k.VNonReloc?
    requires var r := PosConcat(c.p, fs, e1, e2); r.fs.ok && r.fs.k <= c.k
    ensures var r := PosConcat(c.p, fs, e1, e2); SketchFits(r.fs, r.e, Plainly(SCode, false, clean), exact)
  {
    var d := Exp2Val(fs, e2);
    hide Rep, Exp2Val, Exp2NextReg, CodeArith;
    Exp2ValRep(c, fs0, fs, e2, y);
    ListsOK(c, fs0, d.fs, d.e, y);
    if !(d.e.k.VReloc? && |d.fs.code| > 0 && d.fs.code[|d.fs.code| - 1].IConcat?) {
      var z := Exp2NextReg(d.fs, d.e);
      ArithShape(c.p, z.fs, CConcat, e1, z.e, clean, exact);
    }
  }

  lemma ArithFits(p: Prims, fs: FS, op: ArithOp, e1: Exp, e2: Exp, a: Sketch, b: Sketch, exact: bool)
    requires NumeralAs(e1, a) && SketchFits(fs, e2, b, exact)
    ensures var r := CodeArith(p, fs, CArith(op), e1, e2);
            SketchFits(r.fs, r.e, BinSketch(p, ArithOp(op), a, b), exact)
  {
    NumeralFits(fs, e2, b, exact);
    hide Exp2RK, Code, AnyCarries, FreeExps;
    if FoldConstants(p, CArith(op), e1, e2).None? {
      ArithShape(p, fs, CArith(op), e1, e2, a.clean && b.clean, exact);
    }
  }

  /** luaK_posfix for the operators that are not and/or. */
  lemma RightFits(c: Ctx, fs0: FS, fs: FS, op: BinOp, e1: Exp, e2: Exp, y: Expr, a: Sketch, b: Sketch)
    requires Rep(c, fs0, fs, e2, y) && SketchFits(fs, e2, b, Few(c.k)) && op != AndOp && op != OrOp
    requires op.ArithOp? ==> NumeralAs(e1, a)
    requires op == ConcatOp ==> e1 == Init(e1.k) && e1.k.VNonReloc?
    requires var r := Posfix(c.p, fs, op, e1, e2); r.fs.ok && r.fs.k <= c.k
    ensures var r := Posfix(c.p, fs, op, e1, e2); SketchFits(r.fs, r.e, BinSketch(c.p, op, a, b), Few(c.k))
  {
    var clean := a.clean && b.clean;
    hide Rep, CodeComp, PosConcat, CodeArith, SketchFits, Few, FoldConstants;
    match op
    case ConcatOp => ConcatShape(c, fs0, fs, e1, e2, y, clean, Few(c.k));
    case ArithOp(o) => ArithFits(c.p, fs, o, e1, e2, a, b, Few(c.k));
    case _ => CompShape(fs, CmpOf(op), CondOf(op), e1, e2, clean, Few(c.k));
  }

  /** Jumps that were pending before an expression carry what they did after it. */
  lemma OuterSame(c: Ctx, fs0: FS, fs: FS, e: Exp, x: Expr, list: seq<int>)
    requires Rep(c, fs0, fs, e, x) && ListOK(fs0, list)
    ensures Same(fs0.code, fs.code, list)
  {
    RepExt(c, fs0, fs, e, x);
    hide Rep, InstrOK;
    forall n | n in list ensures Carries(fs0.code, n) == Carries(fs.code, n) {
      assert Pending(Body(fs, e).code, n);
    }
  }

  lemma RepExt(c: Ctx, fs0: FS, fs: FS, e: Exp, x: Expr)
    requires Rep(c, fs0, fs, e, x)
    ensures 0 <= BodyLen(fs, e) <= |fs.code| && Ext(fs0, Body(fs, e))
  {}

  lemma LogicFits(c: Ctx, fs1: FS, fs: FS, e1: Exp, e2: Exp, y: Expr, a: Sketch, b: Sketch, sense: bool)
    requires Rep(c, fs1, fs, e2, y) && SketchFits(fs, e2, b, Few(c.k))
    requires StayOf(e1, sense) == [] && ListOK(fs1, ExitOf(e1, sense))
    requires ListFits(fs1.code, ExitOf(e1, sense), ExitAs(a, sense))
    requires Posfix(c.p, fs, LogicOp(sense), e1, e2).fs.ok
    ensures var r := Posfix(c.p, fs, LogicOp(sense), e1, e2);
            SketchFits(r.fs, r.e, BinSketch(c.p, LogicOp(sense), a, b), Few(c.k))
  {
    var d := DischargeVars(fs, e2);
    var exit := ExitOf(e1, sense);
    ListsOK(c, fs1, fs, e2, y);
    assert fs.asserts;
    LogicShape(c.p, fs, e1, e2, sense);
    hide Rep, WF, DischargeVars, Posfix, BinSketch, SketchFits, ListFits, ListOK, Same, Few;
    DischargeVarsRep(c, fs1, fs, e2, y);
    ReadFits(c, fs1, fs, e2, y, b, Few(c.k));
    OuterSame(c, fs1, d.fs, d.e, y, exit);
    SameList(fs1.code, d.fs.code, exit, ExitAs(a, sense));
    LogicEnd(c.p, d, exit, a, b, sense, Few(c.k));
  }

  lemma LogicEnd(p: Prims, d: FE, exit: seq<int>, a: Sketch, b: Sketch, sense: bool, exact: bool)
    requires SketchFits(d.fs, d.e, Read(b), exact) && ListFits(d.fs.code, exit, ExitAs(a, sense))
    ensures SketchFits(d.fs, WithExit(d.e, exit, sense), BinSketch(p, LogicOp(sense), a, b), exact)
  {
    hide AnyCarries, ListFits, HeldFits;
    JoinFits(d.fs.code, ExitOf(d.e, sense), ExitAs(Read(b), sense), exit, ExitAs(a, sense));
  }

  // ---------- the whole expression ----------

  /** Generation from fs, in which `held` fits, follows the sketch. */
  predicate Tracked(r: FE, s: Sketch, exact: bool) {
    Follows(r.fs.clean, s, SketchFits(r.fs, r.e, s, exact), exact)
  }

  /** The state in which the right operand is compiled, from the sketch of the left one. */
  lemma BeforeRightFits(c: Ctx, fs0: FS, fs: FS, op: BinOp, e: Exp, x: Expr, s: Sketch)
    requires Rep(c, fs0, fs, e, x) && TrueConstants(c, e.k) && !c.values
    requires fs.clean && s.clean && SketchFits(fs, e, s, Few(c.k))
    requires var b := Infix(fs, op, e); b.fs.ok && b.fs.k <= c.k
    ensures var b := Infix(fs, op, e); var a := BeforeRight(op, s);
            Follows(b.fs.clean, a, LeftReady(b.fs, op, b.e, a, Few(c.k)), Few(c.k))
  {
    hide Rep, TrueConstants, SketchFits, GoIfTrue, GoIfFalse, Exp2RK, Exp2NextReg, Branched, HeldFits, ListFits, Few;
    if op == AndOp || op == OrOp {
      BranchFits(c, fs0, fs, e, x, s, op == AndOp);
      GoIfRep(c, fs0, fs, e, x, op == AndOp);
      BranchReady(c, fs0, Infix(fs, op, e).fs, ExitOf(Infix(fs, op, e).e, op == AndOp), x, op == AndOp);
    } else {
      LeftFits(c, fs0, fs, op, e, x, s);
      InfixRep(c, fs0, fs, op, e, x);
    }
  }

  lemma BranchReady(c: Ctx, fs0: FS, fs: FS, exit: seq<int>, x: Expr, sense: bool)
    requires BranchRep(c, fs0, fs, exit, [], x, sense)
    ensures ListOK(fs, exit)
  {}

  /** A left operand that luaK_infix has prepared. */
  predicate LeftReady(fs: FS, op: BinOp, e: Exp, a: Sketch, exact: bool) {
    && HeldFits(fs, a.held, exact)
    && if op == AndOp || op == OrOp then
         var sense := op == AndOp;
         StayOf(e, sense) == [] && ListOK(fs, ExitOf(e, sense)) && ListFits(fs.code, ExitOf(e, sense), ExitAs(a, sense))
       else (op.ArithOp? ==> NumeralAs(e, a)) && (op == ConcatOp ==> e == Init(e.k) && e.k.VNonReloc?)
  }

  lemma FinishFits(c: Ctx, fs1: FS, fs: FS, op: BinOp, e1: Exp, e2: Exp, y: Expr, a: Sketch, b: Sketch)
    requires Rep(c, fs1, fs, e2, y) && SketchFits(fs, e2, b, Few(c.k)) && LeftReady(fs1, op, e1, a, Few(c.k))
    requires var r := Posfix(c.p, fs, op, e1, e2); r.fs.ok && r.fs.k <= c.k
    ensures var r := Posfix(c.p, fs, op, e1, e2); SketchFits(r.fs, r.e, BinSketch(c.p, op, a, b), Few(c.k))
  {
    hide Rep, SketchFits, Posfix, BinSketch, ListOK, ListFits, HeldFits, NumeralAs, Few;
    if op == AndOp || op == OrOp {
      LogicFits(c, fs1, fs, e1, e2, y, a, b, op == AndOp);
    } else {
      RightFits(c, fs1, fs, op, e1, e2, y, a, b);
    }
  }

  lemma IndexFits(c: Ctx, fs1: FS, fs2: FS, t: Exp, key: Exp, y: Expr, s: Sketch, clean: bool)
    requires Rep(c, fs1, fs2, key, y) && SketchFits(fs2, key, s, Few(c.k)) && !HasJumps(t)
    requires var d := Exp2Val(fs2, key); var r := Indexed(d.fs, t, d.e); r.fs.ok && r.fs.k <= c.k
    ensures var d := Exp2Val(fs2, key); var r := Indexed(d.fs, t, d.e);
            SketchFits(r.fs, r.e, Plainly(SVar, OperandHeld(s), clean), Few(c.k))
  {
    var d := Exp2Val(fs2, key);
    RKOfVal(fs2, key);
    hide Rep, Exp2Val, Exp2RK, SketchFits, HeldFits, Few;
    OperandFits(c, fs1, fs2, key, y, s);
    VarFits(Exp2RK(d.fs, d.e).fs, t.(k := VIndexed(if t.k.VNonReloc? then t.k.info else 0, Exp2RK(d.fs, d.e).i)),
            OperandHeld(s), clean, Few(c.k));
  }

  lemma VarFits(fs: FS, e: Exp, held: bool, clean: bool, exact: bool)
    requires HeldFits(fs, held, exact) && e.k.VIndexed? && !HasJumps(e)
    ensures SketchFits(fs, e, Plainly(SVar, held, clean), exact)
  {}

  /** luaK_exp2RK starts with luaK_exp2val. */
  lemma RKOfVal(fs: FS, e: Exp)
    ensures var d := Exp2Val(fs, e); Exp2RK(d.fs, d.e) == Exp2RK(fs, e)
  {
    var d := Exp2Val(fs, e);
    ValLists(fs, e);
    hide Exp2AnyReg;
    assert Exp2Val(d.fs, d.e) == d;
  }

  /** Generation from every state of the generator follows the sketch of the text. */
  lemma {:induction false} CompileFits(c: Ctx, fs: FS, x: Expr, held: bool)
    requires WF(fs) && fs.clean && Entry(c, fs) && LocalsBelow(x, fs.nactvar) && !c.values
    requires HeldFits(fs, held, Few(c.k))
    requires var r := Compile(c.p, fs, x); r.fs.ok && r.fs.k <= c.k
    ensures Tracked(Compile(c.p, fs, x), Analyse(c.p, x, held), Few(c.k))
    decreases x
  {
    hide WF, Rep, Entry, Infix, Posfix, Prefix, DischargeVars, Exp2AnyReg, Exp2Val, Indexed, SketchFits, HeldFits;
    hide Few, Read, UnSketch, BeforeRight, BinSketch, LeftReady, TrueConstants, OperandHeld, RegHeld;
    var r := Compile(c.p, fs, x);
    match x
    case EParen(y) =>
      var a, s := Compile(c.p, fs, y), Analyse(c.p, y, held);
      CompileFits(c, fs, y, held);
      CompileRep(c, fs, y);
      ReadClean(s);
      if s.clean { ReadFits(c, fs, a.fs, a.e, y, s, Few(c.k)); }
    case EUn(op, y) =>
      var a, s := Compile(c.p, fs, y), Analyse(c.p, y, held);
      CompileFits(c, fs, y, held);
      CompileRep(c, fs, y);
      UnClean(c.p, op, s);
      if s.clean { UnFits(c, fs, a.fs, op, a.e, y, s); }
    case EIndex(t, key) => CompileIndex(c, fs, t, key, held);
    case EBin(op, l, y) => CompileBin(c, fs, op, l, y, held);
    case _ => LeafFits(c, fs, x, held);
  }

  lemma ReadClean(s: Sketch)
    ensures Read(s).clean == s.clean
  {}

  lemma UnClean(p: Prims, op: UnOp, s: Sketch)
    ensures UnSketch(p, op, s).clean == s.clean
  {}

  lemma LeafFits(c: Ctx, fs: FS, x: Expr, held: bool)
    requires IsLeaf(x) && HeldFits(fs, held, Few(c.k)) && fs.clean
    ensures Tracked(Compile(c.p, fs, x), Analyse(c.p, x, held), Few(c.k))
  {}

  lemma {:induction false} CompileIndex(c: Ctx, fs: FS, t: Expr, key: Expr, held: bool)
    requires WF(fs) && fs.clean && Entry(c, fs) && LocalsBelow(EIndex(t, key), fs.nactvar) && !c.values
    requires HeldFits(fs, held, Few(c.k))
    requires var r := Compile(c.p, fs, EIndex(t, key)); r.fs.ok && r.fs.k <= c.k
    ensures Tracked(Compile(c.p, fs, EIndex(t, key)), Analyse(c.p, EIndex(t, key), held), Few(c.k))
    decreases EIndex(t, key), 0
  {
    hide WF, Rep, Entry, DischargeVars, Exp2AnyReg, Exp2Val, Indexed, SketchFits, HeldFits;
    hide Few, TrueConstants, OperandHeld, RegHeld;
    var a, s := Compile(c.p, fs, t), Analyse(c.p, t, held);
    var b := Exp2AnyReg(a.fs, a.e);
    var d := Compile(c.p, b.fs, key);
    CompileFits(c, fs, t, held);
    if s.clean {
      CompileRep(c, fs, t);
      Exp2AnyRegRep(c, fs, a.fs, a.e, t);
      AfterRegister(c, fs, b.fs, b.e, t);
      AnyRegHeld(c, fs, a.fs, a.e, t, s, Few(c.k));
      CompileFits(c, b.fs, key, RegHeld(s));
      var s' := Analyse(c.p, key, RegHeld(s));
      if s'.clean {
        CompileRep(c, b.fs, key);
        IndexFits(c, b.fs, d.fs, b.e, d.e, key, s', true);
      }
    }
  }

  lemma {:induction false} CompileBin(c: Ctx, fs: FS, op: BinOp, l: Expr, y: Expr, held: bool)
    requires WF(fs) && fs.clean && Entry(c, fs) && LocalsBelow(EBin(op, l, y), fs.nactvar) && !c.values
    requires HeldFits(fs, held, Few(c.k))
    requires var r := Compile(c.p, fs, EBin(op, l, y)); r.fs.ok && r.fs.k <= c.k
    ensures Tracked(Compile(c.p, fs, EBin(op, l, y)), Analyse(c.p, EBin(op, l, y), held), Few(c.k))
    decreases EBin(op, l, y), 0
  {
    hide WF, Rep, Entry, Infix, Posfix, SketchFits, HeldFits, Few, BeforeRight, BinSketch, LeftReady, TrueConstants;
    var a, s := Compile(c.p, fs, l), Analyse(c.p, l, held);
    var b, s1 := Infix(a.fs, op, a.e), BeforeRight(op, s);
    var d, s2 := Compile(c.p, b.fs, y), Analyse(c.p, y, s1.held);
    CompileFits(c, fs, l, held);
    BeforeClean(op, s);
    BinClean(c.p, op, s1, s2);
    if s.clean {
      CompileRep(c, fs, l);
      BeforeRightFits(c, fs, a.fs, op, a.e, l, s);
      if s1.clean {
        AfterInfix(c, fs, a.fs, op, a.e, l);
        LeftHeld(b.fs, op, b.e, s1, Few(c.k));
        CompileFits(c, b.fs, y, s1.held);
        if s2.clean {
          CompileRep(c, b.fs, y);
          FinishFits(c, b.fs, d.fs, op, b.e, d.e, y, s1, s2);
        }
      }
    }
  }

  lemma BeforeClean(op: BinOp, s: Sketch)
    ensures BeforeRight(op, s).clean ==> s.clean
  {}

  lemma BinClean(p: Prims, op: BinOp, a: Sketch, b: Sketch)
    ensures BinSketch(p, op, a, b).clean == (a.clean && b.clean)
  {}

  lemma LeftHeld(fs: FS, op: BinOp, e: Exp, a: Sketch, exact: bool)
    requires LeftReady(fs, op, e, a, exact)
    ensures HeldFits(fs, a.held, exact)
  {}

  /** An expression whose text loses nothing is generated cleanly, and unless it has more constants
      than fit in operands, only such an expression is. */
  lemma CleanExact(p: Prims, n: nat, x: Expr)
    requires n < MAXSTACK && LocalsBelow(x, n) && Compile(p, LuaProgram.OpenFunc(n), x).fs.ok
    ensures var r := Compile(p, LuaProgram.OpenFunc(n), x);
            && (LosesNothing(p, x) ==> r.fs.clean)
            && (|r.fs.k| <= MAXINDEXRK ==> (r.fs.clean <==> LosesNothing(p, x)))
  {
    var fs := LuaProgram.OpenFunc(n);
    var r := Compile(p, fs, x);
    var regs := NilRange(map[], 0, MAXSTACK - 1);
    var c := Ctx(p, r.fs.k, 0, regs, [], false);
    assert FreshRegs(regs, n) && Entry(c, fs) && WF(fs);
    hide Compile, Analyse;
    CompileFits(c, fs, x, false);
  }

  /** A condition on the source alone: if the text loses nothing, `return x` returns what x evaluates
      to, unless the function is too large to compile. */
  lemma ReturnsIfLosesNothing(p: Prims, n: nat, x: Expr)
    requires n < MAXSTACK && LocalsBelow(x, n) && LosesNothing(p, x) && LuaProgram.ReturnExpr(p, n, x).ok
    ensures var f := LuaProgram.ReturnExpr(p, n, x); LuaParser.Returns(p, f.k, f.code, n, x)
  {
    CleanExact(p, n, x);
    LuaParser.AlwaysReturns(p, n, x);
  }
}
