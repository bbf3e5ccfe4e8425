/** The compiler theorem: code generated for an expression computes the expression. */
module LuaCorrect {
  import opened LuaValues
  import opened LuaOpcodes
  import opened LuaGen
  import opened LuaRun
  import opened LuaInv
  import opened LuaDischarge
  import opened LuaToReg
  import opened LuaCond
  import opened LuaBinary
  import opened LuaOperators

  // ---------- indexing ----------

  lemma IndexSpec(c: Ctx, v0: View, v: View, code: seq<Instr>, o1: int, o2: int, b: int, x: Expr, y: Expr)
    requires Both(c, v0, v, b, x, o1, y, o2) && v0 != Crash && !IsK(o1)
    ensures Spec(c, v0, v, code, Init(VIndexed(o1, o2)), b, -1, EIndex(x, y))
  {}

  lemma IndexRegs(fs1: FS, fs2: FS, e1: Exp, o1: int, e2: Exp, o2: int, b: int)
    requires Operand(e1, o1) && Operand(e2, o2) && e1.k.VNonReloc? && fs1.nactvar == fs2.nactvar
    requires RegsOK(fs1, e1.k, b) && RegsOK(fs2, e2.k, fs1.freereg)
    ensures RegsOK(fs2, VIndexed(o1, o2), b)
  {}

  lemma IndexedRep(c: Ctx, fs0: FS, fs1: FS, fs2: FS, t: Exp, x: Expr, key: Exp, y: Expr)
    requires Rep(c, fs0, fs1, t, x) && t.k.VNonReloc? && t == Init(t.k) && LocalsBelow(y, fs0.nactvar)
    requires Rep(c, fs1, fs2, key, y)
    requires Indexed(fs2, t, key).fs.ok && Indexed(fs2, t, key).fs.k <= c.k
    ensures var r := Indexed(fs2, t, key);
            Rep(c, fs0, r.fs, r.e, EIndex(x, y)) && r.fs.clean == fs2.clean
  {
    hide Exp2RK;
    var d := Exp2RK(fs2, key);
    var o1 := t.k.info;
    RepReg(c, fs0, fs1, t, x);
    Exp2RKRep(c, fs1, fs2, key, y);
    BothReady(c, fs0, fs1, d.fs, t, x, o1, d.e, y, d.i);
    IndexEnd(c, fs0, fs1, d.fs, t, x, d.e, y, d.i);
  }

  lemma IndexEnd(c: Ctx, fs0: FS, fs1: FS, fs2: FS, t: Exp, x: Expr, e2: Exp, y: Expr, o2: int)
    requires Rep(c, fs0, fs1, t, x) && t.k.VNonReloc? && Operand(t, t.k.info)
    requires Rep(c, fs1, fs2, e2, y) && Operand(e2, o2)
    requires Both(c, ViewOf(c, fs0), ViewOf(c, fs2), fs0.freereg, x, t.k.info, y, o2)
    requires Parts(c, fs0, fs2, t) && ViewOf(c, fs0) != Crash
    ensures Rep(c, fs0, fs2, t.(k := VIndexed(t.k.info, o2)), EIndex(x, y))
  {
    var o1 := t.k.info;
    var e := t.(k := VIndexed(o1, o2));
    RepFacts(c, fs1, fs2, e2, y, -1);
    RepFacts(c, fs0, fs1, t, x, -1);
    IndexRegs(fs1, fs2, t, o1, e2, o2, fs0.freereg);
    SimpleBody(fs2, t);
    SimpleBody(fs2, e);
    IndexSpec(c, ViewOf(c, fs0), ViewOf(c, fs2), fs2.code, o1, o2, fs0.freereg, x, y);
    assert KindOK(fs2, e.k);
    hide Run, InstrOK, Both, Spec, Deferred, RegsOK;
  }

  // ---------- the whole expression ----------

  predicate IsLeaf(x: Expr) {
    !x.EIndex? && !x.EParen? && !x.EUn? && !x.EBin?
  }

  /** A descriptor for which no code has been generated. */
  lemma LeafRep(c: Ctx, fs: FS, f: FS, k: Kind, x: Expr)
    requires WF(fs) && Entry(c, fs) && Bumped(fs, f) && WF(f) && f.k <= c.k && f.freereg == fs.freereg
    requires Simple(k) && KindOK(f, k) && RegsOK(f, k, fs.freereg)
    requires var v := ViewOf(c, fs); v.Here? ==> Deferred(c, f.code, k, v.r, v.h) == Eval(c.p, x, v.r, v.h)
    ensures Rep(c, fs, f, Init(k), x)
  {
    SimpleBody(f, Init(k));
    ExitFacts(c.p, c.k, fs.code, fs.lasttarget, c.x, c.r, c.h);
    hide Run, InstrOK, Deferred;
  }

  lemma CompileLeaf(c: Ctx, fs: FS, x: Expr)
    requires WF(fs) && Entry(c, fs) && LocalsBelow(x, fs.nactvar) && IsLeaf(x)
    requires var r := Compile(c.p, fs, x); r.fs.ok && r.fs.k <= c.k
    ensures var r := Compile(c.p, fs, x); Rep(c, fs, r.fs, r.e, x) && TrueConstants(c, r.e.k)
  {
    var r := Compile(c.p, fs, x);
    assert Bumped(fs, r.fs) && WF(r.fs);
    match x
    case EStr(s) => assert KAt(c.k, r.e.k.info) == Str(s); LeafRep(c, fs, r.fs, r.e.k, x);
    case EGlobal(name) => assert KAt(c.k, r.e.k.info) == Str(name); LeafRep(c, fs, r.fs, r.e.k, x);
    case _ => LeafRep(c, fs, r.fs, r.e.k, x);
  }

  /** What luaK_infix leaves for an operator that is not and/or. */
  lemma InfixRep(c: Ctx, fs0: FS, fs: FS, op: BinOp, e: Exp, x: Expr)
    requires Rep(c, fs0, fs, e, x) && op != AndOp && op != OrOp
    requires Infix(fs, op, e).fs.ok && Infix(fs, op, e).fs.k <= c.k
    ensures var r := Infix(fs, op, e);
            && Rep(c, fs0, r.fs, r.e, x) && Ready(r.e) && r.fs.clean == fs.clean
            && (IsComparison(op) ==> !r.e.k.VKNum?)
            && (op == ConcatOp ==> r.e == Init(VNonReloc(fs0.freereg)) && r.fs.freereg == fs0.freereg + 1)
  {
    hide Rep, Exp2RK, Exp2NextReg;
    if op == ConcatOp {
      Exp2NextRegRep(c, fs0, fs, e, x);
    } else if op.ArithOp? && IsNumeral(e) {
    } else {
      Exp2RKRep(c, fs0, fs, e, x);
    }
  }

  lemma PosfixRep(c: Ctx, fs0: FS, fs1: FS, fs2: FS, op: BinOp, e1: Exp, x: Expr, e2: Exp, y: Expr)
    requires Rep(c, fs0, fs1, e1, x) && Ready(e1) && op != AndOp && op != OrOp
    requires IsComparison(op) ==> !e1.k.VKNum?
    requires op == ConcatOp ==> e1 == Init(VNonReloc(fs0.freereg)) && fs1.freereg == fs0.freereg + 1
    requires Rep(c, fs1, fs2, e2, y) && LocalsBelow(y, fs0.nactvar)
    requires Posfix(c.p, fs2, op, e1, e2).fs.ok && Posfix(c.p, fs2, op, e1, e2).fs.k <= c.k
    ensures var r := Posfix(c.p, fs2, op, e1, e2);
            Rep(c, fs0, r.fs, r.e, EBin(op, x, y)) && r.fs.clean == fs2.clean && !r.e.k.VK?
  {
    hide Rep, CodeArith, CodeComp, PosConcat;
    if op == ConcatOp {
      PosConcatRep(c, fs0, fs1, fs2, e1, x, e2, y);
    } else if op.ArithOp? {
      CodeArithRep(c, fs0, fs1, fs2, op.op, e1, x, e2, y);
    } else {
      CodeCompRep(c, fs0, fs1, fs2, op, e1, x, e2, y);
    }
  }

  lemma LogicShape(p: Prims, fs: FS, e1: Exp, e2: Exp, sense: bool)
    requires StayOf(e1, sense) == [] && fs.asserts
    requires Posfix(p, fs, LogicOp(sense), e1, e2).fs.ok
    ensures var d := DischargeVars(fs, e2);
            && Posfix(p, fs, LogicOp(sense), e1, e2) == FE(d.fs, WithExit(d.e, ExitOf(e1, sense), sense))
            && (d.e.k.VK? ==> d.e.k == e2.k)
  {
    assert fs.(asserts := fs.asserts && StayOf(e1, sense) == []) == fs;
  }

  lemma LogicPosfix(c: Ctx, fs0: FS, fs1: FS, e1: Exp, fs2: FS, e2: Exp, x: Expr, y: Expr, sense: bool)
    requires BranchRep(c, fs0, fs1, ExitOf(e1, sense), [], x, sense) && StayOf(e1, sense) == []
    requires Rep(c, fs1, fs2, e2, y) && LocalsBelow(y, fs0.nactvar)
    requires var r := Posfix(c.p, fs2, LogicOp(sense), e1, e2); r.fs.ok && r.fs.k <= c.k
    ensures var r := Posfix(c.p, fs2, LogicOp(sense), e1, e2);
            Rep(c, fs0, r.fs, r.e, EBin(LogicOp(sense), x, y)) && r.fs.clean == fs2.clean
                && (r.e.k.VK? ==> r.e.k == e2.k)
  {
    RepFacts(c, fs1, fs2, e2, y, -1);
    assert fs2.asserts;
    LogicShape(c.p, fs2, e1, e2, sense);
    hide Rep, DischargeVars, BranchRep, Posfix, WF;
    var d := DischargeVars(fs2, e2);
    DischargeVarsRep(c, fs1, fs2, e2, y);
    LogicRep(c, fs0, fs1, ExitOf(e1, sense), d.fs, d.e, x, y, sense);
  }

  // ---------- induction ----------

  /** The state in which the operand on the right is compiled. */
  lemma AfterInfix(c: Ctx, fs0: FS, fs: FS, op: BinOp, e: Exp, x: Expr)
    requires Rep(c, fs0, fs, e, x) && TrueConstants(c, e.k)
    requires var b := Infix(fs, op, e); b.fs.ok && b.fs.k <= c.k && (c.values ==> b.fs.clean)
    ensures var b := Infix(fs, op, e); WF(b.fs) && Entry(c, b.fs) && b.fs.nactvar == fs0.nactvar
  {
    var b := Infix(fs, op, e);
    if op == AndOp || op == OrOp {
      GoIfRep(c, fs0, fs, e, x, op == AndOp);
    } else {
      InfixRep(c, fs0, fs, op, e, x);
      SimpleBody(b.fs, b.e);
    }
    EntryExt(c, fs0, b.fs);
  }

  lemma FinishBin(c: Ctx, fs0: FS, fs: FS, op: BinOp, e: Exp, x: Expr, g: FS, e2: Exp, y: Expr)
    requires Rep(c, fs0, fs, e, x) && TrueConstants(c, e.k) && LocalsBelow(y, fs0.nactvar)
    requires var b := Infix(fs, op, e); b.fs.ok && b.fs.k <= c.k && (c.values ==> b.fs.clean) && Rep(c, b.fs, g, e2, y)
    requires TrueConstants(c, e2.k)
    requires var r := Posfix(c.p, g, op, Infix(fs, op, e).e, e2); r.fs.ok && r.fs.k <= c.k
    ensures var r := Posfix(c.p, g, op, Infix(fs, op, e).e, e2);
            Rep(c, fs0, r.fs, r.e, EBin(op, x, y)) && TrueConstants(c, r.e.k)
  {
    hide Rep, BranchRep, Posfix, GoIfTrue, GoIfFalse, Exp2RK, Exp2NextReg;
    var b := Infix(fs, op, e);
    if op == AndOp || op == OrOp {
      GoIfRep(c, fs0, fs, e, x, op == AndOp);
      LogicPosfix(c, fs0, b.fs, b.e, g, e2, x, y, op == AndOp);
    } else {
      InfixRep(c, fs0, fs, op, e, x);
      PosfixRep(c, fs0, b.fs, g, op, b.e, x, e2, y);
    }
  }

  lemma AfterRegister(c: Ctx, fs0: FS, fs: FS, e: Exp, x: Expr)
    requires Rep(c, fs0, fs, e, x) && e.k.VNonReloc?
    ensures WF(fs) && Entry(c, fs) && fs.nactvar == fs0.nactvar
  {
    SimpleBody(fs, e);
    EntryExt(c, fs0, fs);
  }

  lemma FinishIndex(c: Ctx, fs0: FS, fs1: FS, t: Exp, x: Expr, fs2: FS, key: Exp, y: Expr)
    requires Rep(c, fs0, fs1, t, x) && t.k.VNonReloc? && t == Init(t.k) && LocalsBelow(y, fs0.nactvar)
    requires Rep(c, fs1, fs2, key, y)
    requires var d := Exp2Val(fs2, key); var r := Indexed(d.fs, t, d.e); r.fs.ok && r.fs.k <= c.k
    ensures var d := Exp2Val(fs2, key); var r := Indexed(d.fs, t, d.e);
            Rep(c, fs0, r.fs, r.e, EIndex(x, y)) && TrueConstants(c, r.e.k)
  {
    hide Rep, Exp2Val, Exp2RK;
    var d := Exp2Val(fs2, key);
    Exp2ValRep(c, fs1, fs2, key, y);
    IndexedRep(c, fs0, fs1, d.fs, t, x, d.e, y);
  }

  lemma ParenRep(c: Ctx, fs0: FS, fs: FS, e: Exp, x: Expr)
    requires Rep(c, fs0, fs, e, x) && TrueConstants(c, e.k) && DischargeVars(fs, e).fs.ok
    ensures var d := DischargeVars(fs, e); Rep(c, fs0, d.fs, d.e, EParen(x)) && TrueConstants(c, d.e.k)
  {
    DischargeVarsRep(c, fs0, fs, e, x);
    hide Run, InstrOK, Deferred, Parts;
  }

  /** Every expression, in every state and from every entry point: the descriptor and the code
      that are generated for it are in order and, if generation is clean, stand for it. */
  lemma {:induction false} CompileRep(c: Ctx, fs: FS, x: Expr)
    requires WF(fs) && Entry(c, fs) && LocalsBelow(x, fs.nactvar)
    requires var r := Compile(c.p, fs, x); r.fs.ok && r.fs.k <= c.k && (c.values ==> r.fs.clean)
    ensures var r := Compile(c.p, fs, x); Rep(c, fs, r.fs, r.e, x) && TrueConstants(c, r.e.k)
    decreases x
  {
    hide WF, Rep, Entry, Infix, Posfix, Prefix, DischargeVars, Exp2AnyReg, Exp2Val, Indexed;
    match x
    case EParen(y) =>
      var a := Compile(c.p, fs, y);
      CompileRep(c, fs, y);
      ParenRep(c, fs, a.fs, a.e, y);
    case EUn(op, y) =>
      var a := Compile(c.p, fs, y);
      CompileRep(c, fs, y);
      PrefixRep(c, fs, a.fs, op, a.e, y);
    case EIndex(t, key) =>
      var a := Compile(c.p, fs, t);
      var b := Exp2AnyReg(a.fs, a.e);
      var d := Compile(c.p, b.fs, key);
      CompileRep(c, fs, t);
      Exp2AnyRegRep(c, fs, a.fs, a.e, t);
      AfterRegister(c, fs, b.fs, b.e, t);
      CompileRep(c, b.fs, key);
      FinishIndex(c, fs, b.fs, b.e, t, d.fs, d.e, key);
    case EBin(op, l, r) =>
      var a := Compile(c.p, fs, l);
      var b := Infix(a.fs, op, a.e);
      var d := Compile(c.p, b.fs, r);
      CompileRep(c, fs, l);
      AfterInfix(c, fs, a.fs, op, a.e, l);
      CompileRep(c, b.fs, r);
      FinishBin(c, fs, a.fs, op, a.e, l, d.fs, d.e, r);
    case _ => CompileLeaf(c, fs, x);
  }
}
