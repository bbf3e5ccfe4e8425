/** Comparisons, concatenation, and/or, and unary operators. */
module LuaOperators {
  import opened LuaValues
  import opened LuaOpcodes
  import opened LuaGen
  import opened LuaRun
  import opened LuaInv
  import opened LuaEmit
  import opened LuaDischarge
  import opened LuaToReg
  import opened LuaCond
  import opened LuaNot
  import opened LuaBinary

  // ---------- comparisons ----------

  predicate IsComparison(op: BinOp) {
    op == EqOp || op == NeOp || op == LtOp || op == LeOp || op == GtOp || op == GeOp
  }

  function CmpOf(op: BinOp): CmpOp {
    if op == EqOp || op == NeOp then Eq else if op == LtOp || op == GtOp then Lt else Le
  }

  function CondOf(op: BinOp): bool {
    op == EqOp || op == LtOp || op == LeOp
  }

  function CmpInstr(op: BinOp, o1: int, o2: int): Instr {
    if !CondOf(op) && CmpOf(op) != Eq then ICmp(CmpOf(op), true, o2, o1) else ICmp(CmpOf(op), CondOf(op), o1, o2)
  }

  /** Coding a comparison and its jump as the end of a descriptor. */
  lemma JmpState(c: Ctx, fs: FS, i: Instr)
    requires WF(fs) && StartOK(fs.code, c.x) && i.ICmp? && CondJump(fs, i).fs.ok
    ensures var g := CondJump(fs, i).fs; var d := DischargeJpc(fs);
            && WF(g) && KindOK(g, VJmp(|fs.code| + 1)) && g.code == d.code + [i, IJmp(NO_JUMP)] && g.jpc == []
            && |d.code| == |fs.code| && d == fs.(code := d.code, jpc := []) && g == fs.(code := g.code, jpc := [])
            && Ext(fs, d) && ViewOf(c, d) == ViewOf(c, fs)
            && forall n | Pending(fs.code, n) && n !in fs.jpc :: Pending(g.code, n)
  {
    CondJumpRun(c, fs, i);
    DischargeExt(fs);
    DischargeOK(fs);
    DischargedRun(c, fs, []);
    assert DischargeJpc(fs).code + [] == DischargeJpc(fs).code;
  }

  lemma JmpParts(c: Ctx, fs0: FS, fs: FS, f: FS, e: Exp, i: Instr)
    requires Parts(c, fs0, fs, e) && Simple(e.k)
    requires f == fs.(freereg := f.freereg) && WF(f) && i.ICmp? && CondJump(f, i).fs.ok
    ensures var g := CondJump(f, i).fs; var e' := e.(k := VJmp(|fs.code| + 1));
            && Parts(c, fs0, g, e') && |g.code| == |fs.code| + 2 && g.code[|fs.code|] == i
            && g == f.(code := g.code, jpc := g.jpc)
            && ViewOf(c, Body(g, e')) == ViewOf(c, fs)
  {
    var d, g, e' := DischargeJpc(f), CondJump(f, i).fs, e.(k := VJmp(|fs.code| + 1));
    SimpleBody(fs, e);
    EntryExt(c, fs0, fs);
    JmpState(c, f, i);
    assert Body(g, e').code == d.code;
    assert ViewOf(c, f) == ViewOf(c, fs);
    ListsKept(f, g, e, e'.k) by { assert ExpOK(f, e); }
    hide Run, InstrOK, CondJump, DischargeJpc, WF, ExpOK, Own, Ext, Entry;
    ExtVia(fs0, fs, f, d);
  }

  lemma CompSpec(c: Ctx, v0: View, v: View, code: seq<Instr>, op: BinOp, o1: int, o2: int, b: int, x: Expr, y: Expr)
    requires Both(c, v0, v, b, x, o1, y, o2) && v0 != Crash && IsComparison(op)
    requires |code| > 1 && code[|code| - 2] == CmpInstr(op, o1, o2)
    ensures Spec(c, v0, v, code, Init(VJmp(|code| - 1)), b, -1, EBin(op, x, y))
  {
    if c.values && v0.Here? {
      CompDeferred(c, code, op, o1, o2, v.r, v.h);
      EvalBin(c.p, op, x, y, v0.r, v0.h);
    }
    hide Deferred, BinResult, CmpInstr, RK, Eval, IsComparison, Agree;
  }

  lemma CompDeferred(c: Ctx, code: seq<Instr>, op: BinOp, o1: int, o2: int, r: Regs, h: History)
    requires |code| > 1 && code[|code| - 2] == CmpInstr(op, o1, o2) && IsComparison(op)
    ensures Deferred(c, code, VJmp(|code| - 1), r, h) == BinResult(c.p, op, RK(c.k, r, o1), RK(c.k, r, o2), h)
  {
    CompTaken(c.p, c.k, op, o1, o2, r, h);
    hide Taken, TestHistory, BinResult, CmpInstr, RK, IsComparison;
  }

  lemma EvalBin(p: Prims, op: BinOp, x: Expr, y: Expr, r: Regs, h: History)
    requires op != AndOp && op != OrOp
    ensures var ox := Eval(p, x, r, h); var oy := Eval(p, y, r, ox.h);
            Eval(p, EBin(op, x, y), r, h) == BinResult(p, op, ox.v, oy.v, oy.h)
  {}

  /** The jump of the comparison is taken exactly if it holds. */
  lemma CompTaken(p: Prims, k: seq<Value>, op: BinOp, o1: int, o2: int, r: Regs, h: History)
    requires IsComparison(op)
    ensures var i := CmpInstr(op, o1, o2);
            && i.ICmp?
            && Outcome(Bool(Taken(p, k, i, r, h)), TestHistory(p, k, i, r, h))
                 == BinResult(p, op, RK(k, r, o1), RK(k, r, o2), h)
  {}

  lemma CompEnd(c: Ctx, fs0: FS, fs2: FS, op: BinOp, e1: Exp, x: Expr, o1: int, y: Expr, o2: int)
    requires Parts(c, fs0, fs2, e1) && Operand(e1, o1) && ViewOf(c, fs0) != Crash && IsComparison(op)
    requires fs0.nactvar <= fs0.freereg && fs2.nactvar == fs0.nactvar
    requires Both(c, ViewOf(c, fs0), ViewOf(c, fs2), fs0.freereg, x, o1, y, o2)
    requires var f := fs2.(freereg := fs0.freereg); WF(f) && CondJump(f, CmpInstr(op, o1, o2)).fs.ok
    ensures var f := fs2.(freereg := fs0.freereg); var g := CondJump(f, CmpInstr(op, o1, o2)).fs;
            Rep(c, fs0, g, e1.(k := VJmp(|f.code| + 1)), EBin(op, x, y)) && g.clean == fs2.clean
  {
    var f, i := fs2.(freereg := fs0.freereg), CmpInstr(op, o1, o2);
    var g := CondJump(f, i).fs;
    hide Run, InstrOK, Deferred, Both, Spec, Parts, CondJump, WF, Rep, ViewOf;
    JmpParts(c, fs0, fs2, f, e1, i);
    CompSpec(c, ViewOf(c, fs0), ViewOf(c, fs2), g.code, op, o1, o2, fs0.freereg, x, y);
    RepIntro(c, fs0, g, e1.(k := VJmp(|f.code| + 1)), EBin(op, x, y), ViewOf(c, fs2));
  }

  lemma CodeCompRep(c: Ctx, fs0: FS, fs1: FS, fs2: FS, op: BinOp, e1: Exp, x: Expr, e2: Exp, y: Expr)
    requires Rep(c, fs0, fs1, e1, x) && Ready(e1) && !e1.k.VKNum? && IsComparison(op)
    requires Rep(c, fs1, fs2, e2, y) && LocalsBelow(y, fs0.nactvar)
    requires var r := CodeComp(fs2, CmpOf(op), CondOf(op), e1, e2); r.fs.ok && r.fs.k <= c.k
    ensures var r := CodeComp(fs2, CmpOf(op), CondOf(op), e1, e2);
            Rep(c, fs0, r.fs, r.e, EBin(op, x, y)) && r.fs.clean == fs2.clean && r.e.k.VJmp?
  {
    hide Rep, Parts, WF, FreeExp, CondJump, Exp2RK;
    var o1 := if e1.k.VNonReloc? then e1.k.info else e1.k.info + BITRK;
    OperandOf(c, fs0, fs1, e1, x);
    OperandRK(fs2, e1, o1);
    var d2 := Exp2RK(fs2, e2);
    Exp2RKRep(c, fs1, fs2, e2, y);
    CompRep(c, fs0, fs1, d2.fs, op, e1, x, o1, d2.e, y, d2.i);
  }

  lemma CompRep(c: Ctx, fs0: FS, fs1: FS, fs2: FS, op: BinOp, e1: Exp, x: Expr, o1: int, e2: Exp, y: Expr, o2: int)
    requires Rep(c, fs0, fs1, e1, x) && Operand(e1, o1) && IsComparison(op)
    requires Rep(c, fs1, fs2, e2, y) && Operand(e2, o2) && LocalsBelow(y, fs0.nactvar)
    requires CondJump(FreeExp(FreeExp(fs2, e2), e1), CmpInstr(op, o1, o2)).fs.ok
    ensures var f := FreeExp(FreeExp(fs2, e2), e1); var g := CondJump(f, CmpInstr(op, o1, o2)).fs;
            Rep(c, fs0, g, e1.(k := VJmp(|f.code| + 1)), EBin(op, x, y)) && g.clean == fs2.clean
  {
    BothReady(c, fs0, fs1, fs2, e1, x, o1, e2, y, o2);
    hide Rep, Parts, WF, Run, Both, Spec, FreeExp, CondJump;
    CompEnd(c, fs0, fs2, op, e1, x, o1, y, o2);
  }

  // ---------- and, or ----------

  function LogicOp(sense: bool): BinOp { if sense then AndOp else OrOp }

  function WithExit(e: Exp, exit: seq<int>, sense: bool): Exp {
    if sense then e.(f := e.f + exit) else e.(t := e.t + exit)
  }

  lemma LogicSpec(c: Ctx, v0: View, v1: View, v2: View, code: seq<Instr>, e: Exp, exit: seq<int>,
                  b: int, nactvar: int, x: Expr, y: Expr, sense: bool)
    requires Branches(c, v0, v1, exit, [], b, x, sense)
    requires Spec(c, v1, v2, code, e, b, -1, y)
    requires nactvar <= b && LocalsBelow(y, nactvar)
    ensures Spec(c, v0, v2, code, WithExit(e, exit, sense), b, -1, EBin(LogicOp(sense), x, y))
  {
    hide Deferred, Run;
    if c.values && v0.Here? {
      if v1.Here? { LogicRight(c, v0, v1, v2, code, e, exit, b, nactvar, x, y, sense); }
    }
  }

  /** The right operand was evaluated. */
  lemma LogicRight(c: Ctx, v0: View, v1: View, v2: View, code: seq<Instr>, e: Exp, exit: seq<int>,
                   b: int, nactvar: int, x: Expr, y: Expr, sense: bool)
    requires c.values && v0.Here? && v1.Here?
    requires Branches(c, v0, v1, exit, [], b, x, sense)
    requires Spec(c, v1, v2, code, e, b, -1, y)
    requires nactvar <= b && LocalsBelow(y, nactvar)
    ensures Spec(c, v0, v2, code, WithExit(e, exit, sense), b, -1, EBin(LogicOp(sense), x, y))
  {
    hide Deferred, Run;
    EvalAgree(c.p, y, v0.r, v1.r, v1.h, nactvar);
    var o := Eval(c.p, y, v0.r, v1.h);
    assert Eval(c.p, EBin(LogicOp(sense), x, y), v0.r, v0.h) == o;
    hide Eval;
  }

  lemma LogicLists(fs0: FS, fs1: FS, fs2: FS, e: Exp, exit: seq<int>, sense: bool)
    requires ListOK(fs1, exit) && Own(fs0, exit) && Ext(fs0, fs1) && BodyLen(fs2, e) >= 0
    requires Ext(fs1, Body(fs2, e)) && ExpOK(fs2, e) && Own(fs1, e.t) && Own(fs1, e.f)
    ensures var e' := WithExit(e, exit, sense);
            ExpOK(fs2, e') && Own(fs0, e'.t) && Own(fs0, e'.f)
  {
    var b := Body(fs2, e);
    forall n | n in exit ensures Pending(fs2.code, n) && n !in fs2.jpc && n < |b.code| {
      assert Pending(b.code, n);
    }
  }

  lemma LogicRep(c: Ctx, fs0: FS, fs1: FS, exit: seq<int>, fs2: FS, e: Exp, x: Expr, y: Expr, sense: bool)
    requires BranchRep(c, fs0, fs1, exit, [], x, sense)
    requires Rep(c, fs1, fs2, e, y) && LocalsBelow(y, fs0.nactvar)
    ensures Rep(c, fs0, fs2, WithExit(e, exit, sense), EBin(LogicOp(sense), x, y))
  {
    var e' := WithExit(e, exit, sense);
    LogicLists(fs0, fs1, fs2, e, exit, sense);
    ExtTrans(fs0, fs1, Body(fs2, e));
    assert Body(fs2, e') == Body(fs2, e);
    hide Run, InstrOK, Deferred, Branches, Spec, ExpOK, Own, Ext;
    LogicSpec(c, ViewOf(c, fs0), ViewOf(c, fs1), ViewOf(c, Body(fs2, e)), fs2.code, e, exit, fs0.freereg,
        fs0.nactvar, x, y, sense);
  }

  // ---------- concatenation ----------

  lemma MergeSpec(c: Ctx, v0: View, v1: View, v2: View, code: seq<Instr>, code': seq<Instr>, b: int, nactvar: int,
                  x: Expr, y: Expr)
    requires One(c, v0, v1, b, x, b) && Spec(c, v1, v2, code, Init(VReloc(|code| - 1)), b + 1, -1, y)
    requires |code| == |code'| > 0
    requires var i := code[|code| - 1]; i.IConcat? && i.b == b + 1 < i.c && code'[|code| - 1] == IConcat(i.a, b, i.c)
    requires 0 <= nactvar <= b < BITRK && LocalsBelow(y, nactvar)
    ensures Spec(c, v0, v2, code', Init(VReloc(|code| - 1)), b, -1, EBin(ConcatOp, x, y))
  {
    if c.values && v0.Here? && v1.Here? { EvalAgree(c.p, y, v0.r, v1.r, v1.h, nactvar); }
    hide Run;
  }

  /** Another instruction in the place of the CONCAT that ends the code. */
  lemma ReplaceLast(fs: FS, i: Instr, freereg: int)
    requires WF(fs) && fs.jpc == [] && |fs.code| > 0 && fs.lasttarget < |fs.code|
    requires fs.code[|fs.code| - 1].IConcat? && i.IConcat? && fs.nactvar <= freereg <= fs.freereg
    ensures var n := |fs.code| - 1; var g := fs.(code := fs.code[n := i], freereg := freereg);
            WF(g) && g.code[..n] == fs.code[..n]
  {
    var n := |fs.code| - 1;
    var c := fs.code[..n];
    StripLast(fs);
    AppendOK(c, fs.lasttarget, i);
    assert fs.code[n := i] == c + [i];
  }

  /** Widening the CONCAT that ends the code by the operand just below its range. */
  lemma MergeParts(c: Ctx, fs0: FS, fs1: FS, e1: Exp, fs2: FS, e2: Exp, i: Instr)
    requires Parts(c, fs0, fs1, e1) && Simple(e1.k)
    requires Parts(c, fs1, fs2, e2) && e2 == Init(e2.k) && e2.k.VReloc?
    requires fs2.code[|fs2.code| - 1].IConcat? && i.IConcat? && fs0.freereg <= fs2.freereg
    ensures var g := fs2.(code := fs2.code[|fs2.code| - 1 := i], freereg := fs0.freereg);
            && Parts(c, fs0, g, e2) && ViewOf(c, Body(g, e2)) == ViewOf(c, Body(fs2, e2))
  {
    var n := |fs2.code| - 1;
    var g := fs2.(code := fs2.code[n := i], freereg := fs0.freereg);
    SimpleBody(fs1, e1);
    assert fs1.nactvar == fs0.nactvar && fs2.nactvar == fs0.nactvar && fs0.nactvar <= fs0.freereg;
    ReplaceLast(fs2, i, fs0.freereg);
    assert Body(g, e2) == Body(fs2, e2).(freereg := fs0.freereg);
    assert ViewOf(c, Body(g, e2)) == ViewOf(c, Body(fs2, e2));
    assert ExpOK(g, e2);
    hide Run, InstrOK, WF, ExpOK, Entry;
    ExtTrans(fs0, fs1, Body(fs2, e2));
  }

  /** The states and descriptors before the CONCAT is widened. */
  lemma MergeFacts(c: Ctx, fs0: FS, fs1: FS, e1: Exp, x: Expr, fs2: FS, e2: Exp, y: Expr)
    requires Rep(c, fs0, fs1, e1, x) && e1 == Init(VNonReloc(fs0.freereg)) && fs1.freereg == fs0.freereg + 1
    requires Rep(c, fs1, fs2, e2, y) && e2 == Init(e2.k) && e2.k.VReloc?
    requires fs2.code[|fs2.code| - 1].IConcat?
    ensures var b := fs0.freereg; var last := fs2.code[|fs2.code| - 1];
            && e2.k.info == |fs2.code| - 1 && fs2.freereg == b + 1 && last.b == b + 1 < last.c
            && fs2.nactvar == fs0.nactvar && 0 <= fs0.nactvar <= b < BITRK
            && Parts(c, fs0, fs1, e1) && Parts(c, fs1, fs2, e2)
            && One(c, ViewOf(c, fs0), ViewOf(c, fs1), b, x, b)
            && Spec(c, ViewOf(c, fs1), ViewOf(c, Body(fs2, e2)), fs2.code, e2, b + 1, -1, y)
  {
    RepReg(c, fs0, fs1, e1, x);
    FreeregGrows(c, fs0, fs1, e1, x);
    RepFacts(c, fs0, fs1, e1, x, -1);
    OperandView(c, fs0, fs1, e1, x, fs0.freereg);
    hide One, Spec, ViewOf;
  }

  lemma MergeRep(c: Ctx, fs0: FS, fs1: FS, e1: Exp, x: Expr, fs2: FS, e2: Exp, y: Expr)
    requires Rep(c, fs0, fs1, e1, x) && e1 == Init(VNonReloc(fs0.freereg)) && fs1.freereg == fs0.freereg + 1
    requires Rep(c, fs1, fs2, e2, y) && e2 == Init(e2.k) && e2.k.VReloc? && LocalsBelow(y, fs0.nactvar)
    requires fs2.code[|fs2.code| - 1].IConcat?
    ensures var n := |fs2.code| - 1; var last := fs2.code[n];
            var g := fs2.(code := fs2.code[n := IConcat(last.a, fs0.freereg, last.c)], freereg := fs0.freereg);
            && Rep(c, fs0, g, Init(e2.k), EBin(ConcatOp, x, y))
            && last.b == fs0.freereg + 1 && fs2.freereg == fs0.freereg + 1
  {
    var b, n := fs0.freereg, |fs2.code| - 1;
    var last := fs2.code[n];
    var i := IConcat(last.a, b, last.c);
    var g := fs2.(code := fs2.code[n := i], freereg := b);
    MergeFacts(c, fs0, fs1, e1, x, fs2, e2, y);
    assert e2.k.info == n && ConcatOK(g.code, e2.k, b) && RegsOK(g, e2.k, b);
    hide Rep, RepCore, RegsOK, ConcatOK, WF, Run, InstrOK, Parts, Deferred, One, Spec, ViewOf;
    MergeParts(c, fs0, fs1, e1, fs2, e2, i);
    MergeSpec(c, ViewOf(c, fs0), ViewOf(c, fs1), ViewOf(c, Body(fs2, e2)), fs2.code, g.code, b, fs0.nactvar, x, y);
    RepIntro(c, fs0, g, e2, EBin(ConcatOp, x, y), ViewOf(c, Body(fs2, e2)));
  }

  lemma ConcatTwoRep(c: Ctx, fs0: FS, fs1: FS, fs2: FS, e1: Exp, x: Expr, e2: Exp, y: Expr)
    requires Rep(c, fs0, fs1, e1, x) && e1 == Init(VNonReloc(fs0.freereg)) && fs1.freereg == fs0.freereg + 1
    requires Rep(c, fs1, fs2, e2, y) && e2 == Init(VNonReloc(fs1.freereg)) && LocalsBelow(y, fs0.nactvar)
    requires CodeArith(c.p, fs2, CConcat, e1, e2).fs.ok
    ensures var r := CodeArith(c.p, fs2, CConcat, e1, e2);
            Rep(c, fs0, r.fs, r.e, EBin(ConcatOp, x, y)) && r.fs.clean == fs2.clean && r.e.k.VReloc?
  {
    RepReg(c, fs0, fs1, e1, x);
    RepReg(c, fs1, fs2, e2, y);
    hide Rep, Code, FreeExps, Exp2RK;
    OperandRK(fs2, e2, fs1.freereg);
    OperandRK(fs2, e1, fs0.freereg);
    ArithRep(c, fs0, fs1, fs2, CConcat, ConcatOp, e1, x, fs0.freereg, e2, y, fs1.freereg);
  }

  /** luaK_posfix for `..`: a chain of concatenations becomes one instruction. */
  lemma PosConcatRep(c: Ctx, fs0: FS, fs1: FS, fs2: FS, e1: Exp, x: Expr, e2: Exp, y: Expr)
    requires Rep(c, fs0, fs1, e1, x) && e1 == Init(VNonReloc(fs0.freereg)) && fs1.freereg == fs0.freereg + 1
    requires Rep(c, fs1, fs2, e2, y) && LocalsBelow(y, fs0.nactvar)
    requires PosConcat(c.p, fs2, e1, e2).fs.ok && PosConcat(c.p, fs2, e1, e2).fs.k <= c.k
    ensures var r := PosConcat(c.p, fs2, e1, e2);
            Rep(c, fs0, r.fs, r.e, EBin(ConcatOp, x, y)) && r.fs.clean == fs2.clean && r.e.k.VReloc?
  {
    hide Rep, Exp2Val, CodeArith, Exp2NextReg, FreeExp;
    var d := Exp2Val(fs2, e2);
    Exp2ValRep(c, fs1, fs2, e2, y);
    if d.e.k.VReloc? && |d.fs.code| > 0 && d.fs.code[|d.fs.code| - 1].IConcat? {
      MergeBranch(c, fs0, fs1, d.fs, e1, x, d.e, y);
    } else {
      var z := Exp2NextReg(d.fs, d.e);
      Exp2NextRegRep(c, fs1, d.fs, d.e, y);
      ConcatTwoRep(c, fs0, fs1, z.fs, e1, x, z.e, y);
    }
  }

  lemma MergeBranch(c: Ctx, fs0: FS, fs1: FS, fs2: FS, e1: Exp, x: Expr, e2: Exp, y: Expr)
    requires Rep(c, fs0, fs1, e1, x) && e1 == Init(VNonReloc(fs0.freereg)) && fs1.freereg == fs0.freereg + 1
    requires Rep(c, fs1, fs2, e2, y) && !HasJumps(e2) && e2.k.VReloc? && LocalsBelow(y, fs0.nactvar)
    requires |fs2.code| > 0 && fs2.code[|fs2.code| - 1].IConcat?
    ensures var n := |fs2.code|; var last := fs2.code[n - 1];
            var f := FreeExp(fs2.(asserts := fs2.asserts && e1.k == VNonReloc(last.b - 1)), e1);
            var g := f.(code := f.code[n - 1 := IConcat(last.a, e1.k.info, last.c)]);
            Rep(c, fs0, g, e1.(k := e2.k), EBin(ConcatOp, x, y)) && g.clean == fs2.clean
  {
    RepFacts(c, fs1, fs2, e2, y, -1);
    RepFacts(c, fs0, fs1, e1, x, -1);
    FreeregGrows(c, fs0, fs1, e1, x);
    RepReg(c, fs0, fs1, e1, x);
    assert e2 == Init(e2.k) && fs2.asserts && fs2.nactvar <= fs0.freereg < BITRK;
    hide Rep, WF, RepCore, RegsOK, FreeExp;
    MergeRep(c, fs0, fs1, e1, x, fs2, e2, y);
    MergeFree(fs2, fs2.code[|fs2.code| - 1].b, fs0.freereg);
  }

  /** The left operand's register is the one below the range, and is freed. */
  lemma MergeFree(fs: FS, first: int, b: int)
    requires fs.asserts && first == b + 1 == fs.freereg && fs.nactvar <= b < BITRK
    ensures var e := Init(VNonReloc(b));
            FreeExp(fs.(asserts := fs.asserts && e.k == VNonReloc(first - 1)), e) == fs.(freereg := b)
  {}

  // ---------- unary operators ----------

  lemma UnarySpec(c: Ctx, v0: View, v: View, code: seq<Instr>, op: CodeOp, uop: UnOp, o: int, b: int, x: Expr)
    requires One(c, v0, v, b, x, o) && v0 != Crash && !IsK(o)
    requires (op == CUnm && uop == Minus) || (op == CLen && uop == Len)
    requires |code| > 0 && code[|code| - 1] == OpInstr(op, o, 0)
    ensures Spec(c, v0, v, code, Init(VReloc(|code| - 1)), b, -1, EUn(uop, x))
  {}

  lemma UnaryRep(c: Ctx, fs0: FS, fs1: FS, op: CodeOp, uop: UnOp, e: Exp, x: Expr)
    requires Rep(c, fs0, fs1, e, x) && e.k.VNonReloc? && e == Init(e.k)
    requires (op == CUnm && uop == Minus) || (op == CLen && uop == Len)
    requires CodeArith(c.p, fs1, op, e, Init(VKNum(Real(0.0)))).fs.ok
    ensures var r := CodeArith(c.p, fs1, op, e, Init(VKNum(Real(0.0))));
            Rep(c, fs0, r.fs, r.e, EUn(uop, x)) && r.fs.clean == fs1.clean && r.e.k.VReloc?
  {
    var o := e.k.info;
    RepReg(c, fs0, fs1, e, x);
    RepFacts(c, fs0, fs1, e, x, -1);
    FreeregGrows(c, fs0, fs1, e, x);
    FreeExpTop(fs1, e, fs0.freereg);
    assert WF(fs1.(freereg := fs0.freereg));
    UnaryShape(c, fs1, op, e, fs0.freereg);
    OneReady(c, fs0, fs1, e, x);
    hide Rep, WF, Code, CodeArith, One, Parts;
    UnaryEnd(c, fs0, fs1, op, uop, o, x);
  }

  lemma UnaryShape(c: Ctx, fs: FS, op: CodeOp, e: Exp, b: int)
    requires e.k.VNonReloc? && e == Init(e.k) && !IsK(e.k.info) && Unary(op)
    requires FreeExp(fs, e) == fs.(freereg := b)
    ensures CodeArith(c.p, fs, op, e, Init(VKNum(Real(0.0))))
              == FE(Code(fs.(freereg := b), OpInstr(op, e.k.info, 0)), e.(k := VReloc(|fs.code|)))
  {
    hide Code;
    OperandRK(fs, e, e.k.info);
  }

  lemma OneReady(c: Ctx, fs0: FS, fs1: FS, e: Exp, x: Expr)
    requires Rep(c, fs0, fs1, e, x) && e.k.VNonReloc? && e == Init(e.k)
    ensures One(c, ViewOf(c, fs0), ViewOf(c, fs1), fs0.freereg, x, e.k.info) && !IsK(e.k.info)
    ensures Parts(c, fs0, fs1, e) && ViewOf(c, fs0) != Crash
    ensures fs0.nactvar <= fs0.freereg && fs1.nactvar == fs0.nactvar
  {
    RepReg(c, fs0, fs1, e, x);
    RepFacts(c, fs0, fs1, e, x, -1);
    FreeregGrows(c, fs0, fs1, e, x);
    OperandView(c, fs0, fs1, e, x, e.k.info);
    ExitFacts(c.p, c.k, fs0.code, fs0.lasttarget, c.x, c.r, c.h);
  }

  lemma UnaryEnd(c: Ctx, fs0: FS, fs1: FS, op: CodeOp, uop: UnOp, o: int, x: Expr)
    requires Parts(c, fs0, fs1, Init(VNonReloc(o))) && ViewOf(c, fs0) != Crash && !IsK(o)
    requires fs0.nactvar <= fs0.freereg && fs1.nactvar == fs0.nactvar
    requires One(c, ViewOf(c, fs0), ViewOf(c, fs1), fs0.freereg, x, o)
    requires (op == CUnm && uop == Minus) || (op == CLen && uop == Len)
    requires var f := fs1.(freereg := fs0.freereg); WF(f) && Code(f, OpInstr(op, o, 0)).ok
    ensures Rep(c, fs0, Code(fs1.(freereg := fs0.freereg), OpInstr(op, o, 0)), Init(VReloc(|fs1.code|)), EUn(uop, x))
  {
    var f, i, e' := fs1.(freereg := fs0.freereg), OpInstr(op, o, 0), Init(VReloc(|fs1.code|));
    var g := Code(f, i);
    hide Run, InstrOK, Deferred, One, Spec, Parts, Code, RepCore, Rep, ViewOf, WF, Computes, Eval;
    RelocParts(c, fs0, fs1, f, Init(VNonReloc(o)), i);
    UnarySpec(c, ViewOf(c, fs0), ViewOf(c, fs1), g.code, op, uop, o, fs0.freereg, x);
    RepIntro(c, fs0, g, e', EUn(uop, x), ViewOf(c, fs1));
  }

  lemma NegateNumeral(c: Ctx, fs0: FS, fs: FS, e: Exp, x: Expr)
    requires Rep(c, fs0, fs, e, x) && IsNumeral(e)
    ensures Rep(c, fs0, fs, e.(k := VKNum(c.p.neg(e.k.nval))), EUn(Minus, x))
  {
    SimpleBody(fs, e);
    SimpleBody(fs, e.(k := VKNum(c.p.neg(e.k.nval))));
  }

  lemma PrefixRep(c: Ctx, fs0: FS, fs: FS, op: UnOp, e: Exp, x: Expr)
    requires Rep(c, fs0, fs, e, x) && TrueConstants(c, e.k)
    requires Prefix(c.p, fs, op, e).fs.ok && Prefix(c.p, fs, op, e).fs.k <= c.k
    ensures var r := Prefix(c.p, fs, op, e);
            Rep(c, fs0, r.fs, r.e, EUn(op, x)) && r.fs.clean == fs.clean && !r.e.k.VK?
  {
    hide Rep, CodeArith, CodeNot, Exp2AnyReg;
    match op
    case Not => CodeNotRep(c, fs0, fs, e, x);
    case Minus =>
      if IsNumeral(e) {
        NegateNumeral(c, fs0, fs, e, x);
        NegateFolds(c, fs, e);
      } else {
        var d := Exp2AnyReg(fs, e);
        Exp2AnyRegRep(c, fs0, fs, e, x);
        UnaryRep(c, fs0, d.fs, CUnm, Minus, d.e, x);
      }
    case Len =>
      var d := Exp2AnyReg(fs, e);
      Exp2AnyRegRep(c, fs0, fs, e, x);
      UnaryRep(c, fs0, d.fs, CLen, Len, d.e, x);
  }

  lemma NegateFolds(c: Ctx, fs: FS, e: Exp)
    requires IsNumeral(e)
    ensures CodeArith(c.p, fs, CUnm, e, Init(VKNum(Real(0.0)))) == FE(fs, e.(k := VKNum(c.p.neg(e.k.nval))))
  {}
}
