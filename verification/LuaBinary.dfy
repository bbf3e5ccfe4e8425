/** Arithmetic with two operands, folded or coded. */
module LuaBinary {
  import opened Wrappers
  import opened LuaValues
  import opened LuaOpcodes
  import opened LuaGen
  import opened LuaRun
  import opened LuaInv
  import opened LuaDischarge
  import opened LuaToReg
  import opened LuaCond

  /** An expression's meaning depends only on the active locals. */
  lemma {:induction false} EvalAgree(p: Prims, x: Expr, r: Regs, r': Regs, h: History, n: int)
    requires LocalsBelow(x, n) && Agree(r, r', n, -1)
    ensures Eval(p, x, r, h) == Eval(p, x, r', h)
  {
    match x
    case EIndex(t, k) =>
      EvalAgree(p, t, r, r', h, n);
      EvalAgree(p, k, r, r', Eval(p, t, r, h).h, n);
    case EParen(y) => EvalAgree(p, y, r, r', h, n);
    case EUn(_, y) => EvalAgree(p, y, r, r', h, n);
    case EBin(_, y, z) =>
      EvalAgree(p, y, r, r', h, n);
      EvalAgree(p, z, r, r', Eval(p, y, r, h).h, n);
    case _ =>
  }

  // ---------- two operands ----------

  /** A left operand as luaK_infix leaves it: a register, a constant that fits, or a numeral. */
  predicate Ready(e: Exp) {
    && e.t == [] && e.f == []
    && (e.k.VNonReloc? || e.k.VKNum? || (e.k.VK? && 0 <= e.k.info <= MAXINDEXRK))
  }

  /** From v0 to v, x and then y were evaluated, and their values are where o1 and o2 say. */
  ghost predicate Both(c: Ctx, v0: View, v: View, b: int, x: Expr, o1: int, y: Expr, o2: int) {
    c.values ==>
      match v0
      case Here(r0, h0) =>
        var ox := Eval(c.p, x, r0, h0);
        var oy := Eval(c.p, y, r0, ox.h);
        v.Here? && Agree(r0, v.r, b, -1) && v.h == oy.h && RK(c.k, v.r, o1) == ox.v && RK(c.k, v.r, o2) == oy.v
      case _ => v == v0
  }

  /** From v0 to v, x was evaluated, and its value is where o says. */
  ghost predicate One(c: Ctx, v0: View, v: View, b: int, x: Expr, o: int) {
    c.values ==>
      match v0
      case Here(r0, h0) =>
        var ox := Eval(c.p, x, r0, h0);
        v.Here? && Agree(r0, v.r, b, -1) && v.h == ox.h && RK(c.k, v.r, o) == ox.v
      case _ => v == v0
  }

  /** The view after a descriptor that is an operand by itself. */
  lemma OperandView(c: Ctx, fs0: FS, fs: FS, e: Exp, x: Expr, rk: int)
    requires Rep(c, fs0, fs, e, x) && Operand(e, rk)
    ensures Body(fs, e) == fs
    ensures One(c, ViewOf(c, fs0), ViewOf(c, fs), fs0.freereg, x, rk)
  {
    SimpleBody(fs, e);
  }

  /** A register operand stays below the next free register. */
  lemma OperandKept(c: Ctx, fs0: FS, fs: FS, e: Exp, x: Expr, rk: int, r: Regs, r': Regs)
    requires Rep(c, fs0, fs, e, x) && Operand(e, rk) && Agree(r, r', fs.freereg, -1)
    ensures RK(c.k, r, rk) == RK(c.k, r', rk)
  {}

  lemma BothView(c: Ctx, fs0: FS, fs1: FS, fs2: FS, e1: Exp, x: Expr, o1: int, e2: Exp, y: Expr, o2: int)
    requires Rep(c, fs0, fs1, e1, x) && Operand(e1, o1) && LocalsBelow(y, fs0.nactvar)
    requires Rep(c, fs1, fs2, e2, y) && Operand(e2, o2)
    ensures Both(c, ViewOf(c, fs0), ViewOf(c, fs2), fs0.freereg, x, o1, y, o2)
  {
    var v0, v1, v2 := ViewOf(c, fs0), ViewOf(c, fs1), ViewOf(c, fs2);
    OperandView(c, fs0, fs1, e1, x, o1);
    OperandView(c, fs1, fs2, e2, y, o2);
    RepFacts(c, fs0, fs1, e1, x, -1);
    if c.values && v0.Here? {
      EvalAgree(c.p, y, v0.r, v1.r, v1.h, fs0.nactvar);
      OperandKept(c, fs0, fs1, e1, x, o1, v1.r, v2.r);
      FreeregGrows(c, fs0, fs1, e1, x);
    }
  }

  lemma FreeregGrows(c: Ctx, fs0: FS, fs: FS, e: Exp, x: Expr)
    requires Rep(c, fs0, fs, e, x)
    ensures fs0.nactvar <= fs0.freereg <= fs.freereg
  {}

  /** The structure after two operands. */
  lemma BothParts(c: Ctx, fs0: FS, fs1: FS, fs2: FS, e1: Exp, x: Expr, o1: int, e2: Exp, y: Expr, o2: int)
    requires Rep(c, fs0, fs1, e1, x) && Operand(e1, o1)
    requires Rep(c, fs1, fs2, e2, y) && Operand(e2, o2)
    ensures Parts(c, fs0, fs2, e1)
  {
    SimpleBody(fs1, e1);
    SimpleBody(fs2, e2);
    SimpleBody(fs2, e1);
    ExtTrans(fs0, fs1, fs2);
  }

  /** codearith and codecomp free both operands from the top of the stack. */
  lemma FreeBoth(fs1: FS, fs2: FS, e1: Exp, o1: int, e2: Exp, o2: int, b: int)
    requires Operand(e1, o1) && Operand(e2, o2) && WF(fs1) && WF(fs2) && fs1.nactvar == fs2.nactvar
    requires RegsOK(fs1, e1.k, b) && RegsOK(fs2, e2.k, fs1.freereg)
    ensures FreeExps(fs2, e1, o1, e2, o2) == fs2.(freereg := b)
    ensures FreeExp(FreeExp(fs2, e2), e1) == fs2.(freereg := b)
  {}

  /** Everything a two-operand instruction starts from. */
  lemma BothReady(c: Ctx, fs0: FS, fs1: FS, fs2: FS, e1: Exp, x: Expr, o1: int, e2: Exp, y: Expr, o2: int)
    requires Rep(c, fs0, fs1, e1, x) && Operand(e1, o1) && LocalsBelow(y, fs0.nactvar)
    requires Rep(c, fs1, fs2, e2, y) && Operand(e2, o2)
    ensures Both(c, ViewOf(c, fs0), ViewOf(c, fs2), fs0.freereg, x, o1, y, o2)
    ensures Parts(c, fs0, fs2, e1) && ViewOf(c, fs0) != Crash && WF(fs2.(freereg := fs0.freereg))
    ensures fs0.nactvar <= fs0.freereg && fs2.nactvar == fs0.nactvar
    ensures FreeExps(fs2, e1, o1, e2, o2) == fs2.(freereg := fs0.freereg)
    ensures FreeExp(FreeExp(fs2, e2), e1) == fs2.(freereg := fs0.freereg)
  {
    RepFacts(c, fs0, fs1, e1, x, -1);
    RepFacts(c, fs1, fs2, e2, y, -1);
    FreeregGrows(c, fs0, fs1, e1, x);
    FreeregGrows(c, fs1, fs2, e2, y);
    FreeBoth(fs1, fs2, e1, o1, e2, o2, fs0.freereg);
    ExitFacts(c.p, c.k, fs0.code, fs0.lasttarget, c.x, c.r, c.h);
    assert WF(fs2.(freereg := fs0.freereg));
    hide Rep, Parts, WF, Run, FreeExp, Both, Operand;
    BothView(c, fs0, fs1, fs2, e1, x, o1, e2, y, o2);
    BothParts(c, fs0, fs1, fs2, e1, x, o1, e2, y, o2);
  }

  // ---------- arithmetic and concatenation ----------

  lemma ArithSpec(c: Ctx, v0: View, v: View, code: seq<Instr>, op: CodeOp, bop: BinOp, o1: int, o2: int, b: int,
                  x: Expr, y: Expr)
    requires Both(c, v0, v, b, x, o1, y, o2) && v0 != Crash
    requires (op.CArith? && bop == ArithOp(op.op))
             || (op == CConcat && bop == ConcatOp && !IsK(o1) && o2 == o1 + 1 && !IsK(o2))
    requires |code| > 0 && code[|code| - 1] == OpInstr(op, o1, o2)
    ensures Spec(c, v0, v, code, Init(VReloc(|code| - 1)), b, -1, EBin(bop, x, y))
  {
    if v.Here? { assert ConcatRange(c.p, v.r, o2, o2, v.h) == Outcome(Get(v.r, o2), v.h); }
  }

  lemma ArithRep(c: Ctx, fs0: FS, fs1: FS, fs2: FS, op: CodeOp, bop: BinOp, e1: Exp, x: Expr, o1: int, e2: Exp,
                 y: Expr, o2: int)
    requires Rep(c, fs0, fs1, e1, x) && Operand(e1, o1) && LocalsBelow(y, fs0.nactvar)
    requires Rep(c, fs1, fs2, e2, y) && Operand(e2, o2)
    requires (op.CArith? && bop == ArithOp(op.op))
             || (op == CConcat && bop == ConcatOp && o1 == fs0.freereg && o2 == o1 + 1)
    requires var f := FreeExps(fs2, e1, o1, e2, o2); Code(f, OpInstr(op, o1, o2)).ok
    ensures var f := FreeExps(fs2, e1, o1, e2, o2); var g := Code(f, OpInstr(op, o1, o2));
            Rep(c, fs0, g, e1.(k := VReloc(|f.code|)), EBin(bop, x, y)) && g.clean == fs2.clean
  {
    BothReady(c, fs0, fs1, fs2, e1, x, o1, e2, y, o2);
    hide Rep, Parts, WF, Run, Both, Spec, FreeExps, Code;
    ArithEnd(c, fs0, fs2, op, bop, e1, x, o1, y, o2);
  }

  lemma ArithEnd(c: Ctx, fs0: FS, fs2: FS, op: CodeOp, bop: BinOp, e1: Exp, x: Expr, o1: int, y: Expr, o2: int)
    requires Parts(c, fs0, fs2, e1) && Operand(e1, o1) && ViewOf(c, fs0) != Crash
    requires fs0.nactvar <= fs0.freereg && fs2.nactvar == fs0.nactvar
    requires Both(c, ViewOf(c, fs0), ViewOf(c, fs2), fs0.freereg, x, o1, y, o2)
    requires (op.CArith? && bop == ArithOp(op.op))
             || (op == CConcat && bop == ConcatOp && o1 == fs0.freereg && o2 == o1 + 1 && !IsK(o1) && !IsK(o2))
    requires var f := fs2.(freereg := fs0.freereg); WF(f) && Code(f, OpInstr(op, o1, o2)).ok
    ensures var f := fs2.(freereg := fs0.freereg); var g := Code(f, OpInstr(op, o1, o2));
            Rep(c, fs0, g, e1.(k := VReloc(|f.code|)), EBin(bop, x, y)) && g.clean == fs2.clean
  {
    var f, i := fs2.(freereg := fs0.freereg), OpInstr(op, o1, o2);
    var g := Code(f, i);
    hide Run, InstrOK, Deferred, Both, Spec, Parts, Code, WF, Rep, ViewOf;
    RelocParts(c, fs0, fs2, f, e1, i);
    ArithSpec(c, ViewOf(c, fs0), ViewOf(c, fs2), g.code, op, bop, o1, o2, fs0.freereg, x, y);
    RepIntro(c, fs0, g, e1.(k := VReloc(|f.code|)), EBin(bop, x, y), ViewOf(c, fs2));
  }

  lemma OperandRK(fs: FS, e: Exp, rk: int)
    requires Operand(e, rk)
    ensures Exp2RK(fs, e) == FEI(fs, e, rk)
  {}

  /** A numeral, at any point. */
  lemma NumeralRep(c: Ctx, fs: FS, n: Literal)
    requires WF(fs) && Entry(c, fs) && fs.k <= c.k
    ensures Rep(c, fs, fs, Init(VKNum(n)), ENum(n))
  {
    SimpleBody(fs, Init(VKNum(n)));
    ExitFacts(c.p, c.k, fs.code, fs.lasttarget, c.x, c.r, c.h);
  }

  /** The view after a numeral that nothing has been coded for. */
  lemma NumeralView(c: Ctx, fs0: FS, fs: FS, n: Literal, x: Expr)
    requires Rep(c, fs0, fs, Init(VKNum(n)), x)
    ensures Body(fs, Init(VKNum(n))) == fs
    ensures var v0 := ViewOf(c, fs0); var v := ViewOf(c, fs);
            c.values ==>
              && (v0.Here? ==> v.Here? && Agree(v0.r, v.r, fs0.freereg, -1)
                               && Eval(c.p, x, v0.r, v0.h) == Outcome(Num(n), v.h))
              && (!v0.Here? ==> v == v0)
  {
    SimpleBody(fs, Init(VKNum(n)));
  }

  /** A left operand that is still a numeral when the right one is done. */
  lemma LateView(c: Ctx, fs0: FS, fs1: FS, fs2: FS, fs3: FS, x: Expr, n: Literal, e2: Exp, y: Expr, o2: int, e3: Exp,
                 o3: int)
    requires Rep(c, fs0, fs1, Init(VKNum(n)), x) && LocalsBelow(y, fs0.nactvar)
    requires Rep(c, fs1, fs2, e2, y) && Operand(e2, o2)
    requires Rep(c, fs2, fs3, e3, ENum(n)) && Operand(e3, o3)
    ensures Both(c, ViewOf(c, fs0), ViewOf(c, fs3), fs0.freereg, x, o3, y, o2)
  {
    var v0, v1 := ViewOf(c, fs0), ViewOf(c, fs1);
    NumeralView(c, fs0, fs1, n, x);
    RepFacts(c, fs0, fs1, Init(VKNum(n)), x, -1);
    FreeregGrows(c, fs0, fs1, Init(VKNum(n)), x);
    BothView(c, fs1, fs2, fs3, e2, y, o2, e3, ENum(n), o3);
    hide Rep, Run, WF, Eval, Both;
    LateBoth(c, v0, v1, ViewOf(c, fs3), fs0.freereg, fs1.freereg, fs0.nactvar, x, n, y, o2, o3);
  }

  lemma LateBoth(c: Ctx, v0: View, v1: View, v3: View, b: int, b1: int, nactvar: int, x: Expr, n: Literal, y: Expr,
                 o2: int, o3: int)
    requires c.values && v0.Here? ==>
               v1.Here? && Agree(v0.r, v1.r, b, -1) && Eval(c.p, x, v0.r, v0.h) == Outcome(Num(n), v1.h)
    requires c.values && !v0.Here? ==> v1 == v0
    requires Both(c, v1, v3, b1, y, o2, ENum(n), o3)
    requires nactvar <= b <= b1 && LocalsBelow(y, nactvar)
    ensures Both(c, v0, v3, b, x, o3, y, o2)
  {
    if c.values && v0.Here? { EvalAgree(c.p, y, v0.r, v1.r, v1.h, nactvar); }
  }

  lemma LateParts(c: Ctx, fs0: FS, fs1: FS, fs2: FS, fs3: FS, x: Expr, n: Literal, e2: Exp, y: Expr, o2: int, e3: Exp,
                  o3: int)
    requires Rep(c, fs0, fs1, Init(VKNum(n)), x)
    requires Rep(c, fs1, fs2, e2, y) && Operand(e2, o2)
    requires Rep(c, fs2, fs3, e3, ENum(n)) && Operand(e3, o3)
    ensures Parts(c, fs0, fs3, e3)
  {
    SimpleBody(fs1, Init(VKNum(n)));
    SimpleBody(fs2, e2);
    SimpleBody(fs3, e3);
    hide Run, InstrOK, Spec;
    ExtTrans(fs1, fs2, fs3);
    ExtTrans(fs0, fs1, fs3);
  }

  lemma FreeLate(fs1: FS, fs2: FS, fs3: FS, e2: Exp, o2: int, e3: Exp, o3: int)
    requires Operand(e2, o2) && Operand(e3, o3) && WF(fs1) && WF(fs2) && WF(fs3)
    requires fs1.nactvar == fs2.nactvar == fs3.nactvar
    requires RegsOK(fs2, e2.k, fs1.freereg) && RegsOK(fs3, e3.k, fs2.freereg)
    ensures FreeExps(fs3, e3, o3, e2, o2) == fs3.(freereg := fs1.freereg)
  {}

  lemma FoldSpec(c: Ctx, v0: View, v1: View, v2: View, code1: seq<Instr>, code2: seq<Instr>,
                 a: ArithOp, e1: Exp, e2: Exp, r: Literal, b: int, b1: int, nactvar: int, x: Expr, y: Expr)
    requires Spec(c, v0, v1, code1, e1, b, -1, x) && Spec(c, v1, v2, code2, e2, b1, -1, y)
    requires FoldConstants(c.p, CArith(a), e1, e2) == Some(r) && nactvar <= b <= b1 && LocalsBelow(y, nactvar)
    ensures Spec(c, v0, v2, code2, e1.(k := VKNum(r)), b, -1, EBin(ArithOp(a), x, y))
  {
    if c.values && v0.Here? { EvalAgree(c.p, y, v0.r, v1.r, v1.h, nactvar); }
  }

  lemma FoldParts(c: Ctx, fs0: FS, fs1: FS, fs2: FS, e1: Exp, e2: Exp, e: Exp)
    requires Parts(c, fs0, fs1, e1) && Parts(c, fs1, fs2, e2) && IsNumeral(e1) && IsNumeral(e2) && IsNumeral(e)
    ensures Parts(c, fs0, fs2, e)
  {
    SimpleBody(fs1, e1);
    SimpleBody(fs2, e2);
    SimpleBody(fs2, e);
    ExtTrans(fs0, fs1, fs2);
  }

  /** Two numerals are combined at compile time, to the value that the machine would compute. */
  lemma FoldRep(c: Ctx, fs0: FS, fs1: FS, fs2: FS, a: ArithOp, e1: Exp, x: Expr, e2: Exp, y: Expr, r: Literal)
    requires Rep(c, fs0, fs1, e1, x) && Rep(c, fs1, fs2, e2, y) && LocalsBelow(y, fs0.nactvar)
    requires FoldConstants(c.p, CArith(a), e1, e2) == Some(r)
    ensures Rep(c, fs0, fs2, e1.(k := VKNum(r)), EBin(ArithOp(a), x, y))
  {
    var v0, v1 := ViewOf(c, fs0), ViewOf(c, fs1);
    var e' := e1.(k := VKNum(r));
    SimpleBody(fs1, e1);
    SimpleBody(fs2, e2);
    SimpleBody(fs2, e');
    RepFacts(c, fs0, fs1, e1, x, -1);
    hide Run, InstrOK, Parts, Agree;
    FoldSpec(c, v0, v1, ViewOf(c, fs2), fs1.code, fs2.code, a, e1, e2, r, fs0.freereg, fs1.freereg, fs0.nactvar, x,
             y);
    FoldParts(c, fs0, fs1, fs2, e1, e2, e');
  }

  /** codearith for an operator with two operands. */
  lemma CodeArithRep(c: Ctx, fs0: FS, fs1: FS, fs2: FS, a: ArithOp, e1: Exp, x: Expr, e2: Exp, y: Expr)
    requires Rep(c, fs0, fs1, e1, x) && Ready(e1) && Rep(c, fs1, fs2, e2, y) && LocalsBelow(y, fs0.nactvar)
    requires var r := CodeArith(c.p, fs2, CArith(a), e1, e2); r.fs.ok && r.fs.k <= c.k
    ensures var r := CodeArith(c.p, fs2, CArith(a), e1, e2);
            && Rep(c, fs0, r.fs, r.e, EBin(ArithOp(a), x, y)) && r.fs.clean == fs2.clean
            && (r.e.k.VKNum? || r.e.k.VReloc?)
  {
    hide Rep, Parts, WF, Code, FreeExps, Exp2RK;
    if FoldConstants(c.p, CArith(a), e1, e2).Some? {
      FoldRep(c, fs0, fs1, fs2, a, e1, x, e2, y, FoldConstants(c.p, CArith(a), e1, e2).value);
    } else {
      var d2 := Exp2RK(fs2, e2);
      var d1 := Exp2RK(d2.fs, e1);
      Exp2RKRep(c, fs1, fs2, e2, y);
      if e1.k.VKNum? {
        LateRep(c, fs0, fs1, d2.fs, a, e1, x, d2.e, y, d2.i);
      } else {
        var o1 := if e1.k.VNonReloc? then e1.k.info else e1.k.info + BITRK;
        OperandOf(c, fs0, fs1, e1, x);
        OperandRK(d2.fs, e1, o1);
        ArithRep(c, fs0, fs1, d2.fs, CArith(a), ArithOp(a), e1, x, o1, d2.e, y, d2.i);
      }
    }
  }

  lemma OperandOf(c: Ctx, fs0: FS, fs: FS, e: Exp, x: Expr)
    requires Rep(c, fs0, fs, e, x) && Ready(e) && !e.k.VKNum?
    ensures Operand(e, if e.k.VNonReloc? then e.k.info else e.k.info + BITRK)
  {}

  lemma RegsOf(c: Ctx, fs0: FS, fs: FS, e: Exp, x: Expr)
    requires Rep(c, fs0, fs, e, x)
    ensures WF(fs) && RegsOK(fs, e.k, fs0.freereg) && fs.nactvar == fs0.nactvar <= fs0.freereg <= fs.freereg
  {}

  /** The state when the right operand is done, after a numeral. */
  lemma LateFacts(c: Ctx, fs0: FS, fs1: FS, fs2: FS, e1: Exp, x: Expr, e2: Exp, y: Expr, o2: int)
    requires Rep(c, fs0, fs1, e1, x) && e1.k.VKNum? && Rep(c, fs1, fs2, e2, y) && Operand(e2, o2)
    ensures WF(fs1) && WF(fs2) && Entry(c, fs2) && fs2.k <= c.k && fs1.freereg == fs0.freereg && ViewOf(c, fs0) != Crash
    ensures RegsOK(fs2, e2.k, fs1.freereg)
    ensures fs0.nactvar == fs1.nactvar == fs2.nactvar <= fs0.freereg <= fs2.freereg
  {
    RegsOf(c, fs0, fs1, e1, x);
    RegsOf(c, fs1, fs2, e2, y);
    RepState(c, fs0, fs1, e1, x);
    RepState(c, fs1, fs2, e2, y);
    SimpleBody(fs2, e2);
    hide Rep, RepCore, WF, Spec;
    EntryExt(c, fs1, fs2);
  }

  lemma LateRep(c: Ctx, fs0: FS, fs1: FS, fs2: FS, a: ArithOp, e1: Exp, x: Expr, e2: Exp, y: Expr, o2: int)
    requires Rep(c, fs0, fs1, e1, x) && Ready(e1) && e1.k.VKNum? && LocalsBelow(y, fs0.nactvar)
    requires Rep(c, fs1, fs2, e2, y) && Operand(e2, o2)
    requires var d1 := Exp2RK(fs2, e1);
             d1.fs.k <= c.k && Code(FreeExps(d1.fs, d1.e, d1.i, e2, o2), IArith(a, 0, d1.i, o2)).ok
    ensures var d1 := Exp2RK(fs2, e1); var f := FreeExps(d1.fs, d1.e, d1.i, e2, o2);
            var g := Code(f, IArith(a, 0, d1.i, o2));
            Rep(c, fs0, g, d1.e.(k := VReloc(|f.code|)), EBin(ArithOp(a), x, y)) && g.clean == fs2.clean
  {
    var n := e1.k.nval;
    var d1 := Exp2RK(fs2, e1);
    LateFacts(c, fs0, fs1, fs2, e1, x, e2, y, o2);
    hide Rep, Exp2RK, Entry, Run, Both;
    NumeralRep(c, fs2, n);
    Exp2RKRep(c, fs2, fs2, e1, ENum(n));
    RegsOf(c, fs2, d1.fs, d1.e, ENum(n));
    LateView(c, fs0, fs1, fs2, d1.fs, x, n, e2, y, o2, d1.e, d1.i);
    LateParts(c, fs0, fs1, fs2, d1.fs, x, n, e2, y, o2, d1.e, d1.i);
    FreeLate(fs1, fs2, d1.fs, e2, o2, d1.e, d1.i);
    assert WF(d1.fs.(freereg := fs0.freereg));
    hide Parts, WF, Spec, FreeExps, Code;
    ArithEnd(c, fs0, d1.fs, CArith(a), ArithOp(a), d1.e, x, d1.i, y, o2);
  }
}
