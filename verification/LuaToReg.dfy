/** exp2reg and the functions above it: an expression's value in a register or an RK operand. */
module LuaToReg {
  import opened Wrappers
  import opened LuaValues
  import opened LuaLimits
  import opened LuaOpcodes
  import opened LuaGen
  import opened LuaRun
  import opened LuaInv
  import opened LuaEmit
  import opened LuaDischarge
  import opened LuaClose

  /** The state in which exp2reg closes the lists: the value of x is in register reg, or is false
      (after a comparison whose jump was put on the true list), or control left by a list. */
  ghost predicate Closable(c: Ctx, v0: View, v: View, isJmp: bool, t: seq<int>, f: seq<int>, reg: int, b: int,
                           ex: int, x: Expr) {
    c.values ==>
      match v0
      case Here(r0, h0) =>
        var o := Eval(c.p, x, r0, h0);
        (match v
         case Here(r, h) =>
           Agree(r0, r, b, ex) && h == o.h && (if isJmp then o.v == Bool(false) else Get(r, reg) == o.v)
         case Away(n, r, h, w) =>
           && Agree(r0, r, b, ex) && h == o.h
           && ((n in t && Yields(w, true, o.v)) || (n in f && Yields(w, false, o.v)))
         case Crash => false)
      case Away(n, _, _, _) => v == v0 && n !in t && n !in f
      case Crash => false
  }

  lemma CloseExt(fs0: FS, fs: FS, isJmp: bool, t: seq<int>, f: seq<int>, reg: int, fs': FS)
    requires WF(fs) && Ext(fs0, fs) && Shape(fs, isJmp, t, f, reg, fs')
    requires ListOK(fs, t) && ListOK(fs, f) && Own(fs0, t) && Own(fs0, f)
    ensures Ext(fs0, fs')
  {
    forall i | 0 <= i < |fs0.code|
      ensures Pending(fs0.code, i) && i !in fs0.jpc ==>
                Pending(fs'.code, i) && Carries(fs'.code, i) == Carries(fs0.code, i)
      ensures IsTest(fs'.code[i]) ==> IsTest(fs0.code[i])
    {
      assert ShapeAt(fs.code, t, f, reg, |fs'.code|, Need(fs, t, f), fs'.code, i);
      ShapeTest(fs, isJmp, t, f, reg, fs', i);
      if i > 0 { assert ShapeAt(fs.code, t, f, reg, |fs'.code|, Need(fs, t, f), fs'.code, i - 1); }
    }
  }

  lemma CloseSpec(c: Ctx, v0: View, v: View, v': View, code: seq<Instr>, isJmp: bool, t: seq<int>, f: seq<int>,
                  reg: int, b: int, ex: int, x: Expr)
    requires Closable(c, v0, v, isJmp, t, f, reg, b, ex, x) && Disjoint(t, f)
    requires reg >= b || reg == ex
    requires match v
             case Here(r, h) => v' == Here(if isJmp then r[reg := Bool(false)] else r, h)
             case Away(n, r, h, w) =>
               if n in t || n in f then v'.Here? && v'.h == h && Stored(r, v'.r, reg, Left(w, n in t)) else v' == v
             case Crash => false
    ensures Spec(c, v0, v', code, Init(VNonReloc(reg)), b, ex, x)
  {}

  lemma CloseRep(c: Ctx, fs0: FS, fs: FS, isJmp: bool, t: seq<int>, f: seq<int>, reg: int, ex: int, x: Expr)
    requires WF(fs0) && Entry(c, fs0) && WF(fs) && fs.k <= c.k && Ext(fs0, fs)
    requires ListOK(fs, t) && ListOK(fs, f) && Disjoint(t, f) && Own(fs0, t) && Own(fs0, f)
    requires Closable(c, ViewOf(c, fs0), ViewOf(c, fs), isJmp, t, f, reg, fs0.freereg, ex, x)
    requires isJmp ==> fs.jpc == [] && Need(fs, t, f)
    requires reg != NO_REG && (reg >= fs0.freereg || reg == ex)
    requires CloseLists(fs, isJmp, t, f, reg).ok
    ensures RepCore(c, fs0, CloseLists(fs, isJmp, t, f, reg), Init(VNonReloc(reg)), x, ex)
  {
    var fs', e' := CloseLists(fs, isJmp, t, f, reg), Init(VNonReloc(reg));
    SimpleBody(fs', e');
    if t != [] || f != [] {
      EntryExt(c, fs0, fs);
      CloseShape(fs, isJmp, t, f, reg);
      CloseView(c, fs, isJmp, t, f, reg, fs');
      ShapeOK(fs, isJmp, t, f, reg, fs');
      CloseExt(fs0, fs, isJmp, t, f, reg, fs');
      CloseSpec(c, ViewOf(c, fs0), ViewOf(c, fs), ViewOf(c, fs'), fs'.code, isJmp, t, f, reg, fs0.freereg, ex, x);
    }
  }

  lemma CloseFrame(fs: FS, isJmp: bool, t: seq<int>, f: seq<int>, reg: int)
    requires isJmp ==> fs.jpc == []
    ensures var g := CloseLists(fs, isJmp, t, f, reg);
            && g == fs.(code := g.code, jpc := g.jpc, lasttarget := g.lasttarget, ok := g.ok) && (g.ok ==> fs.ok)
  {
    LoadBoolsShape(fs, isJmp, reg);
  }

  /** The code that ends with a descriptor's test and jump, seen from the code before them. */
  lemma JmpView(c: Ctx, fs: FS, e: Exp)
    requires WF(fs) && ExpOK(fs, e) && e.k.VJmp? && StartOK(Body(fs, e).code, c.x)
    ensures var b := Body(fs, e); var i := fs.code[|fs.code| - 2]; var n := |fs.code| - 1;
            var v := ViewOf(c, b); var v' := ViewOf(c, fs);
            && WF(b) && Ext(b, fs) && Carries(fs.code, n) == false
            && (v.Here? ==> v' == if Taken(c.p, c.k, i, v.r, v.h)
                then Away(n, v.r, TestHistory(c.p, c.k, i, v.r, v.h), None)
                                  else Here(v.r, TestHistory(c.p, c.k, i, v.r, v.h)))
            && (!v.Here? ==> v' == v)
  {
    var b, i := Body(fs, e), fs.code[|fs.code| - 2];
    StripTest(fs);
    assert CondJump(b, i).fs == b.(code := b.code + [i, IJmp(NO_JUMP)]);
    assert fs.code == b.code + [i, IJmp(NO_JUMP)];
    CondJumpRun(c, b, i);
  }

  lemma JmpDeferred(c: Ctx, fs: FS, e: Exp)
    requires ExpOK(fs, e) && e.k.VJmp?
    ensures var i := fs.code[|fs.code| - 2];
            forall r, h :: Deferred(c, fs.code, e.k, r, h)
                             == Outcome(Bool(Taken(c.p, c.k, i, r, h)), TestHistory(c.p, c.k, i, r, h))
  {}

  lemma JmpClosableStep(c: Ctx, v0: View, v: View, v': View, code: seq<Instr>, e: Exp, reg: int, b: int, ex: int,
                        x: Expr)
    requires Spec(c, v0, v, code, e, b, -1, x) && e.k.VJmp?
    requires e.k.info !in e.t && e.k.info !in e.f && (v0.Away? ==> v0.n != e.k.info)
    requires v.Here? ==> var o := Deferred(c, code, e.k, v.r, v.h);
                         o.v.Bool? && v' == if o.v.b then Away(e.k.info, v.r, o.h, None) else Here(v.r, o.h)
    requires !v.Here? ==> v' == v
    ensures Closable(c, v0, v', true, e.t + [e.k.info], e.f, reg, b, ex, x)
  {
    hide Deferred;
  }

  lemma JmpClosable(c: Ctx, fs0: FS, fs: FS, f: FS, e: Exp, x: Expr, reg: int, ex: int)
    requires RepCore(c, fs0, fs, e, x, -1) && e.k.VJmp?
    requires Bumped(fs, f) && WF(f) && f.k <= c.k
    ensures var t := e.t + [e.k.info];
            && Ext(fs0, f) && ListOK(f, t) && Disjoint(t, e.f) && Own(fs0, t) && Need(f, t, e.f)
            && Closable(c, ViewOf(c, fs0), ViewOf(c, f), true, t, e.f, reg, fs0.freereg, ex, x)
  {
    var t := e.t + [e.k.info];
    BumpRep(c, fs0, fs, f, e, x, -1);
    ExitFacts(c.p, c.k, fs0.code, fs0.lasttarget, c.x, c.r, c.h);
    JmpView(c, f, e);
    assert e.k.info in t && !Carries(f.code, e.k.info);
    JmpDeferred(c, f, e);
    var v := ViewOf(c, Body(f, e));
    hide Run, InstrOK, Deferred, Taken;
    ExtTrans(fs0, Body(f, e), f);
    JmpClosableStep(c, ViewOf(c, fs0), v, ViewOf(c, f), f.code, e, reg, fs0.freereg, ex, x);
  }

  /** exp2reg: the value of the expression is in the register, and no jump is left over. */
  lemma Exp2RegRep(c: Ctx, fs0: FS, fs: FS, f: FS, e: Exp, x: Expr, reg: int, ex: int)
    requires RepCore(c, fs0, fs, e, x, -1) && Discharged(e.k)
    requires Bumped(fs, f) && WF(f) && f.k <= c.k
    requires 0 <= reg < MAXSTACK && (reg >= fs0.freereg || reg == ex)
    requires Exp2Reg(f, e, reg).fs.ok && Exp2Reg(f, e, reg).fs.k <= c.k
    ensures var r := Exp2Reg(f, e, reg);
            && RepCore(c, fs0, r.fs, r.e, x, ex) && r.e == Init(VNonReloc(reg))
            && r.fs.freereg == f.freereg && r.fs.clean == f.clean && f.k <= r.fs.k
  {
    if e.k.VJmp? {
      var t := e.t + [e.k.info];
      JmpClosable(c, fs0, fs, f, e, x, reg, ex);
      CloseFrame(Join(f, e.t, [e.k.info]).fs, true, t, e.f, reg);
      CloseRep(c, fs0, f, true, t, e.f, reg, ex, x);
    } else {
      var d, e1 := DischargeValue(f, e.k, reg), e.(k := VNonReloc(reg));
      CloseFrame(d, false, e.t, e.f, reg);
      DischargeValueFrame(f, e.k, reg);
      DischargeValueRep(c, fs0, fs, f, e, x, reg, ex);
      SimpleBody(d, e1);
      CloseRep(c, fs0, d, false, e.t, e.f, reg, ex, x);
    }
  }

  // ---------- registers on the stack ----------

  /** Freeing a descriptor's register frees the top of the stack, and never an active local. */
  lemma FreeExpTop(fs: FS, e: Exp, b: int)
    requires RegsOK(fs, e.k, b) && Discharged(e.k) && WF(fs)
    ensures FreeExp(fs, e) == fs.(freereg := b)
  {}

  lemma ReserveOK(fs: FS, b: int)
    requires WF(fs.(freereg := b)) && ReserveRegs(fs.(freereg := b), 1).ok
    ensures var f := ReserveRegs(fs.(freereg := b), 1);
            WF(f) && Bumped(fs, f) && f.freereg == b + 1 && f.k == fs.k && 0 <= b < MAXSTACK - 1
  {}

  lemma RepFacts(c: Ctx, fs0: FS, fs: FS, e: Exp, x: Expr, ex: int)
    requires RepCore(c, fs0, fs, e, x, ex)
    ensures WF(fs0) && Entry(c, fs0) && WF(fs) && fs.k <= c.k && fs.nactvar == fs0.nactvar
    ensures e.k.VK? ==> 0 <= e.k.info < |fs.k|
  {}

  lemma RepReg(c: Ctx, fs0: FS, fs: FS, e: Exp, x: Expr)
    requires Rep(c, fs0, fs, e, x) && e.k.VNonReloc?
    ensures 0 <= e.k.info < fs.freereg < MAXSTACK
  {}

  lemma Exp2NextRegRep(c: Ctx, fs0: FS, fs: FS, e: Exp, x: Expr)
    requires Rep(c, fs0, fs, e, x)
    requires Exp2NextReg(fs, e).fs.ok && Exp2NextReg(fs, e).fs.k <= c.k
    ensures var r := Exp2NextReg(fs, e);
            && Rep(c, fs0, r.fs, r.e, x) && r.e == Init(VNonReloc(fs0.freereg))
            && r.fs.freereg == fs0.freereg + 1 && r.fs.clean == fs.clean
  {
    var d, b := DischargeVars(fs, e), fs0.freereg;
    DischargeVarsRep(c, fs0, fs, e, x);
    FreeExpTop(d.fs, d.e, b);
    ReserveOK(d.fs, b);
    Exp2RegRep(c, fs0, d.fs, ReserveRegs(d.fs.(freereg := b), 1), d.e, x, b, -1);
  }

  /** exp2reg into the temporary that the descriptor already owns. */
  lemma SameRegRep(c: Ctx, fs0: FS, fs: FS, e: Exp, x: Expr)
    requires Rep(c, fs0, fs, e, x) && e.k.VNonReloc? && e.k.info >= fs.nactvar
    requires Exp2Reg(fs, e, e.k.info).fs.ok && Exp2Reg(fs, e, e.k.info).fs.k <= c.k
    ensures var r := Exp2Reg(fs, e, e.k.info);
            && Rep(c, fs0, r.fs, r.e, x) && r.e == Init(e.k) && r.fs.clean == fs.clean
  {
    RepFacts(c, fs0, fs, e, x, -1);
    hide RepCore;
    Exp2RegRep(c, fs0, fs, fs, e, x, e.k.info, -1);
  }

  lemma Exp2AnyRegRep(c: Ctx, fs0: FS, fs: FS, e: Exp, x: Expr)
    requires Rep(c, fs0, fs, e, x)
    requires Exp2AnyReg(fs, e).fs.ok && Exp2AnyReg(fs, e).fs.k <= c.k
    ensures var r := Exp2AnyReg(fs, e);
            && Rep(c, fs0, r.fs, r.e, x) && r.e.k.VNonReloc? && r.e == Init(r.e.k)
            && r.fs.clean == fs.clean
  {
    hide Rep, DischargeVars, Exp2Reg, Exp2NextReg;
    var d := DischargeVars(fs, e);
    DischargeVarsRep(c, fs0, fs, e, x);
    if d.e.k.VNonReloc? && !HasJumps(d.e) {
    } else if d.e.k.VNonReloc? && d.e.k.info >= d.fs.nactvar {
      SameRegRep(c, fs0, d.fs, d.e, x);
    } else {
      Exp2NextRegRep(c, fs0, d.fs, d.e, x);
    }
  }

  lemma Exp2ValRep(c: Ctx, fs0: FS, fs: FS, e: Exp, x: Expr)
    requires Rep(c, fs0, fs, e, x)
    requires Exp2Val(fs, e).fs.ok && Exp2Val(fs, e).fs.k <= c.k
    ensures var r := Exp2Val(fs, e);
            && Rep(c, fs0, r.fs, r.e, x) && Discharged(r.e.k) && !HasJumps(r.e) && r.fs.clean == fs.clean
  {
    if HasJumps(e) { Exp2AnyRegRep(c, fs0, fs, e, x); } else { DischargeVarsRep(c, fs0, fs, e, x); }
  }

  /** A descriptor that is an RK operand by itself. */
  predicate Operand(e: Exp, rk: int) {
    && e.t == [] && e.f == []
    && ((e.k.VNonReloc? && rk == e.k.info && !IsK(rk))
        || (e.k.VK? && 0 <= e.k.info <= MAXINDEXRK && rk == e.k.info + BITRK))
  }

  /** Two kinds that yield the same value are as good as each other. */
  lemma RekindRep(c: Ctx, fs0: FS, fs: FS, e: Exp, x: Expr, k: Kind)
    requires RepCore(c, fs0, fs, e, x, -1) && Simple(e.k) && Simple(k) && KindOK(fs, k)
    requires var v := ViewOf(c, fs);
             v.Here? ==> Deferred(c, fs.code, e.k, v.r, v.h) == Deferred(c, fs.code, k, v.r, v.h)
    ensures RepCore(c, fs0, fs, e.(k := k), x, -1)
  {
    hide Run, Deferred;
    SimpleBody(fs, e);
    SimpleBody(fs, e.(k := k));
  }

  /** A constant may move into the constant table. */
  lemma ToConstantRep(c: Ctx, fs0: FS, fs: FS, e: Exp, x: Expr)
    requires Rep(c, fs0, fs, e, x) && ConstOf(e.k).Some?
    requires var a := AddK(fs, ConstOf(e.k).value); a.fs.ok && a.fs.k <= c.k
    ensures var a := AddK(fs, ConstOf(e.k).value); Rep(c, fs0, a.fs, e.(k := VK(a.i)), x)
  {
    var a := AddK(fs, ConstOf(e.k).value);
    RepFacts(c, fs0, fs, e, x, -1);
    assert KAt(c.k, a.i) == ConstOf(e.k).value;
    hide RepCore;
    BumpRep(c, fs0, fs, a.fs, e, x, -1);
    RekindRep(c, fs0, a.fs, e, x, VK(a.i));
  }

  /** luaK_exp2RK: the operand is a register or a constant that fits, and holds the value. */
  lemma Exp2RKRep(c: Ctx, fs0: FS, fs: FS, e: Exp, x: Expr)
    requires Rep(c, fs0, fs, e, x)
    requires Exp2RK(fs, e).fs.ok && Exp2RK(fs, e).fs.k <= c.k
    ensures var r := Exp2RK(fs, e);
            Rep(c, fs0, r.fs, r.e, x) && Operand(r.e, r.i) && r.fs.clean == fs.clean
  {
    var d := Exp2Val(fs, e);
    hide RepCore;
    Exp2ValRep(c, fs0, fs, e, x);
    if ConstOf(d.e.k).Some? && |d.fs.k| <= MAXINDEXRK {
      ToConstantRep(c, fs0, d.fs, d.e, x);
    } else if d.e.k.VK? && d.e.k.info <= MAXINDEXRK {
      RepFacts(c, fs0, d.fs, d.e, x, -1);
    } else {
      Exp2AnyRegRep(c, fs0, d.fs, d.e, x);
      RepReg(c, fs0, Exp2AnyReg(d.fs, d.e).fs, Exp2AnyReg(d.fs, d.e).e, x);
    }
  }

  /** discharge2anyreg: the value in a register; the lists stay open. */
  lemma Discharge2AnyRegRep(c: Ctx, fs0: FS, fs: FS, e: Exp, x: Expr)
    requires Rep(c, fs0, fs, e, x) && Discharged(e.k) && !e.k.VJmp?
    requires Discharge2AnyReg(fs, e).fs.ok && Discharge2AnyReg(fs, e).fs.k <= c.k
    ensures var d := Discharge2AnyReg(fs, e);
            && Rep(c, fs0, d.fs, d.e, x) && d.e.k.VNonReloc? && d.e == e.(k := d.e.k)
            && d.fs.clean == fs.clean
  {
    if !e.k.VNonReloc? { TempRep(c, fs0, fs, e, x); }
  }

  lemma TempRep(c: Ctx, fs0: FS, fs: FS, e: Exp, x: Expr)
    requires Rep(c, fs0, fs, e, x) && Discharged(e.k) && !e.k.VJmp? && !e.k.VNonReloc?
    requires var f := ReserveRegs(fs, 1);
             var g := DischargeValue(f, e.k, fs0.freereg); g.ok && g.k <= c.k
    ensures var f := ReserveRegs(fs, 1); var b := fs0.freereg; var g := DischargeValue(f, e.k, b);
            && f.freereg == b + 1 && Rep(c, fs0, g, e.(k := VNonReloc(b)), x) && g.clean == fs.clean
  {
    var b := fs0.freereg;
    RepFacts(c, fs0, fs, e, x, -1);
    ReserveOK(fs, b);
    var f := ReserveRegs(fs, 1);
    DischargeValueFrame(f, e.k, b);
    hide RepCore, DischargeValue;
    DischargeValueRep(c, fs0, fs, f, e, x, b, -1);
  }
}
