/** Putting the value of a descriptor into a register. */
module LuaDischarge {
  import opened LuaValues
  import opened LuaLimits
  import opened LuaOpcodes
  import opened LuaGen
  import opened LuaRun
  import opened LuaInv
  import opened LuaEmit

  // ---------- LOADNIL ----------

  /** r' is r with nil in the n registers that start at from. */
  ghost predicate Nilled(r: Regs, r': Regs, from: int, n: int) {
    forall i :: Get(r', i) == if from <= i < from + n then Nil else Get(r, i)
  }

  /** Replacing a LOADNIL that ends the code, to which no jump leads, by a wider one. */
  lemma WidenView(c: Ctx, fs: FS, fs': FS, from: int, n: int)
    requires WF(fs) && StartOK(fs.code, c.x) && n >= 1 && c.x < |fs.code|
    requires fs.jpc == [] && |fs.code| > 0 && fs.lasttarget < |fs.code|
    requires var last := fs.code[|fs.code| - 1];
             && last.ILoadNil? && last.a <= from <= last.b + 1
             && fs' == fs.(code := fs.code[..|fs.code| - 1]
                                   + [ILoadNil(last.a, if from + n - 1 > last.b then from + n - 1 else last.b)])
    ensures WF(fs') && Ext(fs, fs')
    ensures var v := ViewOf(c, fs); var v' := ViewOf(c, fs');
            && (v.Here? ==> v'.Here? && v'.h == v.h && Nilled(v.r, v'.r, from, n))
            && (!v.Here? ==> v' == v)
  {
    var last, wide := fs.code[|fs.code| - 1], fs'.code[|fs.code| - 1];
    var b := fs.(code := fs.code[..|fs.code| - 1]);
    StripLast(fs);
    assert Code(b, last) == fs by { assert b.code + [last] == fs.code; }
    assert Code(b, wide) == fs';
    EmitPlain(c, b, last);
    EmitPlain(c, b, wide);
  }

  /** luaK_nil always has the effect of a LOADNIL of its own, whether it widens the previous
      instruction, drops the new one, or emits it. */
  lemma NilsView(c: Ctx, fs: FS, from: int, n: int)
    requires WF(fs) && Entry(c, fs) && n >= 1 && 0 <= from && from + n <= MAXSTACK
    requires Nils(fs, from, n).ok
    ensures var fs' := Nils(fs, from, n); var v := ViewOf(c, fs); var v' := ViewOf(c, fs');
            && WF(fs') && Ext(fs, fs')
            && (v.Here? ==> v'.Here? && v'.h == v.h && Nilled(v.r, v'.r, from, n))
            && (!v.Here? ==> v' == v)
  {
    var fs' := Nils(fs, from, n);
    if |fs.code| > fs.lasttarget && |fs.code| == 0 && from >= fs.nactvar {
    } else if |fs.code| > fs.lasttarget && |fs.code| > 0 && fs.code[|fs.code| - 1].ILoadNil?
              && fs.code[|fs.code| - 1].a <= from <= fs.code[|fs.code| - 1].b + 1 {
      var last := fs.code[|fs.code| - 1];
      var wide := ILoadNil(last.a, if from + n - 1 > last.b then from + n - 1 else last.b);
      assert fs'.code == fs.code[..|fs.code| - 1] + [wide];
      WidenView(c, fs, fs', from, n);
    } else {
      EmitPlain(c, fs, ILoadNil(from, from + n - 1));
    }
  }

  // ---------- variables ----------

  predicate Simple(k: Kind) { !k.VJmp? && !k.VReloc? }

  /** Kinds that luaK_dischargevars leaves. */
  predicate Discharged(k: Kind) { !k.VLocal? && !k.VUpval? && !k.VGlobal? && !k.VIndexed? }

  lemma SimpleBody(fs: FS, e: Exp)
    requires Simple(e.k)
    ensures Body(fs, e) == fs
  {
    assert fs.code[..|fs.code|] == fs.code;
  }

  /** Emitting an instruction whose target register is left open. */
  lemma RelocState(c: Ctx, fs: FS, i: Instr)
    requires WF(fs) && StartOK(fs.code, c.x) && Relocatable(i) && Code(fs, i).ok
    ensures var fs' := Code(fs, i); var k := VReloc(|fs.code|);
            && WF(fs') && KindOK(fs', k) && fs'.code[|fs.code|] == i
            && fs' == fs.(code := fs'.code, jpc := [])
            && Body(fs', Init(k)) == DischargeJpc(fs) && Ext(fs, DischargeJpc(fs))
            && ViewOf(c, DischargeJpc(fs)) == ViewOf(c, fs)
            && forall n | Pending(fs.code, n) && n !in fs.jpc :: Pending(fs'.code, n)
  {
    EmitPlain(c, fs, i);
    DischargeExt(fs);
    DischargeOK(fs);
    DischargedRun(c, fs, []);
    assert DischargeJpc(fs).code + [] == DischargeJpc(fs).code;
    assert Body(Code(fs, i), Init(VReloc(|fs.code|))).code == DischargeJpc(fs).code;
  }

  /** The lists stay in order when code is added that leaves them pending. */
  lemma ListsKept(fs: FS, g: FS, e: Exp, k: Kind)
    requires ExpOK(fs, e) && Simple(e.k) && !Simple(k) && KindOK(g, k) && g.jpc == []
    requires |g.code| > |fs.code| && |g.code| - 1 == k.info
    requires forall n | Pending(fs.code, n) && n !in fs.jpc :: Pending(g.code, n)
    ensures ExpOK(g, e.(k := k))
  {
    assert ListOK(g, e.t) && ListOK(g, e.f);
  }

  lemma RepIntro(c: Ctx, fs0: FS, fs: FS, e: Exp, x: Expr, v: View)
    requires Parts(c, fs0, fs, e) && ViewOf(c, Body(fs, e)) == v
    requires Spec(c, ViewOf(c, fs0), v, fs.code, e, fs0.freereg, -1, x)
    requires RegsOK(fs, e.k, fs0.freereg) && ConcatOK(fs.code, e.k, fs0.freereg)
    ensures Rep(c, fs0, fs, e, x)
  {
    hide Run, InstrOK, Spec, ViewOf, RegsOK, ConcatOK, WF, ExpOK, Own, Ext, Entry;
  }

  lemma ExtVia(fs0: FS, fs: FS, f: FS, d: FS)
    requires Ext(fs0, fs) && f == fs.(freereg := f.freereg) && Ext(f, d)
    ensures Ext(fs0, d)
  {
    assert Ext(fs, d);
    ExtTrans(fs0, fs, d);
  }

  lemma RelocParts(c: Ctx, fs0: FS, fs: FS, f: FS, e: Exp, i: Instr)
    requires Parts(c, fs0, fs, e) && Simple(e.k)
    requires f == fs.(freereg := f.freereg) && WF(f) && Relocatable(i) && Code(f, i).ok
    ensures var fs' := Code(f, i); var e' := e.(k := VReloc(|fs.code|));
            && Parts(c, fs0, fs', e') && |fs'.code| == |fs.code| + 1 && fs'.code[|fs.code|] == i
            && fs' == f.(code := fs'.code, jpc := [])
            && ViewOf(c, Body(fs', e')) == ViewOf(c, fs)
  {
    var fs', e', d := Code(f, i), e.(k := VReloc(|fs.code|)), DischargeJpc(f);
    SimpleBody(fs, e);
    EntryExt(c, fs0, fs);
    RelocState(c, f, i);
    assert Body(fs', e') == d;
    assert ViewOf(c, f) == ViewOf(c, fs);
    ListsKept(f, fs', e, e'.k) by { assert ExpOK(f, e); }
    hide Run, InstrOK, Code, DischargeJpc, WF, ExpOK, Own, Ext, Entry;
    ExtVia(fs0, fs, f, d);
  }

  /** Emitting, with its target register left open, the instruction that computes the value. */
  lemma RelocRep(c: Ctx, fs0: FS, fs: FS, f: FS, e: Exp, x: Expr, i: Instr)
    requires RepCore(c, fs0, fs, e, x, -1) && Simple(e.k)
    requires f == fs.(freereg := f.freereg) && WF(f) && Relocatable(i) && Code(f, i).ok
    requires var v := ViewOf(c, fs);
             v.Here? ==> Computes(c.p, c.k, i, v.r, v.h) == Deferred(c, fs.code, e.k, v.r, v.h)
    ensures RepCore(c, fs0, Code(f, i), e.(k := VReloc(|fs.code|)), x, -1)
  {
    SimpleBody(fs, e);
    RelocParts(c, fs0, fs, f, e, i);
    hide Parts, Run, Code, Computes;
  }

  lemma FreeRegTop(fs: FS, reg: int)
    requires fs.asserts && (!IsK(reg) && reg >= fs.nactvar ==> reg == fs.freereg - 1)
    ensures var f := FreeReg(fs, reg);
            f == fs.(freereg := if !IsK(reg) && reg >= fs.nactvar then fs.freereg - 1 else fs.freereg)
  {}

  /** A table access frees its registers from the top. */
  lemma IndexedFree(fs: FS, t: int, aux: int, b: int)
    requires WF(fs) && RegsOK(fs, VIndexed(t, aux), b)
    ensures var f := FreeReg(FreeReg(fs, aux), t); f == fs.(freereg := b) && WF(f)
  {
    FreeRegTop(fs, aux);
    FreeRegTop(FreeReg(fs, aux), t);
  }

  lemma LocalRep(c: Ctx, fs0: FS, fs: FS, e: Exp, x: Expr)
    requires Rep(c, fs0, fs, e, x) && e.k.VLocal?
    ensures Rep(c, fs0, fs, e.(k := VNonReloc(e.k.info)), x)
  {
    SimpleBody(fs, e);
    SimpleBody(fs, e.(k := VNonReloc(e.k.info)));
  }

  lemma ReadRep(c: Ctx, fs0: FS, fs: FS, e: Exp, x: Expr)
    requires Rep(c, fs0, fs, e, x) && (e.k.VUpval? || e.k.VGlobal?) && DischargeVars(fs, e).fs.ok
    ensures Rep(c, fs0, DischargeVars(fs, e).fs, DischargeVars(fs, e).e, x)
  {
    var i := if e.k.VUpval? then IGetUpval(0, e.k.info) else IGetGlobal(0, e.k.info);
    assert WF(fs);
    hide RepCore, Run, InstrOK, Code, Parts, WF;
    RelocRep(c, fs0, fs, fs, e, x, i);
  }

  lemma IndexedRep(c: Ctx, fs0: FS, fs: FS, e: Exp, x: Expr)
    requires Rep(c, fs0, fs, e, x) && e.k.VIndexed? && DischargeVars(fs, e).fs.ok
    ensures Rep(c, fs0, DischargeVars(fs, e).fs, DischargeVars(fs, e).e, x)
  {
    var t, aux := e.k.info, e.k.aux;
    var f := FreeReg(FreeReg(fs, aux), t);
    assert WF(fs);
    IndexedFree(fs, t, aux, fs0.freereg);
    hide RepCore, Run, InstrOK, Code, Parts, WF, FreeReg, IndexedOK;
    RelocRep(c, fs0, fs, f, e, x, IGetTable(0, t, aux));
  }

  /** luaK_dischargevars keeps what the descriptor stands for; a table access frees its registers
      from the top of the stack. */
  lemma DischargeVarsRep(c: Ctx, fs0: FS, fs: FS, e: Exp, x: Expr)
    requires Rep(c, fs0, fs, e, x) && DischargeVars(fs, e).fs.ok
    ensures var d := DischargeVars(fs, e);
            && Rep(c, fs0, d.fs, d.e, x) && Discharged(d.e.k)
            && d.e.t == e.t && d.e.f == e.f && d.fs.k == fs.k && d.fs.clean == fs.clean
  {
    hide RepCore, RegsOK;
    if e.k.VLocal? {
      LocalRep(c, fs0, fs, e, x);
    } else if e.k.VUpval? || e.k.VGlobal? {
      ReadRep(c, fs0, fs, e, x);
    } else if e.k.VIndexed? {
      IndexedRep(c, fs0, fs, e, x);
    }
  }

  // ---------- values ----------

  /** f is fs but for the register count and more constants. */
  predicate Bumped(fs: FS, f: FS) {
    f == fs.(freereg := f.freereg, maxstack := f.maxstack, k := f.k) && fs.k <= f.k
  }

  lemma StoreParts(c: Ctx, fs0: FS, fs: FS, f: FS, e: Exp, i: Instr, reg: int)
    requires Parts(c, fs0, fs, e) && Simple(e.k)
    requires Bumped(fs, f) && WF(f) && f.k <= c.k && Plain(i) && Code(f, i).ok
    ensures var fs', e' := Code(f, i), e.(k := VNonReloc(reg));
            Parts(c, fs0, fs', e') && ViewOf(c, Body(fs', e')) == Through(c, ViewOf(c, Body(fs, e)), i)
  {
    var fs', e' := Code(f, i), e.(k := VNonReloc(reg));
    SimpleBody(fs, e);
    SimpleBody(fs', e');
    EntryExt(c, fs0, fs);
    EmitPlain(c, f, i);
    DischargeOK(f);
    assert ListOK(fs', e.t) && ListOK(fs', e.f);
    assert ExpOK(fs', e') && Ext(fs0, f) && ViewOf(c, f) == ViewOf(c, fs);
    hide Run, InstrOK, Code, WF, Entry, Ext, ExpOK, Own, ViewOf;
    ExtTrans(fs0, f, fs');
  }

  lemma StoreSpec(c: Ctx, v0: View, v: View, code: seq<Instr>, code': seq<Instr>, e: Exp, i: Instr, reg: int,
                  b: int, ex: int, x: Expr)
    requires Spec(c, v0, v, code, e, b, -1, x) && (reg >= b || reg == ex)
    requires v.Here? ==> var o := Deferred(c, code, e.k, v.r, v.h);
                         Effect(c.p, c.k, i, v.r, v.h) == RegsAnd(v.r[reg := o.v], o.h)
    ensures Spec(c, v0, Through(c, v, i), code', e.(k := VNonReloc(reg)), b, ex, x)
  {
    hide Effect;
  }

  /** Emitting the plain instruction i that stores the value in register reg. */
  lemma StoreRep(c: Ctx, fs0: FS, fs: FS, f: FS, e: Exp, x: Expr, i: Instr, reg: int, ex: int)
    requires RepCore(c, fs0, fs, e, x, -1) && Simple(e.k)
    requires Bumped(fs, f) && WF(f) && f.k <= c.k && Plain(i) && Code(f, i).ok
    requires reg >= fs0.freereg || reg == ex
    requires var v := ViewOf(c, fs);
             v.Here? ==> var o := Deferred(c, fs.code, e.k, v.r, v.h);
                         Effect(c.p, c.k, i, v.r, v.h) == RegsAnd(v.r[reg := o.v], o.h)
    ensures RepCore(c, fs0, Code(f, i), e.(k := VNonReloc(reg)), x, ex)
  {
    SimpleBody(fs, e);
    hide Parts, Spec, Deferred, Effect, Code, WF, ViewOf;
    StoreParts(c, fs0, fs, f, e, i, reg);
    StoreSpec(c, ViewOf(c, fs0), ViewOf(c, fs), fs.code, Code(f, i).code, e, i, reg, fs0.freereg, ex, x);
  }

  lemma NilRep(c: Ctx, fs0: FS, fs: FS, f: FS, e: Exp, x: Expr, reg: int, ex: int)
    requires RepCore(c, fs0, fs, e, x, -1) && e.k.VNil?
    requires Bumped(fs, f) && WF(f) && f.k <= c.k && Nils(f, reg, 1).ok
    requires 0 <= reg < MAXSTACK && (reg >= fs0.freereg || reg == ex)
    ensures RepCore(c, fs0, Nils(f, reg, 1), e.(k := VNonReloc(reg)), x, ex)
  {
    var fs', e' := Nils(f, reg, 1), e.(k := VNonReloc(reg));
    SimpleBody(fs, e);
    SimpleBody(fs', e');
    EntryExt(c, fs0, fs);
    NilsView(c, f, reg, 1);
    assert fs'.jpc == [] || fs'.jpc == f.jpc;
    assert ListOK(fs', e.t) && ListOK(fs', e.f);
    ExtTrans(fs0, f, fs');
  }

  lemma SetAEffect(p: Prims, k: seq<Value>, i: Instr, a: int, r: Regs, h: History)
    requires Relocatable(i)
    ensures Plain(SetA(i, a)) && Relocatable(SetA(i, a))
    ensures var o := Computes(p, k, i, r, h); Effect(p, k, SetA(i, a), r, h) == RegsAnd(r[a := o.v], o.h)
  {}

  lemma CompleteView(c: Ctx, f: FS, reg: int)
    requires WF(f) && f.jpc == [] && |f.code| > 0 && f.lasttarget < |f.code|
    requires Relocatable(f.code[|f.code| - 1])
    requires StartOK(f.code, c.x) && c.x < |f.code|
    ensures var n := |f.code| - 1; var b := f.(code := f.code[..n]);
            var fs' := f.(code := f.code[n := SetA(f.code[n], reg)]); var v := ViewOf(c, b);
            && WF(fs') && Ext(b, fs') && Ext(f, fs')
            && (v.Here? ==> var o := Computes(c.p, c.k, f.code[n], v.r, v.h);
                            ViewOf(c, fs') == Here(v.r[reg := o.v], o.h))
            && (!v.Here? ==> ViewOf(c, fs') == v)
  {
    var n := |f.code| - 1;
    var b, i := f.(code := f.code[..n]), SetA(f.code[n], reg);
    var fs' := f.(code := f.code[n := i]);
    StripLast(f);
    var v := ViewOf(c, b);
    SetAEffect(c.p, c.k, f.code[n], reg, if v.Here? then v.r else c.r, if v.Here? then v.h else c.h);
    assert Code(b, i) == b.(code := b.code + [i]);
    assert fs' == Code(b, i) by { assert fs'.code == b.code + [i]; }
    EmitPlain(c, b, i);
  }

  lemma CompleteLists(fs: FS, e: Exp, reg: int)
    requires ExpOK(fs, e) && e.k.VReloc?
    ensures var n := |fs.code| - 1;
            ExpOK(fs.(code := fs.code[n := SetA(fs.code[n], reg)]), e.(k := VNonReloc(reg)))
  {}

  lemma CompleteParts(c: Ctx, fs0: FS, fs: FS, e: Exp, reg: int)
    requires Parts(c, fs0, fs, e) && e.k.VReloc?
    ensures var n := |fs.code| - 1; var fs' := fs.(code := fs.code[n := SetA(fs.code[n], reg)]);
            var e' := e.(k := VNonReloc(reg)); var v := ViewOf(c, Body(fs, e));
            && Parts(c, fs0, fs', e')
            && (v.Here? ==> var o := Computes(c.p, c.k, fs.code[n], v.r, v.h);
                            ViewOf(c, Body(fs', e')) == Here(v.r[reg := o.v], o.h))
            && (!v.Here? ==> ViewOf(c, Body(fs', e')) == v)
  {
    var n := |fs.code| - 1;
    var fs', e' := fs.(code := fs.code[n := SetA(fs.code[n], reg)]), e.(k := VNonReloc(reg));
    StripLast(fs);
    assert WF(Body(fs, e));
    EntryExt(c, fs0, Body(fs, e));
    assert StartOK(fs.code, c.x) && c.x < |fs.code|;
    CompleteView(c, fs, reg);
    SimpleBody(fs', e');
    CompleteLists(fs, e, reg);
    hide Run, Computes, SetA, InstrOK, WF, Entry, Ext, ExpOK, Own, ViewOf;
    ExtTrans(fs0, Body(fs, e), fs');
  }

  /** Completing the instruction that ends the code. */
  lemma CompleteRep(c: Ctx, fs0: FS, fs: FS, e: Exp, x: Expr, reg: int, ex: int)
    requires RepCore(c, fs0, fs, e, x, -1) && e.k.VReloc?
    requires reg >= fs0.freereg || reg == ex
    ensures RepCore(c, fs0, DischargeValue(fs, e.k, reg), e.(k := VNonReloc(reg)), x, ex)
  {
    CompleteParts(c, fs0, fs, e, reg);
    hide Parts, Run, Computes, SetA;
  }

  /** More registers and constants do not disturb a descriptor. */
  lemma BumpRep(c: Ctx, fs0: FS, fs: FS, f: FS, e: Exp, x: Expr, ex: int)
    requires RepCore(c, fs0, fs, e, x, -1)
    requires Bumped(fs, f) && WF(f) && f.k <= c.k
    ensures RepCore(c, fs0, f, e, x, ex)
  {
    assert ViewOf(c, Body(fs, e)) == ViewOf(c, Body(f, e));
  }

  lemma NumberRep(c: Ctx, fs0: FS, fs: FS, f: FS, e: Exp, x: Expr, reg: int, ex: int)
    requires RepCore(c, fs0, fs, e, x, -1) && e.k.VKNum?
    requires Bumped(fs, f) && WF(f) && f.k <= c.k
    requires reg >= fs0.freereg || reg == ex
    requires DischargeValue(f, e.k, reg).ok && DischargeValue(f, e.k, reg).k <= c.k
    ensures RepCore(c, fs0, DischargeValue(f, e.k, reg), e.(k := VNonReloc(reg)), x, ex)
  {
    var a := AddK(f, Num(e.k.nval));
    StoreRep(c, fs0, fs, a.fs, e, x, ILoadK(reg, a.i), reg, ex);
  }

  lemma ConstantRep(c: Ctx, fs0: FS, fs: FS, f: FS, e: Exp, x: Expr, reg: int, ex: int)
    requires RepCore(c, fs0, fs, e, x, -1)
    requires e.k.VFalse? || e.k.VTrue? || e.k.VK? || (e.k.VNonReloc? && e.k.info != reg)
    requires Bumped(fs, f) && WF(f) && f.k <= c.k
    requires reg >= fs0.freereg || reg == ex
    requires DischargeValue(f, e.k, reg).ok
    ensures RepCore(c, fs0, DischargeValue(f, e.k, reg), e.(k := VNonReloc(reg)), x, ex)
  {
    var i := match e.k
      case VFalse => ILoadBool(reg, false, false)
      case VTrue => ILoadBool(reg, true, false)
      case VK(n) => ILoadK(reg, n)
      case VNonReloc(r) => IMove(reg, r)
      case _ => IMove(reg, 0);
    StoreRep(c, fs0, fs, f, e, x, i, reg, ex);
  }

  /** discharge2reg: the value ends up in the register. */
  lemma DischargeValueRep(c: Ctx, fs0: FS, fs: FS, f: FS, e: Exp, x: Expr, reg: int, ex: int)
    requires RepCore(c, fs0, fs, e, x, -1) && Discharged(e.k) && !e.k.VJmp?
    requires Bumped(fs, f) && WF(f) && f.k <= c.k
    requires 0 <= reg < MAXSTACK && (reg >= fs0.freereg || reg == ex)
    requires DischargeValue(f, e.k, reg).ok && DischargeValue(f, e.k, reg).k <= c.k
    ensures RepCore(c, fs0, DischargeValue(f, e.k, reg), e.(k := VNonReloc(reg)), x, ex)
  {
    hide RepCore;
    if e.k.VNil? {
      NilRep(c, fs0, fs, f, e, x, reg, ex);
    } else if e.k.VReloc? {
      BumpRep(c, fs0, fs, f, e, x, -1);
      CompleteRep(c, fs0, f, e, x, reg, ex);
    } else if e.k.VKNum? {
      NumberRep(c, fs0, fs, f, e, x, reg, ex);
    } else if e.k == VNonReloc(reg) {
      BumpRep(c, fs0, fs, f, e, x, ex);
    } else {
      ConstantRep(c, fs0, fs, f, e, x, reg, ex);
    }
  }

  /** The parts of the state that storing a value leaves alone. */
  lemma DischargeValueFrame(fs: FS, k: Kind, reg: int)
    ensures var f := DischargeValue(fs, k, reg);
            && f.freereg == fs.freereg && f.maxstack == fs.maxstack && f.nactvar == fs.nactvar
            && fs.k <= f.k && f.clean == fs.clean && f.asserts == fs.asserts && (f.ok ==> fs.ok)
  {}
}
