/** `not`: the value is negated, the lists change places, and their jumps no longer carry values. */
module LuaNot {
  import opened Wrappers
  import opened LuaValues
  import opened LuaOpcodes
  import opened LuaGen
  import opened LuaRun
  import opened LuaInv
  import opened LuaDischarge
  import opened LuaToReg
  import opened LuaCond

  /** Like Spec, except that the descriptor's own value is the negation of the expression's. */
  ghost predicate NegSpec(c: Ctx, v0: View, v: View, code: seq<Instr>, e: Exp, b: int, x: Expr) {
    c.values ==>
      match v0
      case Here(r0, h0) =>
        var o := Eval(c.p, x, r0, h0);
        (match v
         case Here(r, h) => Agree(r0, r, b, -1) && Deferred(c, code, e.k, r, h) == Outcome(Bool(!Truthy(o.v)), o.h)
         case Away(n, r, h, w) =>
           && Agree(r0, r, b, -1) && h == o.h
           && ((n in e.t && Yields(w, true, o.v)) || (n in e.f && Yields(w, false, o.v)))
         case Crash => false)
      case Away(n, _, _, _) => v == v0 && n !in e.t && n !in e.f
      case Crash => false
  }

  ghost predicate NegCore(c: Ctx, fs0: FS, fs: FS, e: Exp, x: Expr) {
    && Parts(c, fs0, fs, e)
    && NegSpec(c, ViewOf(c, fs0), ViewOf(c, Body(fs, e)), fs.code, e, fs0.freereg, x)
  }

  /** The result of negating the kind is the negation of the value. */
  lemma NegFromSpec(c: Ctx, v0: View, v: View, code: seq<Instr>, e: Exp, code': seq<Instr>, k: Kind, b: int, x: Expr)
    requires Spec(c, v0, v, code, e, b, -1, x)
    requires v.Here? ==> var o := Deferred(c, code, e.k, v.r, v.h);
                         Deferred(c, code', k, v.r, v.h) == Outcome(Bool(!Truthy(o.v)), o.h)
    ensures NegSpec(c, v0, v, code', e.(k := k), b, x)
  {
    hide Deferred;
  }

  lemma NegIntro(c: Ctx, fs0: FS, fs: FS, e: Exp, x: Expr)
    requires WF(fs0) && Entry(c, fs0) && WF(fs) && fs.k <= c.k && ExpOK(fs, e) && Own(fs0, e.t) && Own(fs0, e.f)
    requires Ext(fs0, Body(fs, e))
    requires NegSpec(c, ViewOf(c, fs0), ViewOf(c, Body(fs, e)), fs.code, e, fs0.freereg, x)
    ensures NegCore(c, fs0, fs, e, x)
  {
    hide WF, Entry, ExpOK, Own, Ext, NegSpec;
  }

  lemma NotConst(c: Ctx, fs0: FS, fs: FS, e: Exp, x: Expr)
    requires Rep(c, fs0, fs, e, x) && (ConstantIs(e.k, true) || ConstantIs(e.k, false)) && TrueConstants(c, e.k)
    ensures var n := NotKind(fs, e); NegCore(c, fs0, n.fs, n.e, x) && n.fs == fs && n.e.t == e.t && n.e.f == e.f
  {
    SimpleBody(fs, e);
    RepState(c, fs0, fs, e, x);
    var n := NotKind(fs, e);
    SimpleBody(fs, n.e);
    assert ExpOK(fs, n.e);
    assert forall r, h :: var o := Deferred(c, fs.code, e.k, r, h);
             Deferred(c, fs.code, n.e.k, r, h) == Outcome(Bool(!Truthy(o.v)), o.h);
    hide Rep, WF, Entry, ExpOK, Own, Ext, Spec, NegSpec, NegCore, Deferred, ViewOf;
    NegFromSpec(c, ViewOf(c, fs0), ViewOf(c, fs), fs.code, e, fs.code, n.e.k, fs0.freereg, x);
    NegIntro(c, fs0, fs, n.e, x);
  }

  lemma NotJmp(c: Ctx, fs0: FS, fs: FS, e: Exp, x: Expr)
    requires Rep(c, fs0, fs, e, x) && e.k.VJmp?
    ensures var n := NotKind(fs, e);
            && NegCore(c, fs0, n.fs, n.e, x) && n.e == e
            && n.fs == fs.(code := n.fs.code)
  {
    var f := InvertJump(fs, e.k.info);
    JmpBodyWF(fs, e);
    RepState(c, fs0, fs, e, x);
    EntryExt(c, fs0, Body(fs, e));
    InvertRep(c, fs, e);
    assert forall r, h :: var o := Deferred(c, fs.code, e.k, r, h);
             Deferred(c, f.code, e.k, r, h) == Outcome(Bool(!Truthy(o.v)), o.h);
    hide Rep, WF, Entry, ExpOK, Own, Ext, Spec, NegSpec, NegCore, Deferred, ViewOf, InvertJump;
    NegFromSpec(c, ViewOf(c, fs0), ViewOf(c, Body(fs, e)), fs.code, e, f.code, e.k, fs0.freereg, x);
    NegIntro(c, fs0, f, e, x);
  }

  lemma NotReg(c: Ctx, fs0: FS, fs: FS, e: Exp, x: Expr)
    requires Rep(c, fs0, fs, e, x) && e.k.VNonReloc?
    requires Code(FreeExp(fs, e), INot(0, e.k.info)).ok
    ensures var f := FreeExp(fs, e); var g := Code(f, INot(0, e.k.info)); var e' := e.(k := VReloc(|f.code|));
            && NegCore(c, fs0, g, e', x) && g.freereg == fs0.freereg && g.clean == fs.clean
            && |g.code| == |f.code| + 1 && g.code[|f.code|].INot?
  {
    var f := FreeExp(fs, e);
    var g, e' := Code(f, INot(0, e.k.info)), e.(k := VReloc(|f.code|));
    FreeExpTop(fs, e, fs0.freereg);
    SimpleBody(fs, e);
    RelocParts(c, fs0, fs, f, e, INot(0, e.k.info));
    var v := ViewOf(c, fs);
    if v.Here? { NotDeferred(c, fs.code, g.code, e.k.info, |f.code|, v.r, v.h); }
    hide Parts, NegSpec, Spec, ViewOf, WF, Code, FreeExp, Deferred;
    NegFromSpec(c, ViewOf(c, fs0), v, fs.code, e, g.code, e'.k, fs0.freereg, x);
  }

  lemma NotDeferred(c: Ctx, code: seq<Instr>, code': seq<Instr>, reg: int, n: int, r: Regs, h: History)
    requires 0 <= n < |code'| && code'[n] == INot(0, reg)
    ensures var o := Deferred(c, code, VNonReloc(reg), r, h);
            Deferred(c, code', VReloc(n), r, h) == Outcome(Bool(!Truthy(o.v)), o.h)
  {}

  lemma NotKindNeg(c: Ctx, fs0: FS, fs: FS, e: Exp, x: Expr)
    requires Rep(c, fs0, fs, e, x) && Discharged(e.k) && TrueConstants(c, e.k)
    requires NotKind(fs, e).fs.ok && NotKind(fs, e).fs.k <= c.k
    ensures var n := NotKind(fs, e);
            && NegCore(c, fs0, n.fs, n.e, x) && RegsOK(n.fs, n.e.k, fs0.freereg)
            && n.fs.clean == fs.clean && n.e.t == e.t && n.e.f == e.f
            && (n.e.k.VTrue? || n.e.k.VFalse? || n.e.k.VJmp? || n.e.k.VReloc?)
            && (n.e.k.VReloc? ==> |n.fs.code| > 0 && n.e.k.info == |n.fs.code| - 1 && n.fs.code[n.e.k.info].INot?)
  {
    hide RepCore, NegCore;
    if ConstantIs(e.k, true) || ConstantIs(e.k, false) {
      NotConst(c, fs0, fs, e, x);
    } else if e.k.VJmp? {
      NotJmp(c, fs0, fs, e, x);
    } else {
      var d := Discharge2AnyReg(fs, e);
      Discharge2AnyRegRep(c, fs0, fs, e, x);
      NotReg(c, fs0, d.fs, d.e, x);
    }
  }

  // ---------- dropping the values ----------

  /** Instruction i after removevalues on both lists. */
  ghost predicate StrippedAt(c1: seq<Instr>, t: seq<int>, f: seq<int>, c2: seq<Instr>, i: int)
    requires 0 <= i < |c1| <= |c2|
  {
    c2[i] == if c1[i].ITestSet? && (i + 1 in t || i + 1 in f) then ITest(c1[i].b, c1[i].cond) else c1[i]
  }

  ghost predicate Stripped(c1: seq<Instr>, t: seq<int>, f: seq<int>, c2: seq<Instr>) {
    |c1| == |c2| && forall i | 0 <= i < |c1| :: StrippedAt(c1, t, f, c2, i)
  }

  lemma RemoveBoth(fs: FS, t: seq<int>, f: seq<int>)
    ensures var g := RemoveValues(RemoveValues(fs, f), t);
            g == fs.(code := g.code) && Stripped(fs.code, t, f, g.code)
  {}

  lemma StrippedOK(code: seq<Instr>, lt: int, t: seq<int>, f: seq<int>, c2: seq<Instr>)
    requires CodeOK(code, lt) && Stripped(code, t, f, c2)
    requires forall n | n in t :: Pending(code, n)
    requires forall n | n in f :: Pending(code, n)
    ensures CodeOK(c2, lt) && Keeps(code, c2)
    ensures forall i | 0 <= i < |code| :: IsTest(c2[i]) <==> IsTest(code[i])
    ensures forall n :: Pending(c2, n) <==> Pending(code, n)
  {
    forall i | 0 <= i < |code|
      ensures InstrOK(c2, lt, i) && Kept(code, c2, i)
      ensures (IsTest(c2[i]) <==> IsTest(code[i])) && (Pending(c2, i) <==> Pending(code, i))
    {
      assert InstrOK(code, lt, i) && StrippedAt(code, t, f, c2, i);
      if i + 1 < |code| { assert StrippedAt(code, t, f, c2, i + 1); }
      if code[i].IJmp? && code[i].sbx >= 0 { assert StrippedAt(code, t, f, c2, i + code[i].sbx); }
    }
  }

  lemma StrippedView(c: Ctx, b: FS, b': FS, t: seq<int>, f: seq<int>)
    requires WF(b) && StartOK(b.code, c.x) && b' == b.(code := b'.code) && Stripped(b.code, t, f, b'.code)
    requires forall n | n in t :: Pending(b.code, n)
    requires forall n | n in f :: Pending(b.code, n)
    ensures var v := ViewOf(c, b); var v' := ViewOf(c, b');
            match v
            case Here(r, h) => v' == v
            case Away(n, r, h, w) => v' == Away(n, r, h, if n in t || n in f then None else w)
            case Crash => false
  {
    StrippedOK(b.code, b.lasttarget, t, f, b'.code);
    ExitFacts(c.p, c.k, b.code, b.lasttarget, c.x, c.r, c.h);
    Compose(c.p, c.k, b.code, b'.code, c.x, c.r, c.h);
    match Entering(c, b.code)
    case Fall(_, _) =>
    case Exit(n, _, _, _) =>
      if n > 0 { assert StrippedAt(b.code, t, f, b'.code, n - 1); }
    case Bad =>
  }

  predicate Swapped(e: Exp, e': Exp) {
    e' == Exp(e.k, e.f, e.t)
  }

  lemma StripBody(fs: FS, e: Exp, fs': FS, e': Exp)
    requires WF(fs) && ExpOK(fs, e) && Swapped(e, e')
    requires fs' == fs.(code := fs'.code) && Stripped(fs.code, e.t, e.f, fs'.code)
    ensures WF(fs') && ExpOK(fs', e')
    ensures Stripped(Body(fs, e).code, e.t, e.f, Body(fs', e').code)
    ensures Body(fs', e') == Body(fs, e).(code := Body(fs', e').code)
    ensures Simple(e.k) || fs'.code[|fs.code| - 1] == fs.code[|fs.code| - 1]
    ensures e.k.VJmp? ==> fs'.code[|fs.code| - 2] == fs.code[|fs.code| - 2]
  {
    StrippedOK(fs.code, fs.lasttarget, e.t, e.f, fs'.code);
    var b, b' := Body(fs, e), Body(fs', e');
    forall i | 0 <= i < |b.code| ensures StrippedAt(b.code, e.t, e.f, b'.code, i) {
      assert StrippedAt(fs.code, e.t, e.f, fs'.code, i);
    }
    if |fs.code| > 0 { assert StrippedAt(fs.code, e.t, e.f, fs'.code, |fs.code| - 1); }
    if |fs.code| > 1 { assert StrippedAt(fs.code, e.t, e.f, fs'.code, |fs.code| - 2); }
  }

  lemma BodyWF(fs: FS, e: Exp)
    requires WF(fs) && ExpOK(fs, e)
    ensures WF(Body(fs, e))
    ensures forall n | n in e.t || n in e.f :: Pending(Body(fs, e).code, n)
  {
    if e.k.VJmp? { JmpBodyWF(fs, e); } else if e.k.VReloc? { RelocBodyWF(fs, e); } else { SimpleBody(fs, e); }
  }

  lemma StripExt(fs0: FS, b: FS, b': FS, t: seq<int>, f: seq<int>)
    requires Ext(fs0, b) && b' == b.(code := b'.code) && Stripped(b.code, t, f, b'.code)
    requires WF(b)
    requires forall n | n in t :: Pending(b.code, n)
    requires forall n | n in f :: Pending(b.code, n)
    requires Own(fs0, t) && Own(fs0, f)
    ensures Ext(fs0, b')
  {
    StrippedOK(b.code, b.lasttarget, t, f, b'.code);
    forall n | 0 < n < |fs0.code| && Pending(fs0.code, n) && n !in fs0.jpc
      ensures Carries(b'.code, n) == Carries(fs0.code, n)
    {
      assert StrippedAt(b.code, t, f, b'.code, n - 1);
    }
  }

  lemma StripSpec(c: Ctx, v0: View, v: View, v': View, code: seq<Instr>, code': seq<Instr>, e: Exp, e': Exp, b: int,
                  x: Expr)
    requires NegSpec(c, v0, v, code, e, b, x) && Swapped(e, e')
    requires v.Here? ==> Deferred(c, code', e.k, v.r, v.h) == Deferred(c, code, e.k, v.r, v.h)
    requires match v
             case Here(r, h) => v' == v
             case Away(n, r, h, w) => v' == Away(n, r, h, if n in e.t || n in e.f then None else w)
             case Crash => false
    ensures Spec(c, v0, v', code', e', b, -1, EUn(Not, x))
  {
    hide Deferred;
  }

  lemma StripRep(c: Ctx, fs0: FS, fs: FS, e: Exp, fs': FS, e': Exp, x: Expr)
    requires NegCore(c, fs0, fs, e, x) && Swapped(e, e')
    requires fs' == fs.(code := fs'.code) && Stripped(fs.code, e.t, e.f, fs'.code)
    ensures RepCore(c, fs0, fs', e', EUn(Not, x), -1)
    ensures !Simple(e.k) ==> fs'.code[|fs.code| - 1] == fs.code[|fs.code| - 1]
  {
    var b, b' := Body(fs, e), Body(fs', e');
    StripBody(fs, e, fs', e');
    BodyWF(fs, e);
    StripExt(fs0, b, b', e.t, e.f);
    EntryExt(c, fs0, b);
    StrippedView(c, b, b', e.t, e.f);
    var v := ViewOf(c, b);
    assert v.Here? ==> Deferred(c, fs'.code, e.k, v.r, v.h) == Deferred(c, fs.code, e.k, v.r, v.h);
    hide Deferred, Run, InstrOK, Stripped, NegSpec, Spec;
    StripSpec(c, ViewOf(c, fs0), v, ViewOf(c, b'), fs.code, fs'.code, e, e', fs0.freereg, x);
  }

  lemma FinishNot(c: Ctx, fs0: FS, n: FE, x: Expr)
    requires NegCore(c, fs0, n.fs, n.e, x) && RegsOK(n.fs, n.e.k, fs0.freereg)
    requires n.e.k.VReloc? ==> |n.fs.code| > 0 && n.e.k.info == |n.fs.code| - 1 && n.fs.code[n.e.k.info].INot?
    ensures var g := RemoveValues(RemoveValues(n.fs, n.e.t), n.e.f);
            Rep(c, fs0, g, Exp(n.e.k, n.e.f, n.e.t), EUn(Not, x)) && g.clean == n.fs.clean
  {
    var g, e' := RemoveValues(RemoveValues(n.fs, n.e.t), n.e.f), Exp(n.e.k, n.e.f, n.e.t);
    RemoveBoth(n.fs, n.e.f, n.e.t);
    assert Stripped(n.fs.code, n.e.t, n.e.f, g.code);
    hide RepCore, NegCore, RemoveValues, Stripped;
    StripRep(c, fs0, n.fs, n.e, g, e', x);
  }

  lemma CodeNotRep(c: Ctx, fs0: FS, fs: FS, e: Exp, x: Expr)
    requires Rep(c, fs0, fs, e, x) && TrueConstants(c, e.k)
    requires CodeNot(fs, e).fs.ok && CodeNot(fs, e).fs.k <= c.k
    ensures var r := CodeNot(fs, e);
            && Rep(c, fs0, r.fs, r.e, EUn(Not, x)) && r.fs.clean == fs.clean
            && (r.e.k.VTrue? || r.e.k.VFalse? || r.e.k.VJmp? || r.e.k.VReloc?)
  {
    var d := DischargeVars(fs, e);
    DischargeVarsRep(c, fs0, fs, e, x);
    hide Rep, NegCore, NotKind, DischargeVars, RegsOK, RemoveValues;
    NotKindNeg(c, fs0, d.fs, d.e, x);
    FinishNot(c, fs0, NotKind(d.fs, d.e), x);
  }
}
