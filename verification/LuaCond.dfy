/** Conditions: going on only if an expression is true (luaK_goiftrue) or false (luaK_goiffalse). */
module LuaCond {
  import opened Wrappers
  import opened LuaValues
  import opened LuaLimits
  import opened LuaOpcodes
  import opened LuaGen
  import opened LuaRun
  import opened LuaInv
  import opened LuaEmit
  import opened LuaDischarge
  import opened LuaClose
  import opened LuaToReg

  /** From v0, expression x was evaluated: control is here only if its truth is `sense`, otherwise it
      left by `exit`; a jump of `stay` means that its truth is `sense` too. */
  ghost predicate Branches(c: Ctx, v0: View, v: View, exit: seq<int>, stay: seq<int>, b: int, x: Expr, sense: bool) {
    c.values ==>
      match v0
      case Here(r0, h0) =>
        var o := Eval(c.p, x, r0, h0);
        (match v
         case Here(r, h) => Agree(r0, r, b, -1) && h == o.h && Truthy(o.v) == sense
         case Away(n, r, h, w) =>
           && Agree(r0, r, b, -1) && h == o.h
           && ((n in exit && Yields(w, !sense, o.v)) || (n in stay && Yields(w, sense, o.v)))
         case Crash => false)
      case Away(n, _, _, _) => v == v0 && n !in exit && n !in stay
      case Crash => false
  }

  predicate BranchLists(fs0: FS, fs: FS, exit: seq<int>, stay: seq<int>) {
    ListOK(fs, exit) && ListOK(fs, stay) && Disjoint(exit, stay) && Own(fs0, exit) && Own(fs0, stay)
  }

  ghost predicate BranchRep(c: Ctx, fs0: FS, fs: FS, exit: seq<int>, stay: seq<int>, x: Expr, sense: bool) {
    && WF(fs0) && Entry(c, fs0) && WF(fs) && fs.k <= c.k && Ext(fs0, fs) && fs.freereg == fs0.freereg
    && BranchLists(fs0, fs, exit, stay)
    && Branches(c, ViewOf(c, fs0), ViewOf(c, fs), exit, stay, fs0.freereg, x, sense)
  }

  /** The jumps that mean `sense` go on here. */
  lemma FinishBranch(c: Ctx, fs0: FS, fs: FS, exit: seq<int>, stay: seq<int>, x: Expr, sense: bool)
    requires BranchRep(c, fs0, fs, exit, stay, x, sense) && PatchToHere(fs, stay).ok
    ensures BranchRep(c, fs0, PatchToHere(fs, stay), exit, [], x, sense)
    ensures PatchToHere(fs, stay).clean == fs.clean
  {
    EntryExt(c, fs0, fs);
    ToHereView(c, fs, stay);
  }

  /** luaK_stringK makes the only VK operands that goiftrue meets: a constant that is not false. */
  predicate TrueConstants(c: Ctx, k: Kind) {
    k.VK? ==> Truthy(KAt(c.k, k.info))
  }

  lemma ConstBranch(c: Ctx, fs0: FS, fs: FS, e: Exp, x: Expr, sense: bool)
    requires Rep(c, fs0, fs, e, x) && ConstantIs(e.k, sense) && TrueConstants(c, e.k)
    ensures BranchRep(c, fs0, fs, ExitOf(e, sense), StayOf(e, sense), x, sense)
  {
    SimpleBody(fs, e);
  }

  lemma AlwaysStep(c: Ctx, v0: View, v: View, v': View, code: seq<Instr>, e: Exp, b: int, x: Expr, sense: bool,
                   list: seq<int>)
    requires Spec(c, v0, v, code, e, b, -1, x) && e.k == (if sense then VFalse else VTrue)
    requires Disjoint(list, e.t) && Disjoint(list, e.f) && (v0.Away? && v == v0 ==> v0.n !in list)
    requires !v.Here? ==> v' == v
    requires v.Here? ==> v'.Away? && v'.n in list && v'.r == v.r && v'.h == v.h && (c.values ==> v'.carried.None?)
    ensures Branches(c, v0, v', ExitOf(e, sense) + list, StayOf(e, sense), b, x, sense)
  {}

  lemma AlwaysLists(fs0: FS, fs: FS, g: FS, e: Exp, sense: bool)
    requires ExpOK(fs, e) && Own(fs0, e.t) && Own(fs0, e.f) && Ext(fs0, fs)
    requires g.code == fs.code + [IJmp(NO_JUMP)] && g.jpc == []
    requires forall n | n in fs.jpc :: Pending(fs.code, n)
    ensures var list := [|fs.code|] + fs.jpc;
            BranchLists(fs0, g, ExitOf(e, sense) + list, StayOf(e, sense)) && Disjoint(list, e.t) && Disjoint(list, e.f)
  {}

  /** The always-taken jump, seen from an entry point. */
  lemma AlwaysView(c: Ctx, fs: FS)
    requires WF(fs) && Entry(c, fs) && AlwaysJump(fs).fs.ok
    ensures var j := AlwaysJump(fs); var v := ViewOf(c, fs); var v' := ViewOf(c, j.fs);
            && WF(j.fs) && Ext(fs, j.fs)
            && j.fs == fs.(code := fs.code + [IJmp(NO_JUMP)], jpc := [], clean := j.fs.clean)
            && j.list == [|fs.code|] + fs.jpc
            && (v.Here? ==> v'.Away? && v'.n in j.list && v'.r == v.r && v'.h == v.h
                            && (j.fs.clean ==> v'.carried.None?))
            && (!v.Here? ==> v' == v)
  {
    var f := fs.(clean := fs.clean && !AnyCarries(fs.code, fs.jpc));
    assert WF(f) && Entry(c, f) && ViewOf(c, f) == ViewOf(c, fs);
    JumpView(c, f);
    hide Run, InstrOK, Jump, StartOK;
  }

  /** What Rep says of the state and the lists. */
  lemma RepState(c: Ctx, fs0: FS, fs: FS, e: Exp, x: Expr)
    requires RepCore(c, fs0, fs, e, x, -1)
    ensures WF(fs0) && Entry(c, fs0) && WF(fs) && fs.k <= c.k && ExpOK(fs, e) && Own(fs0, e.t) && Own(fs0, e.f)
    ensures Ext(fs0, Body(fs, e)) && ViewOf(c, fs0) != Crash
    ensures Spec(c, ViewOf(c, fs0), ViewOf(c, Body(fs, e)), fs.code, e, fs0.freereg, -1, x)
  {
    ExitFacts(c.p, c.k, fs0.code, fs0.lasttarget, c.x, c.r, c.h);
    hide Run, InstrOK, Spec;
  }

  lemma BranchIntro(c: Ctx, fs0: FS, fs: FS, exit: seq<int>, stay: seq<int>, x: Expr, sense: bool)
    requires WF(fs0) && Entry(c, fs0) && WF(fs) && fs.k <= c.k && Ext(fs0, fs) && fs.freereg == fs0.freereg
    requires BranchLists(fs0, fs, exit, stay)
    requires Branches(c, ViewOf(c, fs0), ViewOf(c, fs), exit, stay, fs0.freereg, x, sense)
    ensures BranchRep(c, fs0, fs, exit, stay, x, sense)
  {
    hide WF, Entry, Ext, BranchLists, Branches;
  }

  /** A run that has left before the expression has left by an older jump. */
  lemma OlderExit(c: Ctx, fs0: FS, n: int)
    requires WF(fs0) && Entry(c, fs0) && n >= |fs0.code|
    ensures var v0 := ViewOf(c, fs0); v0.Away? ==> v0.n != n && v0.n < |fs0.code| && v0.n !in fs0.jpc
  {
    ExitFacts(c.p, c.k, fs0.code, fs0.lasttarget, c.x, c.r, c.h);
  }

  lemma AlwaysBranch(c: Ctx, fs0: FS, fs: FS, e: Exp, x: Expr, sense: bool)
    requires Rep(c, fs0, fs, e, x) && e.k == (if sense then VFalse else VTrue)
    requires AlwaysJump(fs).fs.ok && (c.values ==> AlwaysJump(fs).fs.clean)
    ensures var j := AlwaysJump(fs);
            BranchRep(c, fs0, j.fs, ExitOf(e, sense) + j.list, StayOf(e, sense), x, sense)
  {
    SimpleBody(fs, e);
    RepState(c, fs0, fs, e, x);
    EntryExt(c, fs0, fs);
    AlwaysView(c, fs);
    var j := AlwaysJump(fs);
    ExtTrans(fs0, fs, j.fs);
    AlwaysLists(fs0, fs, j.fs, e, sense);
    OlderExit(c, fs0, |fs.code|);
    assert forall n | n in fs.jpc :: n >= |fs0.code| || n in fs0.jpc;
    hide Deferred, Run, InstrOK, BranchLists, Branches, WF, Entry, Ext, AlwaysJump, Spec, ViewOf, RepCore;
    AlwaysStep(c, ViewOf(c, fs0), ViewOf(c, fs), ViewOf(c, j.fs), fs.code, e, fs0.freereg, x, sense, j.list);
    BranchIntro(c, fs0, j.fs, ExitOf(e, sense) + j.list, StayOf(e, sense), x, sense);
  }

  /** From a descriptor's promise to a branch, by a test whose jump is the new node n. */
  lemma BranchStep(c: Ctx, v0: View, v: View, v': View, code: seq<Instr>, e: Exp, b: int, x: Expr, sense: bool, n: int)
    requires Spec(c, v0, v, code, e, b, -1, x)
    requires n !in e.t && n !in e.f && (v0.Away? ==> v0.n != n)
    requires !v.Here? ==> v' == v
    requires v.Here? ==> var o := Deferred(c, code, e.k, v.r, v.h);
                         if Truthy(o.v) == sense then v' == Here(v.r, o.h)
                         else v'.Away? && v'.n == n && v'.r == v.r && v'.h == o.h && Yields(v'.carried, !sense, o.v)
    ensures Branches(c, v0, v', ExitOf(e, sense) + [n], StayOf(e, sense), b, x, sense)
  {
    hide Deferred;
  }

  lemma NewBranchLists(fs0: FS, fs: FS, e: Exp, sense: bool, n: int)
    requires ListOK(fs, e.t) && ListOK(fs, e.f) && Disjoint(e.t, e.f) && Own(fs0, e.t) && Own(fs0, e.f)
    requires Pending(fs.code, n) && n !in fs.jpc && n !in e.t && n !in e.f && n >= |fs0.code|
    ensures BranchLists(fs0, fs, ExitOf(e, sense) + [n], StayOf(e, sense))
  {}

  // ---------- comparisons ----------

  /** Inverting a comparison's jump gives a descriptor of the opposite value. */
  lemma InvertRep(c: Ctx, fs: FS, e: Exp)
    requires WF(fs) && ExpOK(fs, e) && e.k.VJmp? && StartOK(Body(fs, e).code, c.x)
    ensures var f := InvertJump(fs, e.k.info); var n := |fs.code|;
            && WF(f) && ExpOK(f, e) && Body(f, e) == Body(fs, e)
            && f == fs.(code := f.code) && |f.code| == n
            && f.code[n - 2] == (var i := fs.code[n - 2]; ICmp(i.cmp, !i.cond, i.b, i.c))
            && forall m | 0 <= m < n && m != n - 2 :: f.code[m] == fs.code[m]
  {
    var f := InvertJump(fs, e.k.info);
    forall j | 0 <= j < |f.code| ensures InstrOK(f.code, f.lasttarget, j) {
      assert InstrOK(fs.code, fs.lasttarget, j);
    }
    assert Body(f, e).code == Body(fs, e).code;
  }

  lemma JmpBranchView(c: Ctx, fs: FS, e: Exp, sense: bool)
    requires WF(fs) && ExpOK(fs, e) && e.k.VJmp? && StartOK(Body(fs, e).code, c.x)
    ensures var f := if sense then InvertJump(fs, e.k.info) else fs;
            var v := ViewOf(c, Body(fs, e)); var v' := ViewOf(c, f);
            && (!v.Here? ==> v' == v)
            && (v.Here? ==> var o := Deferred(c, fs.code, e.k, v.r, v.h);
                            && o.v.Bool?
                            && if Truthy(o.v) == sense then v' == Here(v.r, o.h)
                               else v' == Away(e.k.info, v.r, o.h, None))
  {
    var f := if sense then InvertJump(fs, e.k.info) else fs;
    if sense { InvertRep(c, fs, e); }
    JmpView(c, f, e);
  }

  lemma JmpBranch(c: Ctx, fs0: FS, fs: FS, e: Exp, x: Expr, sense: bool)
    requires Rep(c, fs0, fs, e, x) && e.k.VJmp?
    ensures var f := if sense then InvertJump(fs, e.k.info) else fs;
            BranchRep(c, fs0, f, ExitOf(e, sense) + [e.k.info], StayOf(e, sense), x, sense)
            && f.clean == fs.clean && f.asserts
  {
    var f := if sense then InvertJump(fs, e.k.info) else fs;
    JmpBodyWF(fs, e);
    RepState(c, fs0, fs, e, x);
    EntryExt(c, fs0, Body(fs, e));
    if sense { InvertRep(c, fs, e); }
    JmpView(c, f, e);
    ExtTrans(fs0, Body(fs, e), f);
    JmpBranchView(c, fs, e, sense);
    OlderExit(c, fs0, e.k.info);
    NewBranchLists(fs0, f, e, sense, e.k.info);
    hide Deferred, Run, InstrOK, InvertJump, BranchLists, Branches, WF, Entry, Ext, Spec, ViewOf, RepCore;
    BranchStep(c, ViewOf(c, fs0), ViewOf(c, Body(fs, e)), ViewOf(c, f), fs.code, e, fs0.freereg, x, sense, e.k.info);
    BranchIntro(c, fs0, f, ExitOf(e, sense) + [e.k.info], StayOf(e, sense), x, sense);
  }

  lemma JmpBodyWF(fs: FS, e: Exp)
    requires WF(fs) && ExpOK(fs, e) && e.k.VJmp?
    ensures WF(Body(fs, e))
  {
    StripTest(fs);
  }

  lemma RelocBodyWF(fs: FS, e: Exp)
    requires WF(fs) && ExpOK(fs, e) && e.k.VReloc?
    ensures WF(Body(fs, e))
  {
    StripLast(fs);
  }

  // ---------- values ----------

  /** A list keeps its jumps when a test is coded. */
  lemma CondJumpList(fs: FS, i: Instr, list: seq<int>)
    requires WF(fs) && IsTest(i) && ListOK(fs, list)
    ensures ListOK(CondJump(fs, i).fs, list) && |fs.code| + 1 !in list
  {
    var d := DischargeJpc(fs);
    DischargeOK(fs);
    PatchNone(d.code + [i], |d.code| + 1);
  }

  lemma BodyList(fs: FS, e: Exp, f: FS, list: seq<int>)
    requires ExpOK(fs, e) && !e.k.VJmp? && ListOK(fs, list)
    requires f == Body(fs, e).(freereg := f.freereg)
    ensures ListOK(f, list)
  {}

  /** Test i decides whether the value o is of the other truth, and carries it or a boolean. */
  predicate Decides(c: Ctx, i: Instr, r: Regs, h: History, o: Outcome, sense: bool) {
    && (i.ITest? || i.ITestSet?)
    && o.h == h && Taken(c.p, c.k, i, r, h) == (Truthy(o.v) != sense)
    && (if i.ITestSet? then Get(r, i.b) == o.v else o.v.Bool?)
  }

  lemma TestView(c: Ctx, f: FS, i: Instr, o: Outcome, sense: bool)
    requires WF(f) && StartOK(f.code, c.x) && IsTest(i) && CondJump(f, i).fs.ok
    requires var v := ViewOf(c, f); v.Here? ==> Decides(c, i, v.r, v.h, o, sense)
    ensures var v := ViewOf(c, f); var v' := ViewOf(c, CondJump(f, i).fs);
            && (!v.Here? ==> v' == v)
            && (v.Here? ==> if Truthy(o.v) == sense then v' == Here(v.r, o.h)
                            else v'.Away? && v'.n == |f.code| + 1 && v'.r == v.r && v'.h == o.h
                                 && Yields(v'.carried, !sense, o.v))
  {
    CondJumpRun(c, f, i);
  }

  /** A test for a value that has just been computed. */
  lemma TestBranch(c: Ctx, fs0: FS, fs: FS, f: FS, e: Exp, x: Expr, i: Instr, sense: bool)
    requires RepCore(c, fs0, fs, e, x, -1) && !e.k.VJmp?
    requires f == Body(fs, e).(freereg := fs0.freereg) && WF(f) && IsTest(i)
    requires CondJump(f, i).fs.ok
    requires var v := ViewOf(c, f);
             v.Here? ==> Decides(c, i, v.r, v.h, Deferred(c, fs.code, e.k, v.r, v.h), sense)
    ensures var j := CondJump(f, i);
            BranchRep(c, fs0, j.fs, ExitOf(e, sense) + j.list, StayOf(e, sense), x, sense)
            && j.fs.clean == fs.clean
  {
    var j, n, v := CondJump(f, i), |f.code| + 1, ViewOf(c, f);
    RepState(c, fs0, fs, e, x);
    assert Ext(fs0, f) && v == ViewOf(c, Body(fs, e));
    EntryExt(c, fs0, f);
    CondJumpRun(c, f, i);
    ExtTrans(fs0, f, j.fs);
    BodyList(fs, e, f, e.t);
    BodyList(fs, e, f, e.f);
    CondJumpList(f, i, e.t);
    CondJumpList(f, i, e.f);
    OlderExit(c, fs0, n);
    NewBranchLists(fs0, j.fs, e, sense, n);
    hide Deferred, Run, InstrOK, CondJump, Taken, Decides, BranchLists, Branches, WF, Entry, Ext, Spec, ViewOf, RepCore;
    TestView(c, f, i, if v.Here? then Deferred(c, fs.code, e.k, v.r, v.h) else Outcome(Nil, []), sense);
    BranchStep(c, ViewOf(c, fs0), v, ViewOf(c, j.fs), fs.code, e, fs0.freereg, x, sense, n);
    BranchIntro(c, fs0, j.fs, ExitOf(e, sense) + j.list, StayOf(e, sense), x, sense);
  }

  lemma NotDecides(c: Ctx, code: seq<Instr>, k: Kind, r: Regs, h: History, sense: bool)
    requires |code| > 0 && k == VReloc(|code| - 1) && code[|code| - 1].INot?
    ensures Decides(c, ITest(code[|code| - 1].b, sense), r, h, Deferred(c, code, k, r, h), sense)
  {}

  lemma NotBranch(c: Ctx, fs0: FS, fs: FS, e: Exp, x: Expr, sense: bool)
    requires Rep(c, fs0, fs, e, x) && e.k.VReloc? && fs.code[|fs.code| - 1].INot?
    requires var f := Body(fs, e); CondJump(f, ITest(fs.code[|fs.code| - 1].b, sense)).fs.ok
    ensures var f := Body(fs, e); var j := CondJump(f, ITest(fs.code[|fs.code| - 1].b, sense));
            BranchRep(c, fs0, j.fs, ExitOf(e, sense) + j.list, StayOf(e, sense), x, sense) && j.fs.clean == fs.clean
  {
    var last := fs.code[|fs.code| - 1];
    RelocBodyWF(fs, e);
    assert Body(fs, e).code == fs.code[..|fs.code| - 1];
    hide RepCore, WF, CondJump, Decides, Deferred, BranchRep;
    var v := ViewOf(c, Body(fs, e));
    if v.Here? { NotDecides(c, fs.code, e.k, v.r, v.h, sense); }
    TestBranch(c, fs0, fs, Body(fs, e), e, x, ITest(last.b, sense), sense);
  }

  lemma ValueBranch(c: Ctx, fs0: FS, fs: FS, e: Exp, x: Expr, sense: bool)
    requires Rep(c, fs0, fs, e, x) && e.k.VNonReloc?
    requires CondJump(FreeExp(fs, e), ITestSet(NO_REG, e.k.info, !sense)).fs.ok
    ensures var j := CondJump(FreeExp(fs, e), ITestSet(NO_REG, e.k.info, !sense));
            BranchRep(c, fs0, j.fs, ExitOf(e, sense) + j.list, StayOf(e, sense), x, sense) && j.fs.clean == fs.clean
  {
    FreeExpTop(fs, e, fs0.freereg);
    SimpleBody(fs, e);
    TestBranch(c, fs0, fs, FreeExp(fs, e), e, x, ITestSet(NO_REG, e.k.info, !sense), sense);
  }

  /** jumponcond. */
  lemma JumpOnCondBranch(c: Ctx, fs0: FS, fs: FS, e: Exp, x: Expr, sense: bool)
    requires Rep(c, fs0, fs, e, x) && Discharged(e.k) && !e.k.VJmp?
    requires JumpOnCond(fs, e, !sense).fs.ok && JumpOnCond(fs, e, !sense).fs.k <= c.k
    ensures var j := JumpOnCond(fs, e, !sense);
            BranchRep(c, fs0, j.fs, ExitOf(e, sense) + j.list, StayOf(e, sense), x, sense) && j.fs.clean == fs.clean
  {
    hide Rep, CondJump, FreeExp, BranchRep, Discharge2AnyReg;
    if e.k.VReloc? && |fs.code| > 0 && fs.code[|fs.code| - 1].INot? {
      NotBranch(c, fs0, fs, e, x, sense);
    } else {
      var d := Discharge2AnyReg(fs, e);
      Discharge2AnyRegRep(c, fs0, fs, e, x);
      ValueBranch(c, fs0, d.fs, d.e, x, sense);
    }
  }

  // ---------- going on if true, or if false ----------

  lemma DecideBranch(c: Ctx, fs0: FS, fs: FS, e: Exp, x: Expr, sense: bool)
    requires Rep(c, fs0, fs, e, x) && Discharged(e.k) && TrueConstants(c, e.k)
    requires Decide(fs, e, sense).fs.ok && Decide(fs, e, sense).fs.k <= c.k
    requires c.values ==> Decide(fs, e, sense).fs.clean
    ensures var j := Decide(fs, e, sense);
            BranchRep(c, fs0, j.fs, ExitOf(e, sense) + j.list, StayOf(e, sense), x, sense)
  {
    if ConstantIs(e.k, sense) {
      assert ExitOf(e, sense) + [] == ExitOf(e, sense);
      ConstBranch(c, fs0, fs, e, x, sense);
    } else if e.k == (if sense then VFalse else VTrue) {
      AlwaysBranch(c, fs0, fs, e, x, sense);
    } else if e.k.VJmp? {
      JmpBranch(c, fs0, fs, e, x, sense);
    } else {
      JumpOnCondBranch(c, fs0, fs, e, x, sense);
    }
  }

  lemma GoIfRep(c: Ctx, fs0: FS, fs: FS, e: Exp, x: Expr, sense: bool)
    requires Rep(c, fs0, fs, e, x) && TrueConstants(c, e.k)
    requires GoIf(fs, e, sense).fs.ok && GoIf(fs, e, sense).fs.k <= c.k && (c.values ==> GoIf(fs, e, sense).fs.clean)
    ensures var g := GoIf(fs, e, sense);
            BranchRep(c, fs0, g.fs, ExitOf(g.e, sense), [], x, sense) && StayOf(g.e, sense) == []
  {
    var d := DischargeVars(fs, e);
    var j := Decide(d.fs, d.e, sense);
    GoIfShape(fs, e, sense);
    assert TrueConstants(c, d.e.k);
    hide Rep, TrueConstants, BranchRep, Decide, DischargeVars, GoIf, Join, PatchToHere, Discharged;
    DischargeVarsRep(c, fs0, fs, e, x);
    DecideBranch(c, fs0, d.fs, d.e, x, sense);
    FinishBranch(c, fs0, j.fs, ExitOf(d.e, sense) + j.list, StayOf(d.e, sense), x, sense);
  }
}
