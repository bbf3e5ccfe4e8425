/** The theorem for the machine: a function whose body is `return x`, and an assignment `l = x`. */
module LuaProgram {
  import opened Wrappers
  import opened LuaValues
  import opened LuaLimits
  import opened LuaOpcodes
  import opened LuaGen
  import opened LuaRun
  import opened LuaInv
  import opened LuaEmit
  import opened LuaDischarge
  import opened LuaToReg
  import opened LuaCorrect

  // ---------- from Run to the machine ----------

  /** Code that runs off its end takes the machine there, whatever follows it. */
  lemma {:induction false} RunSteps(p: Prims, k: seq<Value>, code: seq<Instr>, whole: seq<Instr>,
                                    pc: int, r: Regs, h: History) returns (n: nat)
    requires code <= whole && Run(p, k, code, pc, r, h).Fall?
    ensures var o := Run(p, k, code, pc, r, h);
            Steps(p, k, whole, Machine(pc, r, h), n) == Some(Machine(|code|, o.r, o.h))
    decreases |code| - pc
  {
    if pc == |code| {
      n := 0;
    } else {
      var g := NextOf(p, k, code, pc, r, h);
      assert Step(p, k, whole, Machine(pc, r, h)) == Some(Machine(g.pc, g.r, g.h));
      n := RunSteps(p, k, code, whole, g.pc, g.r, g.h);
      n := n + 1;
    }
  }

  // ---------- return x ----------

  /** open_func, with n parameters. */
  function OpenFunc(n: nat): FS {
    FS([], [], -1, n, n, [], if n > 2 then n else 2, true, true, true)
  }

  /** The code of a function with n parameters and body `return x`. */
  function ReturnExpr(p: Prims, n: nat, x: Expr): FS {
    var e := Compile(p, OpenFunc(n), x);
    var d := Exp2AnyReg(e.fs, e.e);
    Code(d.fs, IReturn(if d.e.k.VNonReloc? then d.e.k.info else 0, 2))
  }

  /** m is the machine at the RETURN that ends the code, about to return v. */
  ghost predicate Returning(code: seq<Instr>, n: nat, r: Regs, o: Outcome, m: Machine) {
    && m.pc == |code| - 1 >= 0 && code[m.pc].IReturn? && code[m.pc].b == 2
    && Get(m.r, code[m.pc].a) == o.v && m.h == o.h && Agree(r, m.r, n, -1)
  }

  /** Unless generation failed or coded an unclean jump, the machine run from the first instruction
      returns the value of the expression, after the same events, with the locals unchanged. */
  lemma ReturnCorrect(p: Prims, n: nat, x: Expr, r: Regs, h: History) returns (steps: nat)
    requires n < MAXSTACK && LocalsBelow(x, n) && FreshRegs(r, n)
    requires var f := ReturnExpr(p, n, x); f.ok && f.clean
    ensures var f := ReturnExpr(p, n, x);
            var m := Steps(p, f.k, f.code, Machine(0, r, h), steps);
            m.Some? && Returning(f.code, n, r, Eval(p, x, r, h), m.value)
  {
    var f, fs0 := ReturnExpr(p, n, x), OpenFunc(n);
    var e := Compile(p, fs0, x);
    var d := Exp2AnyReg(e.fs, e.e);
    var c := Ctx(p, f.k, 0, r, h, true);
    assert WF(fs0) && Entry(c, fs0) && ViewOf(c, fs0) == Here(r, h);
    hide Rep, WF, Entry, Compile, Exp2AnyReg;
    CompileRep(c, fs0, x);
    Exp2AnyRegRep(c, fs0, e.fs, e.e, x);
    steps := FinishReturn(c, fs0, d.fs, d.e.k.info, x);
  }

  lemma FinishReturn(c: Ctx, fs0: FS, fs: FS, reg: int, x: Expr) returns (steps: nat)
    requires Rep(c, fs0, fs, Init(VNonReloc(reg)), x) && fs0.freereg >= 0 && c.values
    requires ViewOf(c, fs0) == Here(c.r, c.h)
    ensures var f := Code(fs, IReturn(reg, 2));
            var m := Steps(c.p, c.k, f.code, Machine(c.x, c.r, c.h), steps);
            m.Some? && Returning(f.code, fs0.freereg, c.r, Eval(c.p, x, c.r, c.h), m.value)
  {
    var code, f := DischargeJpc(fs).code, Code(fs, IReturn(reg, 2));
    assert f.code == code + [IReturn(reg, 2)] && |code| == |fs.code|;
    ReturnRun(c, fs0, fs, reg, x);
    hide InstrOK, Eval, Rep, Run, DischargeJpc, Code, ViewOf;
    steps := RunSteps(c.p, c.k, code, f.code, c.x, c.r, c.h);
  }

  /** The run over the code before the RETURN falls off its end with the value in the register. */
  lemma ReturnRun(c: Ctx, fs0: FS, fs: FS, reg: int, x: Expr)
    requires Rep(c, fs0, fs, Init(VNonReloc(reg)), x) && fs0.freereg >= 0 && c.values
    requires ViewOf(c, fs0) == Here(c.r, c.h)
    ensures var out := Run(c.p, c.k, DischargeJpc(fs).code, c.x, c.r, c.h); var o := Eval(c.p, x, c.r, c.h);
            out.Fall? && Get(out.r, reg) == o.v && out.h == o.h && Agree(c.r, out.r, fs0.freereg, -1)
  {
    var code := DischargeJpc(fs).code;
    SimpleBody(fs, Init(VNonReloc(reg)));
    EntryExt(c, fs0, fs);
    DischargedRun(c, fs, []);
    assert code + [] == code && |code| == |fs.code|;
    hide InstrOK, Eval, DischargeJpc;
  }

  // ---------- l = x ----------

  lemma Exp2RegDischarged(fs: FS, e: Exp, reg: int)
    ensures var d := DischargeVars(fs, e); Exp2Reg(fs, e, reg) == Exp2Reg(d.fs, d.e, reg)
  {}

  lemma StoreTemp(c: Ctx, fs0: FS, fs: FS, e: Exp, x: Expr, local: int)
    requires Rep(c, fs0, fs, e, x) && e.k.VNonReloc? && 0 <= local < fs0.nactvar
    requires var g := StoreLocal(fs, local, e); g.ok && g.k <= c.k
    ensures var g := StoreLocal(fs, local, e);
            RepCore(c, fs0, g, Init(VNonReloc(local)), x, local) && g.freereg == fs0.freereg
  {
    RepFacts(c, fs0, fs, e, x, -1);
    RepReg(c, fs0, fs, e, x);
    FreeExpTop(fs, e, fs0.freereg);
    assert WF(fs.(freereg := fs0.freereg));
    hide Rep, WF, Exp2Reg, FreeExp;
    Exp2RegRep(c, fs0, fs, fs.(freereg := fs0.freereg), e, x, local, local);
  }

  lemma StoreOther(c: Ctx, fs0: FS, fs: FS, e: Exp, x: Expr, local: int)
    requires Rep(c, fs0, fs, e, x) && !e.k.VNonReloc? && 0 <= local < fs0.nactvar
    requires var g := StoreLocal(fs, local, e); g.ok && g.k <= c.k
    ensures var g := StoreLocal(fs, local, e);
            RepCore(c, fs0, g, Init(VNonReloc(local)), x, local) && g.freereg == fs0.freereg
  {
    var d := DischargeVars(fs, e);
    FreeLocal(fs0, fs, e);
    Exp2RegDischarged(fs, e, local);
    DischargeVarsRep(c, fs0, fs, e, x);
    RepFacts(c, fs0, d.fs, d.e, x, -1);
    assert 0 <= local < MAXSTACK;
    hide RepCore, WF, Exp2Reg, DischargeVars;
    Exp2RegRep(c, fs0, d.fs, d.fs, d.e, x, local, local);
  }

  /** Storing into a local: it gets the value that the expression had before the assignment, every
      other register in use keeps its value, and the register count is back where it was. */
  lemma StoreLocalCorrect(c: Ctx, fs0: FS, fs: FS, e: Exp, x: Expr, local: int)
    requires Rep(c, fs0, fs, e, x) && 0 <= local < fs0.nactvar
    requires var g := StoreLocal(fs, local, e); g.ok && g.k <= c.k
    ensures var g := StoreLocal(fs, local, e); var v0 := ViewOf(c, fs0); var v := ViewOf(c, g);
            && WF(g) && g.freereg == fs0.freereg
            && (c.values && v0.Here? ==> var o := Eval(c.p, x, v0.r, v0.h);
                             v.Here? && v.h == o.h && Get(v.r, local) == o.v && Agree(v0.r, v.r, fs0.freereg, local))
            && (c.values && !v0.Here? ==> v == v0)
  {
    var g, e' := StoreLocal(fs, local, e), Init(VNonReloc(local));
    if e.k.VNonReloc? { StoreTemp(c, fs0, fs, e, x, local); } else { StoreOther(c, fs0, fs, e, x, local); }
    SimpleBody(g, e');
    RepFacts(c, fs0, g, e', x, local);
    hide Rep, WF, Parts, StoreLocal;
  }

  lemma FreeLocal(fs0: FS, fs: FS, e: Exp)
    requires RegsOK(fs, e.k, fs0.freereg) && !e.k.VNonReloc?
    ensures FreeExp(fs, e) == fs
  {}
}
