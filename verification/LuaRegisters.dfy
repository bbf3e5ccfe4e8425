/** A corollary of the correctness of the generator: registers are taken and freed as a stack. */
module LuaRegisters {
  import opened LuaValues
  import opened LuaLimits
  import opened LuaGen
  import opened LuaInv
  import opened LuaToReg
  import opened LuaCorrect

  /** Registers are a stack: every register that is freed is the top one (the assertion of freereg never
      fails), none of an active local is, and compiling an expression to the next register, in any state
      of the generator, leaves its value there and takes exactly that register. */
  lemma NextRegisterOnly(p: Prims, fs: FS, x: Expr)
    requires WF(fs) && LocalsBelow(x, fs.nactvar)
    requires var c := Compile(p, fs, x); Exp2NextReg(c.fs, c.e).fs.ok
    ensures var c := Compile(p, fs, x); var r := Exp2NextReg(c.fs, c.e);
            && r.fs.asserts && r.fs.nactvar == fs.nactvar
            && r.e == Init(VNonReloc(fs.freereg)) && r.fs.freereg == fs.freereg + 1 <= r.fs.maxstack
  {
    var a := Compile(p, fs, x);
    var r := Exp2NextReg(a.fs, a.e);
    var regs := NilRange(map[], 0, MAXSTACK - 1);
    var c := Ctx(p, r.fs.k, 0, regs, [], false);
    assert FreshRegs(regs, fs.nactvar) && Entry(c, fs);
    hide Compile, Exp2NextReg, WF, Entry, Rep;
    CompileRep(c, fs, x);
    Exp2NextRegRep(c, fs, a.fs, a.e, x);
    RepFacts(c, fs, r.fs, r.e, x, -1);
    FactsOfWF(r.fs);
  }

  lemma FactsOfWF(fs: FS)
    requires WF(fs)
    ensures fs.asserts && fs.freereg <= fs.maxstack
  {}
}
