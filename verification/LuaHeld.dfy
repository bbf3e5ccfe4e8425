/** When luaK_goiftrue and luaK_goiffalse code an always-taken jump while a jump that carries a value
    is held for the next position: a condition on the expression's text, followed through the
    generator operation by operation. */
module LuaHeld {
  import opened LuaValues
  import opened LuaLimits
  import opened LuaOpcodes
  import opened LuaGen
  import opened LuaInv
  import opened LuaEmit
  import opened LuaDischarge
  import opened LuaClose
  import opened LuaToReg
  import opened LuaCond

  // ---------- the text of an expression ----------

  /** What a descriptor is, without its code: a constant, an active local, a variable that has not been
      read, a comparison with its jump, an unfinished NOT, or another unfinished instruction. */
  datatype Shape = SNil | SFalse | STrue | SStr | SNum(n: Literal) | SLocal | SVar | STest | SNot | SCode

  /** A jump list: empty, without a jump that carries a value, or with one. */
  datatype Jumps = NoJumps | Bare | Valued

  /** A descriptor with its lists, and whether a jump that carries a value is held for the next
      position. `clean` is false once an always-taken jump has met such a jump. */
  datatype Sketch = Sketch(k: Shape, t: Jumps, f: Jumps, held: bool, clean: bool)

  function Merge(a: Jumps, b: Jumps): Jumps {
    if a == Valued || b == Valued then Valued else if a == Bare || b == Bare then Bare else NoJumps
  }

  function Plainly(k: Shape, held: bool, clean: bool): Sketch { Sketch(k, NoJumps, NoJumps, held, clean) }

  predicate NoExits(s: Sketch) { s.t == NoJumps && s.f == NoJumps }

  predicate Constant(k: Shape) { k.SNil? || k.SFalse? || k.STrue? || k.SStr? || k.SNum? }

  predicate Numeral(s: Sketch) { s.k.SNum? && NoExits(s) }

  /** A variable is read, which takes the held jumps. */
  function Read(s: Sketch): Sketch {
    if s.k == SVar then s.(k := SCode, held := false) else s
  }

  /** Only a local is in a register without code. */
  predicate RegHeld(s: Sketch) { s.k == SLocal && NoExits(s) && s.held }

  /** Only a local or a constant is an operand without code. */
  predicate OperandHeld(s: Sketch) { (s.k == SLocal || Constant(s.k)) && NoExits(s) && s.held }

  function ExitAs(s: Sketch, sense: bool): Jumps { if sense then s.f else s.t }

  function StayAs(s: Sketch, sense: bool): Jumps { if sense then s.t else s.f }

  predicate KnownAs(k: Shape, sense: bool) {
    if sense then k.SStr? || k.SNum? || k == STrue else k == SNil || k == SFalse
  }

  /** The list of the jump that is coded to leave if the truth is not `sense`. */
  function Leaving(k: Shape, sense: bool): Jumps {
    if KnownAs(k, sense) then NoJumps
    else if k == (if sense then SFalse else STrue) || k == STest || k == SNot then Bare
    else Valued
  }

  /** After the left operand of and/or: the jumps that stay are held, with those from before it if
      nothing was coded. */
  function Branched(s: Sketch, sense: bool): Sketch {
    var d := Read(s);
    var exit := Merge(ExitAs(d, sense), Leaving(d.k, sense));
    var always := d.k == if sense then SFalse else STrue;
    Sketch(d.k, if sense then NoJumps else exit, if sense then exit else NoJumps,
           (KnownAs(d.k, sense) && d.held) || StayAs(d, sense) == Valued, d.clean && !(always && d.held))
  }

  function Strip(j: Jumps): Jumps { if j == Valued then Bare else j }

  function Negated(s: Sketch): Sketch {
    var d := Read(s);
    var k := if KnownAs(d.k, false) then STrue else if KnownAs(d.k, true) then SFalse
             else if d.k == STest then STest else SNot;
    Sketch(k, Strip(d.f), Strip(d.t), Constant(d.k) && d.held, d.clean)
  }

  /** An expression, when `held` says whether a jump that carries a value is held where it begins. */
  function Analyse(p: Prims, x: Expr, held: bool): Sketch
    decreases x
  {
    match x
    case ENil => Plainly(SNil, held, true)
    case ETrue => Plainly(STrue, held, true)
    case EFalse => Plainly(SFalse, held, true)
    case ENum(n) => Plainly(SNum(n), held, true)
    case EStr(_) => Plainly(SStr, held, true)
    case ELocal(_) => Plainly(SLocal, held, true)
    case EUpval(_) => Plainly(SVar, held, true)
    case EGlobal(_) => Plainly(SVar, held, true)
    case EIndex(t, key) =>
      var a := Analyse(p, t, held);
      var b := Analyse(p, key, RegHeld(a));
      Plainly(SVar, OperandHeld(b), a.clean && b.clean)
    case EParen(y) => Read(Analyse(p, y, held))
    case EUn(op, y) => UnSketch(p, op, Analyse(p, y, held))
    case EBin(op, l, r) =>
      var a := BeforeRight(op, Analyse(p, l, held));
      BinSketch(p, op, a, Analyse(p, r, a.held))
  }

  function UnSketch(p: Prims, op: UnOp, s: Sketch): Sketch {
    match op
    case Minus => if Numeral(s) then s.(k := SNum(p.neg(s.k.n))) else Plainly(SCode, false, s.clean)
    case Not => Negated(s)
    case Len => Plainly(SCode, false, s.clean)
  }

  function BeforeRight(op: BinOp, s: Sketch): Sketch {
    match op
    case AndOp => Branched(s, true)
    case OrOp => Branched(s, false)
    case ConcatOp => s.(held := false)
    case _ => s.(held := OperandHeld(s))
  }

  function BinSketch(p: Prims, op: BinOp, a: Sketch, b: Sketch): Sketch {
    var clean := a.clean && b.clean;
    match op
    case AndOp => Read(b).(f := Merge(b.f, a.f), clean := clean)
    case OrOp => Read(b).(t := Merge(b.t, a.t), clean := clean)
    case ConcatOp => Plainly(SCode, false, clean)
    case ArithOp(op) =>
      if Numeral(a) && Numeral(b) && Folded(p, op, a.k.n, b.k.n).Some?
      then Plainly(SNum(Folded(p, op, a.k.n, b.k.n).value), b.held, clean)
      else Plainly(SCode, false, clean)
    case _ => Plainly(STest, false, clean)
  }

  /** No always-taken jump of the function `return x` meets a jump that carries a value. */
  predicate LosesNothing(p: Prims, x: Expr) { Analyse(p, x, false).clean }

  // ---------- descriptors that fit ----------

  predicate Fits(code: seq<Instr>, nactvar: int, k: Kind, s: Shape) {
    match s
    case SNil => k == VNil
    case SFalse => k == VFalse
    case STrue => k == VTrue
    case SStr => k.VK?
    case SNum(n) => k == VKNum(n)
    case SLocal => k.VLocal? || (k.VNonReloc? && k.info < nactvar)
    case SVar => k.VUpval? || k.VGlobal? || k.VIndexed?
    case STest => k.VJmp?
    case SNot => k.VReloc? && |code| > 0 && code[|code| - 1].INot?
    case SCode => k.VReloc? && |code| > 0 && !code[|code| - 1].INot?
  }

  predicate ListFits(code: seq<Instr>, list: seq<int>, j: Jumps) {
    match j
    case NoJumps => list == []
    case Bare => list != [] && !AnyCarries(code, list)
    case Valued => AnyCarries(code, list)
  }

  /** What is held may be less than foreseen, unless `exact`. */
  predicate HeldFits(fs: FS, held: bool, exact: bool) {
    && (AnyCarries(fs.code, fs.jpc) ==> held)
    && (exact ==> held == AnyCarries(fs.code, fs.jpc))
  }

  predicate SketchFits(fs: FS, e: Exp, s: Sketch, exact: bool) {
    && Fits(fs.code, fs.nactvar, e.k, s.k) && ListFits(fs.code, e.t, s.t) && ListFits(fs.code, e.f, s.f)
    && HeldFits(fs, s.held, exact)
  }

  /** All constants of the function fit in an operand. */
  predicate Few(k: seq<Value>) { |k| <= MAXINDEXRK }

  // ---------- nothing is held any more ----------

  /** The jumps of the list carry values as before. */
  predicate Same(c1: seq<Instr>, c2: seq<Instr>, list: seq<int>) {
    forall n | n in list :: Carries(c1, n) == Carries(c2, n)
  }

  lemma SameList(c1: seq<Instr>, c2: seq<Instr>, list: seq<int>, j: Jumps)
    requires Same(c1, c2, list) && ListFits(c1, list, j)
    ensures ListFits(c2, list, j)
  {}

  lemma CodeSame(fs: FS, i: Instr, list: seq<int>)
    requires WF(fs) && ListOK(fs, list)
    ensures Same(fs.code, Code(fs, i).code, list)
  {
    DischargeOK(fs);
  }

  lemma LastNoTest(fs: FS)
    requires WF(fs)
    ensures !Carries(fs.code, |fs.code|)
  {
    if |fs.code| > 0 { assert InstrOK(fs.code, fs.lasttarget, |fs.code| - 1); }
  }

  /** Closing the lists holds at most the jump over the LOADBOOL pair. */
  lemma CloseHeld(fs: FS, isJmp: bool, t: seq<int>, f: seq<int>, reg: int)
    requires WF(fs) && (isJmp ==> fs.jpc == []) && CloseLists(fs, isJmp, t, f, reg).ok
    requires !AnyCarries(fs.code, fs.jpc) && (t != [] || f != [] ==> fs.jpc == [])
    ensures var g := CloseLists(fs, isJmp, t, f, reg); !AnyCarries(g.code, g.jpc)
  {
    if t != [] || f != [] {
      LastNoTest(fs);
      CloseState(fs, isJmp, t, f, reg);
      ClosedTest(fs.code, Tail(Need(fs, t, f), isJmp, reg), t, f, reg, Need(fs, t, f), |fs.code|);
    }
  }

  lemma ClosedTest(c1: seq<Instr>, tail: seq<Instr>, t: seq<int>, f: seq<int>, reg: int, need: bool, n: int)
    requires 0 <= n <= |c1| && !Carries(c1, n)
    ensures !Carries(Closed(c1, tail, t, f, reg, need), n)
  {
    if n > 0 {
      var final := |c1| + |tail|;
      var d := Patch(c1 + tail, f, final, reg, if need then final - 2 else NO_JUMP);
      assert d[n - 1] == PatchInstr(c1 + tail, f, final, reg, if need then final - 2 else NO_JUMP, n - 1);
    }
  }

  // ---------- registers and operands ----------

  /** The state after luaK_dischargevars fits the sketch. */
  lemma ReadFits(c: Ctx, fs0: FS, fs: FS, e: Exp, x: Expr, s: Sketch, exact: bool)
    requires Rep(c, fs0, fs, e, x) && SketchFits(fs, e, s, exact) && DischargeVars(fs, e).fs.ok
    ensures var d := DischargeVars(fs, e); SketchFits(d.fs, d.e, Read(s), exact)
  {
    ListsOK(c, fs0, fs, e, x);
    hide Rep, WF, ListOK;
    if s.k == SVar { ReadVar(fs, e, s, exact); }
  }

  lemma ReadVar(fs: FS, e: Exp, s: Sketch, exact: bool)
    requires SketchFits(fs, e, s, exact) && s.k == SVar
    requires WF(fs) && ListOK(fs, e.t) && ListOK(fs, e.f)
    ensures var d := DischargeVars(fs, e); SketchFits(d.fs, d.e, Read(s), exact)
  {
    var i := match e.k
      case VUpval(u) => IGetUpval(0, u)
      case VGlobal(g) => IGetGlobal(0, g)
      case VIndexed(t, aux) => IGetTable(0, t, aux)
      case _ => INot(0, 0);
    ReadShape(fs, e, i);
    CodeSame(fs, i, e.t);
    CodeSame(fs, i, e.f);
    hide DischargeVars, Code, WF, ListOK, Carries, Same, ListFits, AnyCarries, SketchFits, Read;
    ReadEnd(fs, e, DischargeVars(fs, e), s, exact);
  }

  lemma ReadEnd(fs: FS, e: Exp, d: FE, s: Sketch, exact: bool)
    requires SketchFits(fs, e, s, exact) && s.k == SVar
    requires Same(fs.code, d.fs.code, e.t) && Same(fs.code, d.fs.code, e.f)
    requires d.fs.jpc == [] && d.e.t == e.t && d.e.f == e.f && d.e.k.VReloc?
    requires |d.fs.code| > 0 && !d.fs.code[|d.fs.code| - 1].INot?
    ensures SketchFits(d.fs, d.e, Read(s), exact)
  {
    SameList(fs.code, d.fs.code, e.t, s.t);
    SameList(fs.code, d.fs.code, e.f, s.f);
    hide Same, ListFits, Carries;
  }

  lemma ReadShape(fs: FS, e: Exp, i: Instr)
    requires match e.k
             case VUpval(u) => i == IGetUpval(0, u)
             case VGlobal(g) => i == IGetGlobal(0, g)
             case VIndexed(t, aux) => i == IGetTable(0, t, aux)
             case _ => false
    ensures var d := DischargeVars(fs, e);
            && d.fs.code == Code(fs, i).code && d.fs.jpc == [] && d.e == e.(k := VReloc(|fs.code|))
            && |d.fs.code| == |fs.code| + 1 && d.fs.code[|fs.code|] == i
  {}

  lemma ListsOK(c: Ctx, fs0: FS, fs: FS, e: Exp, x: Expr)
    requires Rep(c, fs0, fs, e, x)
    ensures WF(fs) && KindOK(fs, e.k) && ListOK(fs, e.t) && ListOK(fs, e.f)
  {}

  lemma ValueHeld(fs: FS, k: Kind, reg: int)
    requires WF(fs) && KindOK(fs, k) && Discharged(k) && !k.VJmp? && k != VNonReloc(reg)
    ensures DischargeValue(fs, k, reg).jpc == []
  {}

  /** The state in which exp2nextreg puts a value into register b. */
  lemma NextRegState(c: Ctx, fs0: FS, fs: FS, e: Exp, x: Expr)
    requires Rep(c, fs0, fs, e, x) && Discharged(e.k) && Exp2NextReg(fs, e).fs.ok
    ensures var b := fs0.freereg; var f := ReserveRegs(fs.(freereg := b), 1);
            && Exp2NextReg(fs, e) == Exp2Reg(f, e, b)
            && Bumped(fs, f) && WF(f) && f.k == fs.k && KindOK(f, e.k) && fs.nactvar <= b < MAXSTACK
  {
    ListsOK(c, fs0, fs, e, x);
    OwnRegs(c, fs0, fs, e, x);
    hide Rep, WF, RegsOK, Exp2Reg, ListOK, FreeExp;
    FreeExpTop(fs, e, fs0.freereg);
    NextRegShape(fs, e, fs0.freereg);
    ReserveOK(fs, fs0.freereg);
  }

  lemma OwnRegs(c: Ctx, fs0: FS, fs: FS, e: Exp, x: Expr)
    requires Rep(c, fs0, fs, e, x)
    ensures RegsOK(fs, e.k, fs0.freereg) && WF(fs.(freereg := fs0.freereg)) && fs.nactvar <= fs0.freereg
  {}

  lemma NextRegShape(fs: FS, e: Exp, b: int)
    requires Discharged(e.k) && FreeExp(fs, e) == fs.(freereg := b)
    ensures var f := ReserveRegs(fs.(freereg := b), 1);
            Exp2NextReg(fs, e) == Exp2Reg(f, e, b) && (Exp2Reg(f, e, b).fs.ok ==> f.ok)
  {
    hide Exp2Reg, FreeExp;
  }

  lemma JmpHeld(f: FS, e: Exp, b: int)
    requires WF(f) && KindOK(f, e.k) && e.k.VJmp? && Exp2Reg(f, e, b).fs.ok
    ensures var r := Exp2Reg(f, e, b); !AnyCarries(r.fs.code, r.fs.jpc)
  {
    hide CloseLists, InstrOK;
    CloseHeld(Join(f, e.t, [e.k.info]).fs, true, e.t + [e.k.info], e.f, b);
  }

  lemma NextRegHeld(c: Ctx, fs0: FS, fs: FS, e: Exp, x: Expr)
    requires Rep(c, fs0, fs, e, x) && Discharged(e.k) && (e.k.VNonReloc? ==> e.k.info < fs.nactvar)
    requires var r := Exp2NextReg(fs, e); r.fs.ok && r.fs.k <= c.k
    ensures var r := Exp2NextReg(fs, e); !AnyCarries(r.fs.code, r.fs.jpc)
  {
    var b := fs0.freereg;
    var f := ReserveRegs(fs.(freereg := b), 1);
    NextRegState(c, fs0, fs, e, x);
    RepFacts(c, fs0, fs, e, x, -1);
    hide RepCore, WF, CloseLists, Need, KindOK, Exp2NextReg, DischargeValue, Carries, ReserveRegs, RegsOK;
    if e.k.VJmp? {
      JmpHeld(f, e, b);
    } else {
      var g := DischargeValue(f, e.k, b);
      assert Exp2Reg(f, e, b).fs == CloseLists(g, false, e.t, e.f, b);
      ValueHeld(f, e.k, b);
      DischargeValueRep(c, fs0, fs, f, e, x, b, -1);
      RepFacts(c, fs0, g, e.(k := VNonReloc(b)), x, -1);
      CloseHeld(g, false, e.t, e.f, b);
    }
  }

  lemma AnyRegHeld(c: Ctx, fs0: FS, fs: FS, e: Exp, x: Expr, s: Sketch, exact: bool)
    requires Rep(c, fs0, fs, e, x) && SketchFits(fs, e, s, exact)
    requires var r := Exp2AnyReg(fs, e); r.fs.ok && r.fs.k <= c.k
    ensures HeldFits(Exp2AnyReg(fs, e).fs, RegHeld(s), exact)
  {
    hide Rep, WF, Exp2NextReg, Exp2Reg, DischargeVars, SketchFits, HeldFits, AnyCarries, Read, RegHeld, Fits;
    var d := DischargeVars(fs, e);
    DischargeVarsRep(c, fs0, fs, e, x);
    ReadFits(c, fs0, fs, e, x, s, exact);
    InRegister(d, s, exact);
    if !(d.e.k.VNonReloc? && !HasJumps(d.e)) {
      NextRegHeld(c, fs0, d.fs, d.e, x);
      NoneHeld(Exp2NextReg(d.fs, d.e).fs, exact);
    }
  }

  /** A descriptor that is a register is that of a local, and nothing else keeps what is held. */
  lemma InRegister(d: FE, s: Sketch, exact: bool)
    requires SketchFits(d.fs, d.e, Read(s), exact) && Discharged(d.e.k)
    ensures d.e.k.VNonReloc? ==> d.e.k.info < d.fs.nactvar
    ensures if d.e.k.VNonReloc? && !HasJumps(d.e) then HeldFits(d.fs, RegHeld(s), exact) else !RegHeld(s)
  {}

  lemma NoneHeld(fs: FS, exact: bool)
    requires !AnyCarries(fs.code, fs.jpc)
    ensures HeldFits(fs, false, exact)
  {}

  lemma ExitsFit(fs: FS, e: Exp, s: Sketch, exact: bool)
    requires SketchFits(fs, e, s, exact)
    ensures HasJumps(e) <==> !NoExits(s)
  {}

  /** luaK_exp2val leaves a local or a constant as it is; anything else has taken what was held. */
  lemma ValFits(c: Ctx, fs0: FS, fs: FS, e: Exp, x: Expr, s: Sketch, exact: bool)
    requires Rep(c, fs0, fs, e, x) && SketchFits(fs, e, s, exact)
    requires var r := Exp2Val(fs, e); r.fs.ok && r.fs.k <= c.k
    ensures var r := Exp2Val(fs, e);
            if NoExits(s) then SketchFits(r.fs, r.e, Read(s), exact)
            else r.e.k.VNonReloc? && !AnyCarries(r.fs.code, r.fs.jpc)
  {
    ExitsFit(fs, e, s, exact);
    hide Rep, DischargeVars, Exp2AnyReg, Fits, AnyCarries;
    if HasJumps(e) {
      AnyRegHeld(c, fs0, fs, e, x, s, exact);
      Exp2AnyRegRep(c, fs0, fs, e, x);
    } else {
      ReadFits(c, fs0, fs, e, x, s, exact);
    }
  }

  lemma OperandFits(c: Ctx, fs0: FS, fs: FS, e: Exp, x: Expr, s: Sketch)
    requires Rep(c, fs0, fs, e, x) && SketchFits(fs, e, s, Few(c.k))
    requires var r := Exp2RK(fs, e); r.fs.ok && r.fs.k <= c.k
    ensures HeldFits(Exp2RK(fs, e).fs, OperandHeld(s), Few(c.k))
  {
    hide Rep, Exp2Val, Exp2RK, Exp2AnyReg, WF, SketchFits, HeldFits, Entry, Few, OperandHeld, RegHeld;
    var d := Exp2Val(fs, e);
    RKShape(fs, e);
    ValFits(c, fs0, fs, e, x, s, Few(c.k));
    Exp2ValRep(c, fs0, fs, e, x);
    RepFacts(c, fs0, d.fs, d.e, x, -1);
    if !Small(d) {
      if NoExits(s) {
        AnyRegHeld(c, fs0, d.fs, d.e, x, Read(s), Few(c.k));
      } else {
        AnyRegIs(d.fs, d.e);
      }
    }
    OperandEnd(d, Exp2RK(fs, e).fs, s, c.k);
  }

  lemma OperandEnd(d: FE, r: FS, s: Sketch, k: seq<Value>)
    requires if NoExits(s) then SketchFits(d.fs, d.e, Read(s), Few(k))
             else d.e.k.VNonReloc? && !AnyCarries(d.fs.code, d.fs.jpc)
    requires d.fs.k <= k && (d.e.k.VK? ==> 0 <= d.e.k.info < |d.fs.k|)
    requires if Small(d) || !NoExits(s) then r.code == d.fs.code && r.jpc == d.fs.jpc
             else HeldFits(r, RegHeld(Read(s)), Few(k))
    ensures HeldFits(r, OperandHeld(s), Few(k))
  {
    hide AnyCarries;
    if NoExits(s) && !Small(d) { assert Few(k) ==> !Constant(s.k); }
  }

  /** luaK_exp2RK finds or adds a constant that fits. */
  predicate Small(d: FE) {
    (ConstOf(d.e.k).Some? && |d.fs.k| <= MAXINDEXRK) || (d.e.k.VK? && d.e.k.info <= MAXINDEXRK)
  }

  /** What luaK_exp2RK leaves of the code. */
  lemma RKShape(fs: FS, e: Exp)
    ensures var d := Exp2Val(fs, e); var r := Exp2RK(fs, e).fs; d.fs.k <= r.k && (r.ok ==> d.fs.ok)
    ensures var d := Exp2Val(fs, e); var r := Exp2RK(fs, e).fs;
            if Small(d) then r.code == d.fs.code && r.jpc == d.fs.jpc
            else Exp2AnyReg(d.fs, d.e).fs == r
  {
    hide Exp2Val, Exp2AnyReg;
  }

  lemma AnyRegIs(fs: FS, e: Exp)
    requires e.k.VNonReloc? && !HasJumps(e)
    ensures Exp2AnyReg(fs, e) == FE(fs, e)
  {}

  // ---------- conditions ----------

  lemma CondJumpSame(fs: FS, i: Instr, list: seq<int>)
    requires WF(fs) && IsTest(i) && ListOK(fs, list)
    ensures var j := CondJump(fs, i);
            && Same(fs.code, j.fs.code, list) && j.list == [|fs.code| + 1] && j.fs.jpc == []
            && (Carries(j.fs.code, |fs.code| + 1) <==> i.ITestSet?)
            && j.fs.clean == fs.clean && |j.fs.code| == |fs.code| + 2 && j.fs.nactvar == fs.nactvar
  {
    var d := Code(fs, i);
    CodeSame(fs, i, list);
    CodeUnheld(d.(jpc := []), IJmp(NO_JUMP));
    assert CondJump(fs, i).fs.code == d.code + [IJmp(NO_JUMP)];
  }

  lemma NumberSame(fs: FS, n: Literal, reg: int, list: seq<int>)
    requires WF(fs) && ListOK(fs, list)
    ensures Same(fs.code, DischargeValue(fs, VKNum(n), reg).code, list)
  {
    var i := ILoadK(reg, AddK(fs, Num(n)).i);
    CodeSame(fs, i, list);
    assert DischargeValue(fs, VKNum(n), reg).code == Code(fs, i).code;
  }

  lemma ValueSame(fs: FS, k: Kind, reg: int, list: seq<int>)
    requires WF(fs) && KindOK(fs, k) && ListOK(fs, list)
    ensures Same(fs.code, DischargeValue(fs, k, reg).code, list)
  {
    hide Code, AnyCarries;
    match k
    case VNil => CodeSame(fs, ILoadNil(reg, reg), list);
    case VFalse => CodeSame(fs, ILoadBool(reg, false, false), list);
    case VTrue => CodeSame(fs, ILoadBool(reg, true, false), list);
    case VK(i) => CodeSame(fs, ILoadK(reg, i), list);
    case VKNum(n) => NumberSame(fs, n, reg, list);
    case VNonReloc(r) => CodeSame(fs, IMove(reg, r), list);
    case _ =>
  }

  /** What a decision leaves: the lists of the descriptor carry what they did, and the new one carries
      a value exactly if it belongs to a TESTSET. */
  ghost predicate Decided(fs: FS, e: Exp, k: Shape, sense: bool, j: FL) {
    var held := AnyCarries(fs.code, fs.jpc);
    && Same(fs.code, j.fs.code, e.t) && Same(fs.code, j.fs.code, e.f)
    && j.fs.clean == (fs.clean && !(k == (if sense then SFalse else STrue) && held))
    && (j.fs.clean ==> ListFits(j.fs.code, j.list, Leaving(k, sense)))
    && AnyCarries(j.fs.code, j.fs.jpc) == (KnownAs(k, sense) && held)
  }

  lemma AlwaysDecided(fs: FS, e: Exp, k: Shape, sense: bool)
    requires WF(fs) && ListOK(fs, e.t) && ListOK(fs, e.f) && k == if sense then SFalse else STrue
    ensures Decided(fs, e, k, sense, AlwaysJump(fs))
  {
    LastNoTest(fs);
    CodeUnheld(fs.(jpc := []), IJmp(NO_JUMP));
    var j := AlwaysJump(fs);
    assert j.fs.code == fs.code + [IJmp(NO_JUMP)] && j.list == [|fs.code|] + fs.jpc;
  }

  lemma JmpDecided(fs: FS, e: Exp, sense: bool)
    requires WF(fs) && KindOK(fs, e.k) && e.k.VJmp?
    ensures Decided(fs, e, STest, sense, FL(if sense then InvertJump(fs, e.k.info) else fs, [e.k.info]))
  {
    assert e.k.info in [e.k.info];
  }

  lemma TestDecided(fs: FS, f: FS, e: Exp, k: Shape, i: Instr, sense: bool)
    requires WF(f) && ListOK(f, e.t) && ListOK(f, e.f) && Same(fs.code, f.code, e.t) && Same(fs.code, f.code, e.f)
    requires if i.ITest? then k == SNot
             else i.ITestSet? && !KnownAs(k, sense) && k != STest && k != SNot && k != if sense then SFalse else STrue
    requires f.clean == fs.clean
    ensures Decided(fs, e, k, sense, CondJump(f, i))
  {
    CondJumpSame(f, i, e.t);
    CondJumpSame(f, i, e.f);
    var n := |f.code| + 1;
    assert n in [n];
    hide CondJump, WF, ListOK, Carries;
  }

  lemma NotDecided(fs: FS, e: Exp, i: Instr, sense: bool)
    requires WF(fs) && ExpOK(fs, e) && e.k.VReloc? && i.ITest?
    ensures Decided(fs, e, SNot, sense, CondJump(fs.(code := fs.code[..|fs.code| - 1]), i))
  {
    var f := fs.(code := fs.code[..|fs.code| - 1]);
    RelocBodyWF(fs, e);
    assert f == Body(fs, e);
    TestDecided(fs, f, e, SNot, i, sense);
  }

  lemma ValueDecided(c: Ctx, fs0: FS, fs: FS, e: Exp, x: Expr, k: Shape, sense: bool)
    requires Rep(c, fs0, fs, e, x) && Discharged(e.k) && !e.k.VJmp?
    requires !KnownAs(k, sense) && k != STest && k != SNot && k != if sense then SFalse else STrue
    requires var d := Discharge2AnyReg(fs, e); d.fs.ok && d.fs.k <= c.k
    ensures var d := Discharge2AnyReg(fs, e);
            Decided(fs, e, k, sense, CondJump(FreeExp(d.fs, d.e), ITestSet(NO_REG, d.e.k.info, !sense)))
  {
    var d := Discharge2AnyReg(fs, e);
    Discharge2AnyRegRep(c, fs0, fs, e, x);
    ListsOK(c, fs0, fs, e, x);
    ListsOK(c, fs0, d.fs, d.e, x);
    AnyRegSame(fs, e);
    var f := FreeExp(d.fs, d.e);
    FreeWF(c, fs0, d.fs, d.e, x);
    hide Rep, Discharge2AnyReg, WF, FreeExp, CondJump, Decided;
    TestDecided(fs, f, e, k, ITestSet(NO_REG, d.e.k.info, !sense), sense);
  }

  lemma AnyRegSame(fs: FS, e: Exp)
    requires WF(fs) && KindOK(fs, e.k) && Discharged(e.k) && !e.k.VJmp? && ListOK(fs, e.t) && ListOK(fs, e.f)
    requires Discharge2AnyReg(fs, e).fs.ok
    ensures var d := Discharge2AnyReg(fs, e); Same(fs.code, d.fs.code, e.t) && Same(fs.code, d.fs.code, e.f)
  {
    if !e.k.VNonReloc? {
      var f := ReserveRegs(fs, 1);
      assert WF(f) && KindOK(f, e.k) && ListOK(f, e.t) && ListOK(f, e.f);
      hide DischargeValue, ListOK, WF, KindOK, Same;
      ValueSame(f, e.k, f.freereg - 1, e.t);
      ValueSame(f, e.k, f.freereg - 1, e.f);
    }
  }

  lemma FreeWF(c: Ctx, fs0: FS, fs: FS, e: Exp, x: Expr)
    requires Rep(c, fs0, fs, e, x) && Discharged(e.k)
    ensures var f := FreeExp(fs, e); WF(f) && f == fs.(freereg := fs0.freereg)
  {
    FreeExpTop(fs, e, fs0.freereg);
  }

  lemma DecideFits(c: Ctx, fs0: FS, fs: FS, e: Exp, x: Expr, s: Sketch, sense: bool)
    requires Rep(c, fs0, fs, e, x) && Discharged(e.k) && Fits(fs.code, fs.nactvar, e.k, s.k)
    requires var j := Decide(fs, e, sense); j.fs.ok && j.fs.k <= c.k
    ensures Decided(fs, e, s.k, sense, Decide(fs, e, sense))
  {
    ListsOK(c, fs0, fs, e, x);
    hide Rep, WF, ListOK, Decided, CondJump, AlwaysJump, InvertJump, Discharge2AnyReg, FreeExp;
    if ConstantIs(e.k, sense) {
      ConstDecided(fs, e, s.k, sense);
    } else if e.k == (if sense then VFalse else VTrue) {
      AlwaysDecided(fs, e, s.k, sense);
    } else if e.k.VJmp? {
      JmpDecided(fs, e, sense);
    } else {
      JumpOnFits(c, fs0, fs, e, x, s.k, sense);
    }
  }

  lemma ConstDecided(fs: FS, e: Exp, k: Shape, sense: bool)
    requires KnownAs(k, sense)
    ensures Decided(fs, e, k, sense, FL(fs, []))
  {}

  lemma JumpOnFits(c: Ctx, fs0: FS, fs: FS, e: Exp, x: Expr, k: Shape, sense: bool)
    requires Rep(c, fs0, fs, e, x) && Discharged(e.k) && !e.k.VJmp? && Fits(fs.code, fs.nactvar, e.k, k)
    requires !ConstantIs(e.k, sense) && e.k != if sense then VFalse else VTrue
    requires var j := JumpOnCond(fs, e, !sense); j.fs.ok && j.fs.k <= c.k
    ensures Decided(fs, e, k, sense, JumpOnCond(fs, e, !sense))
  {
    FitsTest(fs, e.k, k, sense);
    JumpShape(fs, e, sense);
    hide Rep, Decided, JumpOnCond, CondJump, FreeExp, Discharge2AnyReg, ExpOK, WF, Fits, KnownAs;
    if k == SNot {
      RepShape(c, fs0, fs, e, x);
      NotDecided(fs, e, ITest(fs.code[|fs.code| - 1].b, sense), sense);
    } else {
      ValueDecided(c, fs0, fs, e, x, k, sense);
    }
  }

  lemma JumpShape(fs: FS, e: Exp, sense: bool)
    requires Discharged(e.k) && !e.k.VJmp?
    ensures var j := JumpOnCond(fs, e, !sense); var d := Discharge2AnyReg(fs, e);
            if e.k.VReloc? && |fs.code| > 0 && fs.code[|fs.code| - 1].INot?
            then j == CondJump(fs.(code := fs.code[..|fs.code| - 1]), ITest(fs.code[|fs.code| - 1].b, sense))
            else j == CondJump(FreeExp(d.fs, d.e), ITestSet(NO_REG, d.e.k.info, !sense))
                 && d.fs.k <= j.fs.k && (j.fs.ok ==> d.fs.ok)
  {
    hide CondJump, FreeExp, DischargeValue;
  }

  lemma RepShape(c: Ctx, fs0: FS, fs: FS, e: Exp, x: Expr)
    requires Rep(c, fs0, fs, e, x)
    ensures WF(fs) && ExpOK(fs, e)
  {}

  lemma FitsTest(fs: FS, k: Kind, s: Shape, sense: bool)
    requires Discharged(k) && !k.VJmp? && Fits(fs.code, fs.nactvar, k, s)
    requires !ConstantIs(k, sense) && k != if sense then VFalse else VTrue
    ensures s == SNot <==> k.VReloc? && |fs.code| > 0 && fs.code[|fs.code| - 1].INot?
    ensures !KnownAs(s, sense) && s != STest && s != if sense then SFalse else STrue
  {}

  /** The sketch of the state in which the right operand of and/or begins. */
  predicate ExitFits(fs: FS, exit: seq<int>, g: Sketch, sense: bool, exact: bool) {
    ListFits(fs.code, exit, ExitAs(g, sense)) && HeldFits(fs, g.held, exact)
  }

  /** While the sketch is clean so is generation, and the state fits; if constants are few, generation
      is clean only while the sketch is. */
  predicate Follows(clean: bool, s: Sketch, fits: bool, exact: bool) {
    (s.clean ==> clean && fits) && (exact && !s.clean ==> !clean)
  }

  lemma JoinFits(code: seq<Instr>, l1: seq<int>, j1: Jumps, l2: seq<int>, j2: Jumps)
    requires ListFits(code, l1, j1) && ListFits(code, l2, j2)
    ensures ListFits(code, l1 + l2, Merge(j1, j2))
  {
    assert forall n :: n in l1 + l2 <==> n in l1 || n in l2;
  }

  lemma HoldFits(fs: FS, fs': FS, stay: seq<int>, j: Jumps)
    requires fs'.code == fs.code && fs'.jpc == fs.jpc + stay && ListFits(fs.code, stay, j)
    ensures AnyCarries(fs'.code, fs'.jpc) <==> AnyCarries(fs.code, fs.jpc) || j == Valued
  {
    assert forall n :: n in fs'.jpc <==> n in fs.jpc || n in stay;
  }

  lemma BranchFits(c: Ctx, fs0: FS, fs: FS, e: Exp, x: Expr, s: Sketch, sense: bool)
    requires Rep(c, fs0, fs, e, x) && fs.clean && s.clean && SketchFits(fs, e, s, Few(c.k))
    requires var g := GoIf(fs, e, sense); g.fs.ok && g.fs.k <= c.k
    ensures var g := GoIf(fs, e, sense); var b := Branched(s, sense);
            Follows(g.fs.clean, b, ExitFits(g.fs, ExitOf(g.e, sense), b, sense, Few(c.k)), Few(c.k))
  {
    var d := DischargeVars(fs, e);
    var j := Decide(d.fs, d.e, sense);
    GoIfShape(fs, e, sense);
    hide Rep, Decide, DischargeVars, GoIf, SketchFits, Branched, Few, Decided, Follows, ExitFits;
    DischargeVarsRep(c, fs0, fs, e, x);
    ReadFits(c, fs0, fs, e, x, s, Few(c.k));
    FitsOf(d.fs, d.e, Read(s), Few(c.k));
    DecideFits(c, fs0, d.fs, d.e, x, Read(s), sense);
    BranchEnd(d, j, s, sense, Few(c.k));
  }

  lemma FitsOf(fs: FS, e: Exp, s: Sketch, exact: bool)
    requires SketchFits(fs, e, s, exact)
    ensures Fits(fs.code, fs.nactvar, e.k, s.k)
  {}

  lemma BranchEnd(d: FE, j: FL, s: Sketch, sense: bool, exact: bool)
    requires SketchFits(d.fs, d.e, Read(s), exact) && d.fs.clean && s.clean
    requires Decided(d.fs, d.e, Read(s).k, sense, j)
    ensures var l := Join(j.fs, ExitOf(d.e, sense), j.list); var fs := PatchToHere(l.fs, StayOf(d.e, sense));
            var b := Branched(s, sense);
            Follows(fs.clean, b, ExitFits(fs, l.list, b, sense, exact), exact)
  {
    var r := Read(s);
    hide AnyCarries, Carries, Fits;
    SameList(d.fs.code, j.fs.code, d.e.t, r.t);
    SameList(d.fs.code, j.fs.code, d.e.f, r.f);
    hide Same;
    var l := Join(j.fs, ExitOf(d.e, sense), j.list);
    var fs := PatchToHere(l.fs, StayOf(d.e, sense));
    if j.fs.clean {
      JoinFits(j.fs.code, ExitOf(d.e, sense), ExitAs(r, sense), j.list, Leaving(r.k, sense));
      HoldFits(j.fs, fs, StayOf(d.e, sense), StayAs(r, sense));
    }
  }
}
