/** The frame of the emitted function: every register that its instructions name lies below its stack size, and
    generation fails only at the limits of the source. */
module LuaStack {
  import opened Wrappers
  import opened LuaValues
  import opened LuaLimits
  import opened LuaOpcodes
  import opened LuaGen
  import opened LuaInv
  import opened LuaToReg
  import opened LuaCorrect
  import LuaProgram
  import LuaRegisters

  // ---------- registers of instructions ----------

  /** r is a register of a frame of m; where nothing is known of the assertions of the source, it may be negative. */
  predicate Reg(r: int, m: int, sure: bool) { r < m && (sure ==> 0 <= r) }

  predicate Operand(rk: int, m: int, sure: bool) { IsK(rk) || Reg(rk, m, sure) }

  /** Every register that the instruction names is one of the frame. */
  predicate InstrBelow(i: Instr, m: int, sure: bool) {
    match i
    case IMove(a, b) => Reg(a, m, sure) && Reg(b, m, sure)
    case ILoadK(a, _) => Reg(a, m, sure)
    case ILoadBool(a, _, _) => Reg(a, m, sure)
    case ILoadNil(a, b) => Reg(a, m, sure) && Reg(b, m, sure)
    case IGetUpval(a, _) => Reg(a, m, sure)
    case IGetGlobal(a, _) => Reg(a, m, sure)
    case IGetTable(a, b, c) => Reg(a, m, sure) && Reg(b, m, sure) && Operand(c, m, sure)
    case IArith(_, a, b, c) => Reg(a, m, sure) && Operand(b, m, sure) && Operand(c, m, sure)
    case IUnm(a, b) => Reg(a, m, sure) && Reg(b, m, sure)
    case INot(a, b) => Reg(a, m, sure) && Reg(b, m, sure)
    case ILen(a, b) => Reg(a, m, sure) && Reg(b, m, sure)
    case IConcat(a, b, c) => Reg(a, m, sure) && Reg(b, m, sure) && Reg(c, m, sure)
    case IJmp(_) => true
    case ICmp(_, _, b, c) => Operand(b, m, sure) && Operand(c, m, sure)
    case ITest(a, _) => Reg(a, m, sure)
    case ITestSet(a, b, _) => Reg(a, m, sure) && Reg(b, m, sure)
    case IReturn(a, _) => Reg(a, m, sure)
  }

  /** A TESTSET whose register is still to be filled in, with its jump. */
  predicate Open(code: seq<Instr>, i: int)
    requires 0 <= i < |code|
  {
    code[i].ITestSet? && code[i].a == NO_REG && Pending(code, i + 1)
  }

  predicate Fits(code: seq<Instr>, i: int, m: int, sure: bool)
    requires 0 <= i < |code|
  {
    if Open(code, i) then Reg(code[i].b, m, sure) else InstrBelow(code[i], m, sure)
  }

  predicate CodeFits(code: seq<Instr>, m: int, sure: bool) {
    forall i | 0 <= i < |code| :: Fits(code, i, m, sure)
  }

  predicate Nodes(list: seq<int>, size: int) {
    forall n | n in list :: 0 <= n < size
  }

  // ---------- states ----------

  /** No limit is reached: 250 registers, 262143 constants, and code whose jumps all fit. */
  predicate Small(fs: FS) { fs.maxstack < 250 && |fs.k| <= 262143 && |fs.code| <= 131070 }

  /** No constant is in the table twice. */
  predicate Distinct(k: seq<Value>) {
    forall i, j | 0 <= i < j < |k| :: k[i] != k[j]
  }

  predicate Good(fs: FS) {
    && fs.freereg <= fs.maxstack && fs.nactvar <= fs.maxstack && 1 <= fs.maxstack
    && (fs.asserts ==> 0 <= fs.nactvar <= fs.freereg)
    && CodeFits(fs.code, fs.maxstack, fs.asserts) && Nodes(fs.jpc, |fs.code|)
    && (fs.ok ==> fs.maxstack < 250 && |fs.k| <= 262143)
    && Distinct(fs.k)
  }

  /** fs' comes after fs: the high mark of the stack never falls, and generation fails only at a limit. */
  predicate Next(fs: FS, fs': FS) {
    && Good(fs') && fs.maxstack <= fs'.maxstack && |fs.code| <= |fs'.code| && Grows(fs, fs')
    && (fs.ok && Small(fs') ==> fs'.ok)
  }

  predicate KindGood(fs: FS, k: Kind) {
    match k
    case VLocal(r) => Reg(r, fs.maxstack, fs.asserts)
    case VNonReloc(r) => Reg(r, fs.maxstack, fs.asserts)
    case VIndexed(t, aux) => Reg(t, fs.maxstack, fs.asserts) && Operand(aux, fs.maxstack, fs.asserts)
    case VJmp(info) => 0 <= info < |fs.code|
    case _ => true
  }

  predicate ExpGood(fs: FS, e: Exp) {
    KindGood(fs, e.k) && Nodes(e.t, |fs.code|) && Nodes(e.f, |fs.code|)
  }

  predicate NextExp(fs: FS, r: FE) { Next(fs, r.fs) && ExpGood(r.fs, r.e) }

  predicate NextList(fs: FS, r: FL) { Next(fs, r.fs) && Nodes(r.list, |r.fs.code|) }

  lemma NextTrans(f0: FS, f1: FS, f2: FS)
    requires Next(f0, f1) && Next(f1, f2)
    ensures Next(f0, f2)
  {
    hide Good;
  }

  lemma ExpStays(fs: FS, fs': FS, e: Exp)
    requires ExpGood(fs, e) && Next(fs, fs')
    ensures ExpGood(fs', e)
  {}

  // ---------- code and lists ----------

  lemma PatchFits(code: seq<Instr>, list: seq<int>, vtarget: int, reg: int, dtarget: int, m: int, sure: bool)
    requires CodeFits(code, m, sure) && (reg == NO_REG || Reg(reg, m, sure))
    ensures CodeFits(Patch(code, list, vtarget, reg, dtarget), m, sure)
  {
    var c := Patch(code, list, vtarget, reg, dtarget);
    forall i | 0 <= i < |c| ensures Fits(c, i, m, sure) {
      assert Fits(code, i, m, sure);
      if Open(code, i) { assert c[i + 1] == PatchInstr(code, list, vtarget, reg, dtarget, i + 1); }
    }
  }

  lemma PatchListNext(fs: FS, list: seq<int>, vtarget: int, reg: int, dtarget: int)
    requires Good(fs) && Nodes(list, |fs.code|) && (reg == NO_REG || Reg(reg, fs.maxstack, fs.asserts))
    requires -1 <= vtarget <= |fs.code| && -1 <= dtarget <= |fs.code|
    ensures Next(fs, PatchList(fs, list, vtarget, reg, dtarget))
  {
    PatchFits(fs.code, list, vtarget, reg, dtarget, fs.maxstack, fs.asserts);
    hide CodeFits;
  }

  lemma AppendFits(code: seq<Instr>, i: Instr, m: int, sure: bool)
    requires CodeFits(code, m, sure) && InstrBelow(i, m, sure)
    ensures CodeFits(code + [i], m, sure)
  {
    var c := code + [i];
    forall j | 0 <= j < |c| ensures Fits(c, j, m, sure) {
      if j < |code| { assert Fits(code, j, m, sure); }
    }
  }

  lemma DischargeJpcNext(fs: FS)
    requires Good(fs)
    ensures Next(fs, DischargeJpc(fs)) && |DischargeJpc(fs).code| == |fs.code|
  {
    PatchListNext(fs, fs.jpc, |fs.code|, NO_REG, |fs.code|);
    hide CodeFits;
  }

  lemma CodeNext(fs: FS, i: Instr)
    requires Good(fs) && InstrBelow(i, fs.maxstack, fs.asserts)
    ensures Next(fs, Code(fs, i)) && |Code(fs, i).code| == |fs.code| + 1
  {
    DischargeJpcNext(fs);
    var d := DischargeJpc(fs);
    AppendFits(d.code, i, d.maxstack, d.asserts);
    hide CodeFits, DischargeJpc, InstrBelow;
  }

  lemma JoinNext(fs: FS, l1: seq<int>, l2: seq<int>)
    requires Good(fs) && Nodes(l1, |fs.code|) && Nodes(l2, |fs.code|)
    ensures NextList(fs, Join(fs, l1, l2))
  {
    if l1 != [] { assert l1[|l1| - 1] in l1; }
    if l2 != [] { assert l2[0] in l2; }
    hide CodeFits;
  }

  lemma LabelNext(fs: FS)
    requires Good(fs)
    ensures Next(fs, GetLabel(fs))
  {}

  lemma ToHereNext(fs: FS, list: seq<int>)
    requires Good(fs) && Nodes(list, |fs.code|)
    ensures Next(fs, PatchToHere(fs, list))
  {
    LabelNext(fs);
    JoinNext(GetLabel(fs), fs.jpc, list);
    hide CodeFits, Join;
  }

  lemma JumpNext(fs: FS)
    requires Good(fs)
    ensures NextList(fs, Jump(fs)) && |Jump(fs).fs.code| == |fs.code| + 1
  {
    CodeNext(fs.(jpc := []), IJmp(NO_JUMP));
    var f := Code(fs.(jpc := []), IJmp(NO_JUMP));
    JoinNext(f, [|fs.code|], fs.jpc);
    hide CodeFits, Code;
  }

  /** A test and its jump. */
  lemma CondJumpNext(fs: FS, i: Instr)
    requires Good(fs) && InstrBelow(i, fs.maxstack, fs.asserts)
    ensures NextList(fs, CondJump(fs, i)) && |CondJump(fs, i).fs.code| == |fs.code| + 2
  {
    CodeNext(fs, i);
    JumpNext(Code(fs, i));
    NextTrans(fs, Code(fs, i), Jump(Code(fs, i)).fs);
    hide Good, Code, Jump;
  }

  /** The same for a TESTSET whose register is not known yet. */
  lemma TestSetJumpNext(fs: FS, b: int, cond: bool)
    requires Good(fs) && Reg(b, fs.maxstack, fs.asserts)
    ensures var i := ITestSet(NO_REG, b, cond);
            NextList(fs, CondJump(fs, i)) && |CondJump(fs, i).fs.code| == |fs.code| + 2
  {
    var i := ITestSet(NO_REG, b, cond);
    var f, g := Code(fs, i), CondJump(fs, i);
    DischargeJpcNext(fs);
    var d := DischargeJpc(fs);
    JumpCode(f);
    assert g.fs.code == d.code + [i, IJmp(NO_JUMP)];
    forall j | 0 <= j < |g.fs.code| ensures Fits(g.fs.code, j, d.maxstack, d.asserts) {
      if j < |d.code| { assert Fits(d.code, j, d.maxstack, d.asserts); }
    }
    hide Fits, DischargeJpc;
  }

  /** A jump after code that has just been coded. */
  lemma JumpCode(f: FS)
    requires f.jpc == []
    ensures Jump(f) == FL(f.(code := f.code + [IJmp(NO_JUMP)]), [|f.code|])
  {
    assert Patch(f.code, [], |f.code|, NO_REG, |f.code|) == f.code;
  }

  lemma StripFits(fs: FS, list: seq<int>)
    requires Good(fs)
    ensures Next(fs, RemoveValues(fs, list)) && |RemoveValues(fs, list).code| == |fs.code|
  {
    var c := RemoveValues(fs, list).code;
    forall i | 0 <= i < |c| ensures Fits(c, i, fs.maxstack, fs.asserts) {
      assert Fits(fs.code, i, fs.maxstack, fs.asserts);
      if Open(fs.code, i) { assert c[i + 1] == StripInstr(fs.code, list, i + 1); }
    }
  }

  lemma SetFits(code: seq<Instr>, n: int, i: Instr, m: int, sure: bool)
    requires CodeFits(code, m, sure) && InstrBelow(i, m, sure) && 0 <= n < |code|
    requires code[n].IJmp? ==> code[n] == i
    ensures CodeFits(code[n := i], m, sure)
  {
    var c := code[n := i];
    forall j | 0 <= j < |c| ensures Fits(c, j, m, sure) {
      assert Fits(code, j, m, sure);
    }
  }

  // ---------- registers and constants ----------

  lemma ReserveNext(fs: FS, n: nat)
    requires Good(fs)
    ensures Next(fs, ReserveRegs(fs, n)) && ReserveRegs(fs, n).freereg == fs.freereg + n
  {
    var r := ReserveRegs(fs, n);
    Widen(fs.code, fs.maxstack, r.maxstack, fs.asserts, r.asserts);
    hide CodeFits;
  }

  /** The high mark is the highest count so far, and no more. */
  lemma HighMark(fs: FS, n: int)
    ensures var r := ReserveRegs(fs, n);
            && r.maxstack >= fs.maxstack && r.maxstack >= r.freereg == fs.freereg + n
            && (r.maxstack == fs.maxstack || r.maxstack == r.freereg)
  {}

  lemma Widen(code: seq<Instr>, m: int, m': int, sure: bool, sure': bool)
    requires CodeFits(code, m, sure) && m <= m' && (sure' ==> sure)
    ensures CodeFits(code, m', sure')
  {
    forall i | 0 <= i < |code| ensures Fits(code, i, m', sure') { assert Fits(code, i, m, sure); }
  }

  lemma FreeRegNext(fs: FS, reg: int)
    requires Good(fs)
    ensures Next(fs, FreeReg(fs, reg)) && FreeReg(fs, reg).code == fs.code
  {
    var r := FreeReg(fs, reg);
    Widen(fs.code, fs.maxstack, r.maxstack, fs.asserts, r.asserts);
    hide CodeFits;
  }

  lemma FreeExpNext(fs: FS, e: Exp)
    requires Good(fs)
    ensures Next(fs, FreeExp(fs, e)) && FreeExp(fs, e).code == fs.code
  {
    if e.k.VNonReloc? { FreeRegNext(fs, e.k.info); }
    hide CodeFits, FreeReg;
  }

  lemma AddKNext(fs: FS, v: Value)
    requires Good(fs)
    ensures Next(fs, AddK(fs, v).fs) && AddK(fs, v).fs.code == fs.code
  {
    hide CodeFits;
  }

  // ---------- discharging ----------

  lemma NilsNext(fs: FS, from: int, n: nat)
    requires Good(fs) && n >= 1 && Reg(from, fs.maxstack, fs.asserts) && Reg(from + n - 1, fs.maxstack, fs.asserts)
    ensures Next(fs, Nils(fs, from, n))
  {
    var last := |fs.code| - 1;
    if |fs.code| > 0 && fs.code[last].ILoadNil? {
      assert Fits(fs.code, last, fs.maxstack, fs.asserts);
      SetFits(fs.code, last, ILoadNil(fs.code[last].a, from + n - 1), fs.maxstack, fs.asserts);
    }
    CodeNext(fs, ILoadNil(from, from + n - 1));
    hide CodeFits, Code;
  }

  lemma DischargeVarsNext(fs: FS, e: Exp)
    requires Good(fs) && ExpGood(fs, e)
    ensures NextExp(fs, DischargeVars(fs, e))
  {
    match e.k
    case VUpval(i) => CodeNext(fs, IGetUpval(0, i));
    case VGlobal(i) => CodeNext(fs, IGetGlobal(0, i));
    case VIndexed(t, aux) =>
      FreeRegNext(fs, aux);
      FreeRegNext(FreeReg(fs, aux), t);
      CodeNext(FreeReg(FreeReg(fs, aux), t), IGetTable(0, t, aux));
    case _ =>
    hide CodeFits, Code, FreeReg;
  }

  lemma SetANext(fs: FS, pc: int, reg: int)
    requires Good(fs) && 0 <= pc < |fs.code| && Reg(reg, fs.maxstack, fs.asserts)
    ensures Next(fs, fs.(code := fs.code[pc := SetA(fs.code[pc], reg)]))
  {
    var i := fs.code[pc];
    assert Fits(fs.code, pc, fs.maxstack, fs.asserts);
    if i == SetA(i, reg) {
      assert fs.code[pc := i] == fs.code;
    } else {
      SetFits(fs.code, pc, SetA(i, reg), fs.maxstack, fs.asserts);
    }
    hide CodeFits;
  }

  lemma DischargeValueNext(fs: FS, k: Kind, reg: int)
    requires Good(fs) && KindGood(fs, k) && Reg(reg, fs.maxstack, fs.asserts)
    ensures Next(fs, DischargeValue(fs, k, reg))
  {
    match k
    case VNil => NilsNext(fs, reg, 1);
    case VFalse => CodeNext(fs, ILoadBool(reg, false, false));
    case VTrue => CodeNext(fs, ILoadBool(reg, true, false));
    case VK(i) => CodeNext(fs, ILoadK(reg, i));
    case VKNum(n) =>
      AddKNext(fs, Num(n));
      var a := AddK(fs, Num(n));
      CodeNext(a.fs, ILoadK(reg, a.i));
      NextTrans(fs, a.fs, Code(a.fs, ILoadK(reg, a.i)));
    case VReloc(pc) => if 0 <= pc < |fs.code| { SetANext(fs, pc, reg); }
    case VNonReloc(r) => if reg != r { CodeNext(fs, IMove(reg, r)); }
    case _ =>
    hide CodeFits, Code, Nils, AddK, SetA;
  }

  lemma Discharge2RegNext(fs: FS, e: Exp, reg: int)
    requires Good(fs) && ExpGood(fs, e) && Reg(reg, fs.maxstack, fs.asserts)
    ensures NextExp(fs, Discharge2Reg(fs, e, reg))
  {
    var d := DischargeVars(fs, e);
    DischargeVarsNext(fs, e);
    if !d.e.k.VJmp? {
      var f := DischargeValue(d.fs, d.e.k, reg);
      DischargeValueNext(d.fs, d.e.k, reg);
      NextTrans(fs, d.fs, f);
      ExpStays(d.fs, f, d.e);
    }
    hide CodeFits, DischargeVars, DischargeValue;
  }

  lemma ToAnyNext(fs: FS, e: Exp)
    requires Good(fs) && ExpGood(fs, e)
    ensures NextExp(fs, Discharge2AnyReg(fs, e))
  {
    if !e.k.VNonReloc? {
      var f := ReserveRegs(fs, 1);
      ReserveNext(fs, 1);
      ExpStays(fs, f, e);
      TopReg(fs);
      NextGood(fs, f);
      Discharge2RegNext(f, e, f.freereg - 1);
      NextTrans(fs, f, Discharge2Reg(f, e, f.freereg - 1).fs);
    }
    NextSelf(fs);
    hide Good, Next, ReserveRegs, Discharge2Reg, ExpGood, Reg;
  }

  // ---------- to a register ----------

  lemma LabelCodeNext(fs: FS, a: int, b: bool, skip: bool)
    requires Good(fs) && Reg(a, fs.maxstack, fs.asserts)
    ensures Next(fs, CodeLabel(fs, a, b, skip)) && |CodeLabel(fs, a, b, skip).code| == |fs.code| + 1
  {
    LabelNext(fs);
    CodeNext(GetLabel(fs), ILoadBool(a, b, skip));
    NextTrans(fs, GetLabel(fs), CodeLabel(fs, a, b, skip));
    hide Good, Code;
  }

  lemma RegStays(fs: FS, fs': FS, reg: int)
    requires Reg(reg, fs.maxstack, fs.asserts) && Next(fs, fs')
    ensures Reg(reg, fs'.maxstack, fs'.asserts)
  {}

  lemma LoadBoolsNext(fs: FS, isJmp: bool, reg: int)
    requires Good(fs) && Reg(reg, fs.maxstack, fs.asserts)
    ensures Next(fs, LoadBools(fs, isJmp, reg)) && |LoadBools(fs, isJmp, reg).code| >= |fs.code| + 2
  {
    var j := if isJmp then FL(fs, []) else Jump(fs);
    JumpNext(fs);
    NextSelf(fs);
    RegStays(fs, j.fs, reg);
    var f := CodeLabel(j.fs, reg, false, true);
    LabelCodeNext(j.fs, reg, false, true);
    RegStays(j.fs, f, reg);
    var g := CodeLabel(f, reg, true, false);
    LabelCodeNext(f, reg, true, false);
    ToHereNext(g, j.list);
    NextTrans(fs, j.fs, f);
    NextTrans(fs, f, g);
    NextTrans(fs, g, LoadBools(fs, isJmp, reg));
    hide Good, Jump, CodeLabel, PatchToHere, Reg;
  }

  lemma NextSelf(fs: FS)
    requires Good(fs)
    ensures Next(fs, fs)
  {}

  lemma NextGood(fs: FS, fs': FS)
    requires Next(fs, fs')
    ensures Good(fs')
  {}

  lemma BothPatched(fs: FS, t: seq<int>, f: seq<int>, reg: int, p_t: int, p_f: int)
    requires Good(fs) && Nodes(t, |fs.code|) && Nodes(f, |fs.code|) && Reg(reg, fs.maxstack, fs.asserts)
    requires -1 <= p_t <= |fs.code| && -1 <= p_f <= |fs.code|
    ensures Next(fs, PatchList(PatchList(fs, f, |fs.code|, reg, p_f), t, |fs.code|, reg, p_t))
  {
    var n := |fs.code|;
    var f2 := PatchList(fs, f, n, reg, p_f);
    PatchListNext(fs, f, n, reg, p_f);
    RegStays(fs, f2, reg);
    PatchListNext(f2, t, n, reg, p_t);
    NextTrans(fs, f2, PatchList(f2, t, n, reg, p_t));
    hide Good, Reg;
  }

  lemma CloseListsNext(fs: FS, isJmp: bool, t: seq<int>, f: seq<int>, reg: int)
    requires Good(fs) && Nodes(t, |fs.code|) && Nodes(f, |fs.code|) && Reg(reg, fs.maxstack, fs.asserts)
    ensures Next(fs, CloseLists(fs, isJmp, t, f, reg))
  {
    NextSelf(fs);
    var need := NeedValue(fs.code, t) || NeedValue(fs.code, f);
    var f1 := GetLabel(if need then LoadBools(fs, isJmp, reg) else fs);
    LabelledNext(fs, isJmp, reg, need);
    NextGood(fs, f1);
    RegStays(fs, f1, reg);
    NodesStay(t, fs, f1);
    NodesStay(f, fs, f1);
    BothPatched(f1, t, f, reg, if need then |f1.code| - 1 else NO_JUMP, if need then |f1.code| - 2 else NO_JUMP);
    NextTrans(fs, f1, Patched(f1, need, t, f, reg));
    CloseListsIs(fs, isJmp, t, f, reg);
    hide Good, Next, LoadBools, GetLabel, CloseLists, Reg, NeedValue, Nodes;
  }

  function Patched(fs: FS, need: bool, t: seq<int>, f: seq<int>, reg: int): FS {
    var n := |fs.code|;
    PatchList(PatchList(fs, f, n, reg, if need then n - 2 else NO_JUMP), t, n, reg, if need then n - 1 else NO_JUMP)
  }

  lemma CloseListsIs(fs: FS, isJmp: bool, t: seq<int>, f: seq<int>, reg: int)
    ensures var need := NeedValue(fs.code, t) || NeedValue(fs.code, f);
            var f1 := GetLabel(if need then LoadBools(fs, isJmp, reg) else fs);
            CloseLists(fs, isJmp, t, f, reg) == if t == [] && f == [] then fs else Patched(f1, need, t, f, reg)
  {
    hide LoadBools, NeedValue, PatchList, Grows;
  }

  lemma LabelledNext(fs: FS, isJmp: bool, reg: int, need: bool)
    requires Good(fs) && Reg(reg, fs.maxstack, fs.asserts)
    ensures var f := GetLabel(if need then LoadBools(fs, isJmp, reg) else fs);
            Next(fs, f) && (need ==> |f.code| >= 2)
  {
    NextSelf(fs);
    if need { LoadBoolsNext(fs, isJmp, reg); }
    var f0 := if need then LoadBools(fs, isJmp, reg) else fs;
    NextGood(fs, f0);
    LabelNext(f0);
    NextTrans(fs, f0, GetLabel(f0));
    hide Good, Next, LoadBools, Reg;
  }

  lemma Exp2RegNext(fs: FS, e: Exp, reg: int)
    requires Good(fs) && ExpGood(fs, e) && Reg(reg, fs.maxstack, fs.asserts)
    ensures NextExp(fs, Exp2Reg(fs, e, reg))
  {
    var d := Discharge2Reg(fs, e, reg);
    Discharge2RegNext(fs, e, reg);
    var j := if d.e.k.VJmp? then Join(d.fs, d.e.t, [d.e.k.info]) else FL(d.fs, d.e.t);
    NextSelf(d.fs);
    if d.e.k.VJmp? { JoinNext(d.fs, d.e.t, [d.e.k.info]); }
    NextTrans(fs, d.fs, j.fs);
    ExpStays(d.fs, j.fs, d.e);
    RegStays(fs, j.fs, reg);
    var g := CloseLists(j.fs, d.e.k.VJmp?, j.list, d.e.f, reg);
    CloseListsNext(j.fs, d.e.k.VJmp?, j.list, d.e.f, reg);
    NextTrans(fs, j.fs, g);
    RegStays(fs, g, reg);
    hide Good, Discharge2Reg, Join, CloseLists, Reg;
  }

  lemma NextRegNext(fs: FS, e: Exp)
    requires Good(fs) && ExpGood(fs, e)
    ensures NextExp(fs, Exp2NextReg(fs, e))
  {
    var d := DischargeVars(fs, e);
    DischargeVarsNext(fs, e);
    var f0 := FreeExp(d.fs, d.e);
    FreeExpNext(d.fs, d.e);
    var f := ReserveRegs(f0, 1);
    ReserveNext(f0, 1);
    NextTrans(fs, d.fs, f0);
    NextTrans(fs, f0, f);
    NextTrans(d.fs, f0, f);
    ExpStays(d.fs, f, d.e);
    TopReg(f0);
    Exp2RegNext(f, d.e, f.freereg - 1);
    NextTrans(fs, f, Exp2Reg(f, d.e, f.freereg - 1).fs);
    hide Good, DischargeVars, FreeExp, ReserveRegs, Exp2Reg, Reg, ExpGood;
  }

  lemma TopReg(fs: FS)
    requires Good(fs)
    ensures var f := ReserveRegs(fs, 1); Reg(f.freereg - 1, f.maxstack, f.asserts)
  {
    hide CodeFits;
  }

  lemma AnyRegNext(fs: FS, e: Exp)
    requires Good(fs) && ExpGood(fs, e)
    ensures NextExp(fs, Exp2AnyReg(fs, e))
  {
    var d := DischargeVars(fs, e);
    DischargeVarsNext(fs, e);
    if d.e.k.VNonReloc? && !HasJumps(d.e) {
    } else if d.e.k.VNonReloc? && d.e.k.info >= d.fs.nactvar {
      Exp2RegNext(d.fs, d.e, d.e.k.info);
      NextTrans(fs, d.fs, Exp2Reg(d.fs, d.e, d.e.k.info).fs);
    } else {
      NextRegNext(d.fs, d.e);
      NextTrans(fs, d.fs, Exp2NextReg(d.fs, d.e).fs);
    }
    hide Good, DischargeVars, Exp2Reg, Exp2NextReg, Reg, HasJumps;
  }

  lemma ValNext(fs: FS, e: Exp)
    requires Good(fs) && ExpGood(fs, e)
    ensures NextExp(fs, Exp2Val(fs, e))
  {
    if HasJumps(e) { AnyRegNext(fs, e); } else { DischargeVarsNext(fs, e); }
    hide Good, DischargeVars, Exp2AnyReg, ExpGood, HasJumps;
  }

  ghost predicate NextOperand(fs: FS, r: FEI) {
    Next(fs, r.fs) && ExpGood(r.fs, r.e) && Operand(r.i, r.fs.maxstack, r.fs.asserts)
  }

  lemma IndexNat(k: seq<Value>, v: Value)
    ensures IndexOf(k, v) >= 0
  {}

  lemma RKNext(fs: FS, e: Exp)
    requires Good(fs) && ExpGood(fs, e) && (e.k.VK? ==> e.k.info >= 0)
    ensures NextOperand(fs, Exp2RK(fs, e))
  {
    var d := Exp2Val(fs, e);
    ValNext(fs, e);
    ValConstant(fs, e);
    if ConstOf(d.e.k).Some? && |d.fs.k| <= MAXINDEXRK {
      var a := AddK(d.fs, ConstOf(d.e.k).value);
      AddKNext(d.fs, ConstOf(d.e.k).value);
      NextTrans(fs, d.fs, a.fs);
      ExpStays(d.fs, a.fs, d.e);
    } else if d.e.k.VK? && d.e.k.info <= MAXINDEXRK {
    } else {
      var r := Exp2AnyReg(d.fs, d.e);
      AnyRegNext(d.fs, d.e);
      NextTrans(fs, d.fs, r.fs);
      ZeroReg(r.fs);
    }
    hide Good, Exp2Val, Exp2AnyReg, Reg;
  }

  lemma ValConstant(fs: FS, e: Exp)
    ensures Exp2Val(fs, e).e.k.VK? ==> e.k == Exp2Val(fs, e).e.k
  {
    hide Exp2Reg, Exp2NextReg, Code, FreeReg;
    RegisterNoK(fs, e);
  }

  lemma RegisterNoK(fs: FS, e: Exp)
    ensures Exp2AnyReg(fs, e).e.k.VK? ==> e.k == Exp2AnyReg(fs, e).e.k
  {
    hide Discharge2Reg, CloseLists, Code, FreeReg, ReserveRegs;
  }

  lemma ZeroReg(fs: FS)
    requires Good(fs)
    ensures Reg(0, fs.maxstack, fs.asserts)
  {}

  // ---------- conditions ----------

  lemma InvertNext(fs: FS, info: int)
    requires Good(fs)
    ensures Next(fs, InvertJump(fs, info)) && |InvertJump(fs, info).code| == |fs.code|
  {
    var r := InvertJump(fs, info);
    if 1 <= info <= |fs.code| && fs.code[info - 1].ICmp? {
      assert Fits(fs.code, info - 1, fs.maxstack, fs.asserts);
      SetFits(fs.code, info - 1, r.code[info - 1], fs.maxstack, fs.asserts);
    } else {
      Widen(fs.code, fs.maxstack, r.maxstack, fs.asserts, r.asserts);
    }
    hide CodeFits;
  }

  lemma DropNext(fs: FS)
    requires Good(fs) && |fs.code| > 0 && fs.jpc == [] && !fs.code[|fs.code| - 1].IJmp?
    ensures Good(fs.(code := fs.code[..|fs.code| - 1]))
  {
    var c := fs.code[..|fs.code| - 1];
    forall i | 0 <= i < |c| ensures Fits(c, i, fs.maxstack, fs.asserts) {
      assert Fits(fs.code, i, fs.maxstack, fs.asserts);
    }
  }

  /** The last instruction is taken back if the descriptor is still to be completed; nothing is held then. */
  predicate Unheld(fs: FS, e: Exp) { e.k.VReloc? ==> fs.jpc == [] }

  lemma JumpOnCondNext(fs: FS, e: Exp, cond: bool)
    requires Good(fs) && ExpGood(fs, e) && Unheld(fs, e)
    ensures NextList(fs, JumpOnCond(fs, e, cond))
  {
    if e.k.VReloc? && |fs.code| > 0 && fs.code[|fs.code| - 1].INot? {
      TakeBackNext(fs, cond);
    } else {
      var d := Discharge2AnyReg(fs, e);
      ToAnyNext(fs, e);
      NextGood(fs, d.fs);
      var f := FreeExp(d.fs, d.e);
      FreeExpNext(d.fs, d.e);
      NextGood(d.fs, f);
      var b := if d.e.k.VNonReloc? then d.e.k.info else 0;
      KindReg(d.fs, d.e);
      RegStays(d.fs, f, b);
      TestSetJumpNext(f, b, cond);
      NextTrans(fs, d.fs, f);
      NextTrans(fs, f, CondJump(f, ITestSet(NO_REG, b, cond)).fs);
      hide Good, Next, CondJump, Discharge2AnyReg, FreeExp, Reg, ExpGood, Nodes;
    }
  }

  lemma TakeBackNext(fs: FS, cond: bool)
    requires Good(fs) && fs.jpc == [] && |fs.code| > 0 && fs.code[|fs.code| - 1].INot?
    ensures var last := |fs.code| - 1;
            NextList(fs, CondJump(fs.(code := fs.code[..last]), ITest(fs.code[last].b, !cond)))
  {
    var last := |fs.code| - 1;
    var f, i := fs.(code := fs.code[..last]), ITest(fs.code[last].b, !cond);
    assert Fits(fs.code, last, fs.maxstack, fs.asserts);
    DropNext(fs);
    CondJumpNext(f, i);
    hide CodeFits, CondJump;
  }

  /** The register that a descriptor names, or the first. */
  lemma KindReg(fs: FS, e: Exp)
    requires Good(fs) && ExpGood(fs, e)
    ensures Reg(if e.k.VNonReloc? then e.k.info else 0, fs.maxstack, fs.asserts)
  {
    hide CodeFits;
  }

  lemma AlwaysNext(fs: FS)
    requires Good(fs)
    ensures NextList(fs, AlwaysJump(fs))
  {
    JumpNext(fs.(clean := fs.clean && !AnyCarries(fs.code, fs.jpc)));
    hide CodeFits, Jump, AnyCarries;
  }

  lemma DecideNext(fs: FS, e: Exp, sense: bool)
    requires Good(fs) && ExpGood(fs, e) && Unheld(fs, e)
    ensures NextList(fs, Decide(fs, e, sense))
  {
    NextSelf(fs);
    if ConstantIs(e.k, sense) {
    } else if e.k == (if sense then VFalse else VTrue) {
      AlwaysNext(fs);
    } else if e.k.VJmp? {
      if sense { InvertNext(fs, e.k.info); }
    } else {
      JumpOnCondNext(fs, e, !sense);
    }
    hide Good, AlwaysJump, InvertJump, JumpOnCond;
  }

  lemma GoIfNext(fs: FS, e: Exp, sense: bool)
    requires Good(fs) && ExpGood(fs, e) && Unheld(fs, e)
    ensures NextExp(fs, GoIf(fs, e, sense))
  {
    var d := DischargeVars(fs, e);
    DischargeVarsNext(fs, e);
    UnheldAfter(fs, e);
    var j := Decide(d.fs, d.e, sense);
    DecideNext(d.fs, d.e, sense);
    ExpStays(d.fs, j.fs, d.e);
    var exit := ExitOf(d.e, sense);
    var l := Join(j.fs, exit, j.list);
    JoinNext(j.fs, exit, j.list);
    ExpStays(j.fs, l.fs, d.e);
    var g := PatchToHere(l.fs, StayOf(d.e, sense));
    ToHereNext(l.fs, StayOf(d.e, sense));
    ExpStays(l.fs, g, d.e);
    GoIfShape(fs, e, sense);
    GoIfKind(fs, e, sense);
    NextTrans(fs, d.fs, j.fs);
    NextTrans(fs, j.fs, l.fs);
    NextTrans(fs, l.fs, g);
    NodesStay(l.list, l.fs, g);
    hide Good, DischargeVars, Decide, Join, PatchToHere, GoIf, KindGood;
  }

  lemma NodesStay(list: seq<int>, fs: FS, fs': FS)
    requires Nodes(list, |fs.code|) && Next(fs, fs')
    ensures Nodes(list, |fs'.code|)
  {}

  lemma GoIfKind(fs: FS, e: Exp, sense: bool)
    ensures GoIf(fs, e, sense).e.k == DischargeVars(fs, e).e.k
  {
    hide DischargeVars, Join, PatchToHere, AlwaysJump, InvertJump, JumpOnCond;
  }

  lemma UnheldAfter(fs: FS, e: Exp)
    requires Unheld(fs, e)
    ensures Unheld(DischargeVars(fs, e).fs, DischargeVars(fs, e).e)
  {
    hide FreeReg;
  }

  lemma NotKindNext(fs: FS, e: Exp)
    requires Good(fs) && ExpGood(fs, e)
    ensures NextExp(fs, NotKind(fs, e))
  {
    NextSelf(fs);
    if e.k.VJmp? { InvertNext(fs, e.k.info); } else { ToNotNext(fs, e); }
    hide CodeFits, Code, InvertJump, Discharge2AnyReg, FreeExp, Reg;
  }

  lemma ToNotNext(fs: FS, e: Exp)
    requires Good(fs) && ExpGood(fs, e)
    ensures var d := Discharge2AnyReg(fs, e); var f := FreeExp(d.fs, d.e);
            var b := if d.e.k.VNonReloc? then d.e.k.info else 0;
            NextExp(fs, FE(Code(f, INot(0, b)), d.e.(k := VReloc(|f.code|))))
  {
    var d := Discharge2AnyReg(fs, e);
    ToAnyNext(fs, e);
    NextGood(fs, d.fs);
    var f := FreeExp(d.fs, d.e);
    FreeExpNext(d.fs, d.e);
    NextGood(d.fs, f);
    var b := if d.e.k.VNonReloc? then d.e.k.info else 0;
    KindReg(d.fs, d.e);
    RegStays(d.fs, f, b);
    ZeroReg(f);
    var g := Code(f, INot(0, b));
    CodeNext(f, INot(0, b));
    NextTrans(fs, d.fs, f);
    NextTrans(fs, f, g);
    NextTrans(d.fs, f, g);
    ExpStays(d.fs, g, d.e);
    RelocGood(g, d.e, |f.code|);
    hide Good, Next, Code, Discharge2AnyReg, FreeExp, Reg, ExpGood;
  }

  lemma RelocGood(fs: FS, e: Exp, pc: int)
    requires ExpGood(fs, e)
    ensures ExpGood(fs, e.(k := VReloc(pc)))
  {}

  lemma NotNext(fs: FS, e: Exp)
    requires Good(fs) && ExpGood(fs, e)
    ensures NextExp(fs, CodeNot(fs, e))
  {
    var d := DischargeVars(fs, e);
    DischargeVarsNext(fs, e);
    var n := NotKind(d.fs, d.e);
    NotKindNext(d.fs, d.e);
    var f := RemoveValues(n.fs, n.e.t);
    StripFits(n.fs, n.e.t);
    var g := RemoveValues(f, n.e.f);
    StripFits(f, n.e.f);
    NextTrans(fs, d.fs, n.fs);
    NextTrans(fs, n.fs, f);
    NextTrans(fs, f, g);
    NextTrans(n.fs, f, g);
    ExpStays(n.fs, g, n.e);
    hide Good, DischargeVars, NotKind, RemoveValues;
  }

  // ---------- operators ----------

  lemma FreeExpsNext(fs: FS, e1: Exp, o1: int, e2: Exp, o2: int)
    requires Good(fs)
    ensures Next(fs, FreeExps(fs, e1, o1, e2, o2)) && FreeExps(fs, e1, o1, e2, o2).code == fs.code
  {
    FreeExpNext(fs, e1);
    FreeExpNext(fs, e2);
    FreeExpNext(FreeExp(fs, e1), e2);
    FreeExpNext(FreeExp(fs, e2), e1);
    NextTrans(fs, FreeExp(fs, e1), FreeExp(FreeExp(fs, e1), e2));
    NextTrans(fs, FreeExp(fs, e2), FreeExp(FreeExp(fs, e2), e1));
    hide Good, FreeExp;
  }

  /** An operand is in a register, or a constant that is numbered from 0. */
  predicate Plainly(e: Exp) { e.k.VK? ==> e.k.info >= 0 }

  predicate InReg(e: Exp) { e.k.VNonReloc? && e.t == [] && e.f == [] }

  lemma InRegRK(fs: FS, e: Exp)
    requires InReg(e)
    ensures Exp2RK(fs, e) == FEI(fs, e, e.k.info)
  {
    hide Exp2Reg, Exp2NextReg, AddK;
  }

  lemma OperandStays(fs: FS, fs': FS, i: int)
    requires Operand(i, fs.maxstack, fs.asserts) && Next(fs, fs')
    ensures Operand(i, fs'.maxstack, fs'.asserts)
  {}

  lemma ArithNext(p: Prims, fs: FS, op: CodeOp, e1: Exp, e2: Exp)
    requires Good(fs) && ExpGood(fs, e1) && ExpGood(fs, e2) && Plainly(e1) && Plainly(e2)
    requires op.CArith? || InReg(e1) || FoldConstants(p, op, e1, e2).Some?
    requires op == CConcat ==> InReg(e2)
    ensures NextExp(fs, CodeArith(p, fs, op, e1, e2))
  {
    NextSelf(fs);
    if FoldConstants(p, op, e1, e2).None? { CodedNext(fs, op, e1, e2); }
    hide CodeFits, Code, FreeExps, Exp2RK, FoldConstants;
  }

  lemma CodedNext(fs: FS, op: CodeOp, e1: Exp, e2: Exp)
    requires Good(fs) && ExpGood(fs, e1) && ExpGood(fs, e2) && Plainly(e1) && Plainly(e2)
    requires (op.CArith? || InReg(e1)) && (op == CConcat ==> InReg(e2))
    ensures var d2 := if Unary(op) then FEI(fs, e2, 0) else Exp2RK(fs, e2); var d1 := Exp2RK(d2.fs, e1);
            var f := FreeExps(d1.fs, d1.e, d1.i, d2.e, d2.i);
            NextExp(fs, FE(Code(f, OpInstr(op, d1.i, d2.i)), d1.e.(k := VReloc(|f.code|))))
  {
    var d2 := if Unary(op) then FEI(fs, e2, 0) else Exp2RK(fs, e2);
    SecondNext(fs, op, e2);
    NextGood(fs, d2.fs);
    ExpStays(fs, d2.fs, e1);
    var d1 := Exp2RK(d2.fs, e1);
    RKNext(d2.fs, e1);
    NextGood(d2.fs, d1.fs);
    var f := FreeExps(d1.fs, d1.e, d1.i, d2.e, d2.i);
    FreeExpsNext(d1.fs, d1.e, d1.i, d2.e, d2.i);
    NextGood(d1.fs, f);
    NextTrans(d2.fs, d1.fs, f);
    OperandStays(d2.fs, f, d2.i);
    OperandStays(d1.fs, f, d1.i);
    if !op.CArith? {
      InRegRK(d2.fs, e1);
      RegIn(d2.fs, e1);
      RegStays(d2.fs, f, e1.k.info);
      if op == CConcat {
        InRegRK(fs, e2);
        RegIn(fs, e2);
        NextTrans(fs, d2.fs, f);
        RegStays(fs, f, e2.k.info);
      }
    }
    OpBelow(f, op, d1.i, d2.i);
    var g := Code(f, OpInstr(op, d1.i, d2.i));
    CodeNext(f, OpInstr(op, d1.i, d2.i));
    NextTrans(fs, d2.fs, f);
    NextTrans(fs, f, g);
    NextTrans(d1.fs, f, g);
    ExpStays(d1.fs, g, d1.e);
    RelocGood(g, d1.e, |f.code|);
    hide Good, Next, Code, FreeExps, Exp2RK, Reg, Operand, InstrBelow, OpInstr, ExpGood;
  }

  lemma SecondNext(fs: FS, op: CodeOp, e2: Exp)
    requires Good(fs) && ExpGood(fs, e2) && Plainly(e2)
    ensures NextOperand(fs, if Unary(op) then FEI(fs, e2, 0) else Exp2RK(fs, e2))
  {
    NextSelf(fs);
    RKNext(fs, e2);
    ZeroReg(fs);
    hide Good, Exp2RK, Next, Reg;
  }

  lemma RegIn(fs: FS, e: Exp)
    requires ExpGood(fs, e) && InReg(e)
    ensures Reg(e.k.info, fs.maxstack, fs.asserts)
  {}

  lemma OpBelow(fs: FS, op: CodeOp, o1: int, o2: int)
    requires Good(fs)
    requires if op.CArith? then Operand(o1, fs.maxstack, fs.asserts) && Operand(o2, fs.maxstack, fs.asserts)
             else Reg(o1, fs.maxstack, fs.asserts) && (op == CConcat ==> Reg(o2, fs.maxstack, fs.asserts))
    ensures InstrBelow(OpInstr(op, o1, o2), fs.maxstack, fs.asserts)
  {
    hide CodeFits;
  }

  lemma CompNext(fs: FS, op: CmpOp, cond: bool, e1: Exp, e2: Exp)
    requires Good(fs) && ExpGood(fs, e1) && ExpGood(fs, e2) && Plainly(e1) && Plainly(e2)
    ensures NextExp(fs, CodeComp(fs, op, cond, e1, e2))
  {
    var d1 := Exp2RK(fs, e1);
    var d2 := Exp2RK(d1.fs, e2);
    var f := FreeExp(FreeExp(d2.fs, d2.e), d1.e);
    BothNext(fs, e1, e2);
    NextGood(fs, f);
    ComparedNext(d1.fs, f, op, cond, d1.i, d2.i, d1.e);
    NextTrans(fs, f, Compared(f, op, cond, d1.i, d2.i).fs);
    CodeCompIs(fs, op, cond, e1, e2);
    hide Good, Next, CodeComp, Compared, FreeExp, Exp2RK, Operand, ExpGood, Plainly;
  }

  lemma BothNext(fs: FS, e1: Exp, e2: Exp)
    requires Good(fs) && ExpGood(fs, e1) && ExpGood(fs, e2) && Plainly(e1) && Plainly(e2)
    ensures var d1 := Exp2RK(fs, e1); var d2 := Exp2RK(d1.fs, e2); var f := FreeExp(FreeExp(d2.fs, d2.e), d1.e);
            && Next(fs, f) && Next(d1.fs, f) && ExpGood(d1.fs, d1.e)
            && Operand(d1.i, f.maxstack, f.asserts) && Operand(d2.i, f.maxstack, f.asserts)
  {
    var d1 := Exp2RK(fs, e1);
    RKNext(fs, e1);
    NextGood(fs, d1.fs);
    ExpStays(fs, d1.fs, e2);
    var d2 := Exp2RK(d1.fs, e2);
    RKNext(d1.fs, e2);
    NextGood(d1.fs, d2.fs);
    var g := FreeExp(d2.fs, d2.e);
    FreeExpNext(d2.fs, d2.e);
    NextGood(d2.fs, g);
    var f := FreeExp(g, d1.e);
    FreeExpNext(g, d1.e);
    NextTrans(d2.fs, g, f);
    NextTrans(d1.fs, d2.fs, f);
    NextTrans(fs, d1.fs, f);
    OperandStays(d1.fs, f, d1.i);
    OperandStays(d2.fs, f, d2.i);
    hide Good, Next, FreeExp, Exp2RK, Operand, ExpGood;
  }

  lemma CodeCompIs(fs: FS, op: CmpOp, cond: bool, e1: Exp, e2: Exp)
    ensures var d1 := Exp2RK(fs, e1); var d2 := Exp2RK(d1.fs, e2); var f := FreeExp(FreeExp(d2.fs, d2.e), d1.e);
            CodeComp(fs, op, cond, e1, e2)
              == FE(Compared(f, op, cond, d1.i, d2.i).fs, d1.e.(k := VJmp(|f.code| + 1)))
  {
    hide CondJump, FreeExp, Exp2RK, Grows;
  }

  function Compared(fs: FS, op: CmpOp, cond: bool, o1: int, o2: int): FL {
    CondJump(fs, if !cond && op != Eq then ICmp(op, true, o2, o1) else ICmp(op, cond, o1, o2))
  }

  lemma ComparedNext(f0: FS, fs: FS, op: CmpOp, cond: bool, o1: int, o2: int, e: Exp)
    requires Good(fs) && Operand(o1, fs.maxstack, fs.asserts) && Operand(o2, fs.maxstack, fs.asserts)
    requires Next(f0, fs) && ExpGood(f0, e)
    ensures var j := Compared(fs, op, cond, o1, o2);
            Next(fs, j.fs) && ExpGood(j.fs, e.(k := VJmp(|fs.code| + 1)))
  {
    var i := if !cond && op != Eq then ICmp(op, true, o2, o1) else ICmp(op, cond, o1, o2);
    CondJumpNext(fs, i);
    var j := CondJump(fs, i);
    NextTrans(f0, fs, j.fs);
    ExpStays(f0, j.fs, e);
    JmpGood(j.fs, e, |fs.code| + 1);
    hide Good, Next, CondJump, Operand, ExpGood, Nodes;
  }

  lemma JmpGood(fs: FS, e: Exp, pc: int)
    requires ExpGood(fs, e) && 0 <= pc < |fs.code|
    ensures ExpGood(fs, e.(k := VJmp(pc)))
  {}

  lemma PrefixNext(p: Prims, fs: FS, op: UnOp, e: Exp)
    requires Good(fs) && ExpGood(fs, e)
    ensures NextExp(fs, Prefix(p, fs, op, e))
  {
    var e2 := Init(VKNum(Real(0.0)));
    NextSelf(fs);
    if op == Not {
      NotNext(fs, e);
    } else {
      var d := if op == Minus && IsNumeral(e) then FE(fs, e) else Exp2AnyReg(fs, e);
      AnyRegNext(fs, e);
      AnyRegIn(fs, e);
      var c := if op == Minus then CUnm else CLen;
      assert op == Minus && IsNumeral(e) ==> FoldConstants(p, c, d.e, e2).Some?;
      ArithNext(p, d.fs, c, d.e, e2);
      NextTrans(fs, d.fs, CodeArith(p, d.fs, c, d.e, e2).fs);
    }
    hide Good, CodeNot, CodeArith, Exp2AnyReg, FoldConstants;
  }

  lemma AnyRegIn(fs: FS, e: Exp)
    ensures InReg(Exp2AnyReg(fs, e).e)
  {
    hide DischargeVars, Discharge2Reg, CloseLists, FreeExp, ReserveRegs;
  }

  lemma NextRegIn(fs: FS, e: Exp)
    ensures InReg(Exp2NextReg(fs, e).e)
  {
    hide DischargeVars, Discharge2Reg, CloseLists, FreeExp, ReserveRegs;
  }

  lemma InfixNext(fs: FS, op: BinOp, e: Exp)
    requires Good(fs) && ExpGood(fs, e) && Unheld(fs, e) && Plainly(e)
    ensures NextExp(fs, Infix(fs, op, e))
    ensures op == ConcatOp ==> InReg(Infix(fs, op, e).e)
  {
    NextSelf(fs);
    match op
    case AndOp => GoIfNext(fs, e, true);
    case OrOp => GoIfNext(fs, e, false);
    case ConcatOp =>
      NextRegNext(fs, e);
      NextRegIn(fs, e);
    case ArithOp(_) => RKNext(fs, e);
    case _ => RKNext(fs, e);
    hide Good, Next, GoIfTrue, GoIfFalse, Exp2RK, Exp2NextReg, ExpGood, IsNumeral;
  }

  lemma WidenNext(fs: FS, e1: Exp, ok: bool)
    requires Good(fs) && |fs.code| > 0 && fs.code[|fs.code| - 1].IConcat? && ExpGood(fs, e1) && InReg(e1)
    ensures var n := |fs.code|; var last := fs.code[n - 1]; var f := FreeExp(fs.(asserts := fs.asserts && ok), e1);
            Next(fs, f.(code := f.code[n - 1 := IConcat(last.a, e1.k.info, last.c)]))
  {
    var n := |fs.code|;
    var last, f0 := fs.code[n - 1], fs.(asserts := fs.asserts && ok);
    Widen(fs.code, fs.maxstack, f0.maxstack, fs.asserts, f0.asserts);
    var f := FreeExp(f0, e1);
    assert Good(f0) by { hide CodeFits; }
    FreeExpNext(f0, e1);
    assert Fits(f.code, n - 1, f.maxstack, f.asserts);
    RegIn(fs, e1);
    assert Reg(e1.k.info, f.maxstack, f.asserts);
    SetFits(f.code, n - 1, IConcat(last.a, e1.k.info, last.c), f.maxstack, f.asserts);
    hide CodeFits, FreeExp;
  }

  lemma WidenedNext(f0: FS, fs: FS, e1: Exp, pc: int)
    requires Next(f0, fs) && |fs.code| > 0 && fs.code[|fs.code| - 1].IConcat? && ExpGood(fs, e1) && InReg(e1)
    ensures var n := |fs.code|; var last := fs.code[n - 1];
            var f := FreeExp(fs.(asserts := fs.asserts && e1.k == VNonReloc(last.b - 1)), e1);
            NextExp(f0, FE(f.(code := f.code[n - 1 := IConcat(last.a, e1.k.info, last.c)]), e1.(k := VReloc(pc))))
  {
    var n := |fs.code|;
    var last := fs.code[n - 1];
    var ok := e1.k == VNonReloc(last.b - 1);
    NextGood(f0, fs);
    WidenNext(fs, e1, ok);
    var f := FreeExp(fs.(asserts := fs.asserts && ok), e1);
    var g := f.(code := f.code[n - 1 := IConcat(last.a, e1.k.info, last.c)]);
    NextTrans(f0, fs, g);
    ExpStays(fs, g, e1);
    RelocGood(g, e1, pc);
    hide Good, Next, FreeExp, ExpGood;
  }

  lemma CodedConcatNext(p: Prims, fs: FS, d: FE, e1: Exp)
    requires NextExp(fs, d) && ExpGood(d.fs, e1) && InReg(e1)
    ensures var x := Exp2NextReg(d.fs, d.e); NextExp(fs, CodeArith(p, x.fs, CConcat, e1, x.e))
  {
    NextGood(fs, d.fs);
    var x := Exp2NextReg(d.fs, d.e);
    NextRegNext(d.fs, d.e);
    NextRegIn(d.fs, d.e);
    NextGood(d.fs, x.fs);
    ExpStays(d.fs, x.fs, e1);
    ArithNext(p, x.fs, CConcat, e1, x.e);
    NextTrans(fs, d.fs, x.fs);
    NextTrans(fs, x.fs, CodeArith(p, x.fs, CConcat, e1, x.e).fs);
    hide Good, Next, Exp2NextReg, ExpGood, CodeArith;
  }

  lemma PosConcatNext(p: Prims, fs: FS, e1: Exp, e2: Exp)
    requires Good(fs) && ExpGood(fs, e1) && ExpGood(fs, e2) && InReg(e1) && Plainly(e2)
    ensures NextExp(fs, PosConcat(p, fs, e1, e2))
  {
    var d := Exp2Val(fs, e2);
    ValNext(fs, e2);
    ExpStays(fs, d.fs, e1);
    PosConcatIs(p, fs, e1, e2);
    if Widens(d) { WidenedNext(fs, d.fs, e1, d.e.k.info); } else { CodedConcatNext(p, fs, d, e1); }
    hide Good, Next, Exp2Val, Exp2NextReg, FreeExp, ExpGood, CodeArith, PosConcat;
  }

  predicate Widens(d: FE) { d.e.k.VReloc? && |d.fs.code| > 0 && d.fs.code[|d.fs.code| - 1].IConcat? }

  lemma PosConcatIs(p: Prims, fs: FS, e1: Exp, e2: Exp)
    requires InReg(e1)
    ensures var d := Exp2Val(fs, e2); var n := |d.fs.code|; var r := PosConcat(p, fs, e1, e2);
            if Widens(d) then
              var last := d.fs.code[n - 1];
              var f := FreeExp(d.fs.(asserts := d.fs.asserts && e1.k == VNonReloc(last.b - 1)), e1);
              r == FE(f.(code := f.code[n - 1 := IConcat(last.a, e1.k.info, last.c)]), e1.(k := d.e.k))
            else
              var x := Exp2NextReg(d.fs, d.e); r == CodeArith(p, x.fs, CConcat, e1, x.e)
  {
    hide Exp2Val, Exp2NextReg, FreeExp, CodeArith, Grows;
  }

  lemma AssertNext(fs: FS, ok: bool)
    requires Good(fs)
    ensures Next(fs, fs.(asserts := fs.asserts && ok))
  {
    Widen(fs.code, fs.maxstack, fs.maxstack, fs.asserts, fs.asserts && ok);
    hide CodeFits;
  }

  lemma LogicNext(fs: FS, ok: bool, e: Exp, list: seq<int>, sense: bool)
    requires Good(fs) && ExpGood(fs, e) && Nodes(list, |fs.code|)
    ensures var d := DischargeVars(fs.(asserts := fs.asserts && ok), e);
            var l := Join(d.fs, if sense then d.e.f else d.e.t, list);
            NextExp(fs, FE(l.fs, if sense then d.e.(f := l.list) else d.e.(t := l.list)))
  {
    var f := fs.(asserts := fs.asserts && ok);
    AssertNext(fs, ok);
    NextGood(fs, f);
    ExpStays(fs, f, e);
    var d := DischargeVars(f, e);
    DischargeVarsNext(f, e);
    NextGood(f, d.fs);
    NodesStay(list, f, d.fs);
    var exit := if sense then d.e.f else d.e.t;
    var l := Join(d.fs, exit, list);
    JoinNext(d.fs, exit, list);
    ExpStays(d.fs, l.fs, d.e);
    NextTrans(fs, f, d.fs);
    NextTrans(fs, d.fs, l.fs);
    hide Good, Next, DischargeVars, Join, KindGood;
  }

  lemma PosfixNext(p: Prims, fs: FS, op: BinOp, e1: Exp, e2: Exp)
    requires Good(fs) && ExpGood(fs, e1) && ExpGood(fs, e2) && Plainly(e1) && Plainly(e2)
    requires op == ConcatOp ==> InReg(e1)
    ensures NextExp(fs, Posfix(p, fs, op, e1, e2))
  {
    match op
    case AndOp => LogicNext(fs, e1.t == [], e2, e1.f, true);
    case OrOp => LogicNext(fs, e1.f == [], e2, e1.t, false);
    case ConcatOp => PosConcatNext(p, fs, e1, e2);
    case ArithOp(a) => ArithNext(p, fs, CArith(a), e1, e2);
    case EqOp => CompNext(fs, Eq, true, e1, e2);
    case NeOp => CompNext(fs, Eq, false, e1, e2);
    case LtOp => CompNext(fs, Lt, true, e1, e2);
    case LeOp => CompNext(fs, Le, true, e1, e2);
    case GtOp => CompNext(fs, Lt, false, e1, e2);
    case GeOp => CompNext(fs, Le, false, e1, e2);
    hide Good, Next, DischargeVars, Join, PosConcat, CodeArith, CodeComp, KindGood, FoldConstants;
  }

  // ---------- expressions ----------

  /** What the parser has between its calls: nothing is held before an instruction that is to be completed. */
  predicate Form(r: FE) { Unheld(r.fs, r.e) && Plainly(r.e) }

  lemma CodeUnholds(fs: FS, i: Instr)
    ensures Code(fs, i).jpc == []
  {}

  lemma VarsForm(fs: FS, e: Exp)
    requires Form(FE(fs, e))
    ensures Form(DischargeVars(fs, e))
  {
    UnheldAfter(fs, e);
    hide Code, FreeReg;
  }

  lemma NotForm(fs: FS, e: Exp)
    requires Form(FE(fs, e))
    ensures Form(CodeNot(fs, e))
  {
    var d := DischargeVars(fs, e);
    VarsForm(fs, e);
    var a := Discharge2AnyReg(d.fs, d.e);
    var f := FreeExp(a.fs, a.e);
    CodeUnholds(f, INot(0, if a.e.k.VNonReloc? then a.e.k.info else 0));
    hide DischargeVars, Discharge2AnyReg, FreeExp, Code, InvertJump;
  }

  lemma ArithForm(p: Prims, fs: FS, op: CodeOp, e1: Exp, e2: Exp)
    ensures Form(CodeArith(p, fs, op, e1, e2))
  {
    hide FoldConstants, Exp2RK, FreeExps, PatchList;
  }

  lemma ValForm(fs: FS, e: Exp)
    requires Form(FE(fs, e))
    ensures Form(Exp2Val(fs, e))
  {
    VarsForm(fs, e);
    AnyRegIn(fs, e);
    hide DischargeVars, Exp2AnyReg, HasJumps;
  }

  lemma ConcatForm(p: Prims, fs: FS, e1: Exp, e2: Exp)
    requires Form(FE(fs, e2))
    ensures Form(PosConcat(p, fs, e1, e2))
  {
    ValForm(fs, e2);
    var d := Exp2Val(fs, e2);
    var x := Exp2NextReg(d.fs, d.e);
    ArithForm(p, x.fs, CConcat, e1, x.e);
    hide Exp2Val, Exp2NextReg, CodeArith;
  }

  lemma PosfixForm(p: Prims, fs: FS, op: BinOp, e1: Exp, e2: Exp)
    requires Form(FE(fs, e2))
    ensures Form(Posfix(p, fs, op, e1, e2))
  {
    match op
    case AndOp => VarsForm(fs.(asserts := fs.asserts && e1.t == []), e2);
    case OrOp => VarsForm(fs.(asserts := fs.asserts && e1.f == []), e2);
    case ConcatOp => ConcatForm(p, fs, e1, e2);
    case ArithOp(a) => ArithForm(p, fs, CArith(a), e1, e2);
    case _ =>
    hide DischargeVars, PosConcat, CodeArith, Exp2RK, FreeExp, CondJump;
  }

  lemma InfixForm(fs: FS, op: BinOp, e: Exp)
    requires Form(FE(fs, e))
    ensures Plainly(Infix(fs, op, e).e)
  {
    match op
    case AndOp =>
      VarsForm(fs, e);
      GoIfKind(fs, e, true);
    case OrOp =>
      VarsForm(fs, e);
      GoIfKind(fs, e, false);
    case ConcatOp => NextRegIn(fs, e);
    case _ => OperandForm(fs, e);
    hide DischargeVars, GoIfTrue, GoIfFalse, Exp2RK, Exp2NextReg;
  }

  lemma OperandForm(fs: FS, e: Exp)
    requires Form(FE(fs, e))
    ensures Plainly(Exp2RK(fs, e).e)
  {
    ValForm(fs, e);
    var d := Exp2Val(fs, e);
    AnyRegIn(d.fs, d.e);
    hide Exp2Val, Exp2AnyReg;
  }

  lemma IndexNext(fs: FS, t: Exp, key: Exp)
    requires Good(fs) && ExpGood(fs, t) && InReg(t) && ExpGood(fs, key) && Plainly(key)
    ensures NextExp(fs, Indexed(fs, t, key))
  {
    var d := Exp2RK(fs, key);
    RKNext(fs, key);
    RegIn(fs, t);
    RegStays(fs, d.fs, t.k.info);
    hide Good, Next, Exp2RK, Reg, Operand;
  }

  ghost predicate Compiled(fs: FS, r: FE) { NextExp(fs, r) && Form(r) }

  /** Whatever is compiled, the invariant holds, and generation fails only at a limit. */
  lemma {:induction false} CompileNext(p: Prims, fs: FS, x: Expr)
    requires Good(fs) && LocalsBelow(x, fs.nactvar)
    ensures Compiled(fs, Compile(p, fs, x))
    decreases x, 1
  {
    match x
    case EIndex(t, key) => CompileIndexNext(p, fs, t, key);
    case EParen(y) =>
      var a := Compile(p, fs, y);
      CompileNext(p, fs, y);
      NextGood(fs, a.fs);
      DischargeVarsNext(a.fs, a.e);
      VarsForm(a.fs, a.e);
      NextTrans(fs, a.fs, DischargeVars(a.fs, a.e).fs);
      hide Good, Next, ExpGood, DischargeVars, Form;
    case EUn(op, y) => CompileUnNext(p, fs, op, y);
    case EBin(op, l, r) => CompileBinNext(p, fs, op, l, r);
    case _ => LeafNext(p, fs, x);
  }

  lemma LeafNext(p: Prims, fs: FS, x: Expr)
    requires Good(fs) && LocalsBelow(x, fs.nactvar)
    requires !x.EIndex? && !x.EParen? && !x.EUn? && !x.EBin?
    ensures Compiled(fs, Compile(p, fs, x))
  {
    NextSelf(fs);
    match x
    case EStr(str) => AddKNext(fs, Str(str));
    case EGlobal(name) => AddKNext(fs, Str(name));
    case _ =>
    hide CodeFits;
  }

  lemma {:induction false} CompileUnNext(p: Prims, fs: FS, op: UnOp, y: Expr)
    requires Good(fs) && LocalsBelow(y, fs.nactvar)
    ensures Compiled(fs, Compile(p, fs, EUn(op, y)))
    decreases EUn(op, y), 0
  {
    var a := Compile(p, fs, y);
    CompileNext(p, fs, y);
    NextGood(fs, a.fs);
    PrefixNext(p, a.fs, op, a.e);
    PrefixForm(p, a.fs, op, a.e);
    NextTrans(fs, a.fs, Prefix(p, a.fs, op, a.e).fs);
    CompileUnIs(p, fs, op, y);
    hide Good, Next, ExpGood, Prefix, Compile, Unheld, Plainly;
  }

  lemma CompileUnIs(p: Prims, fs: FS, op: UnOp, y: Expr)
    ensures var a := Compile(p, fs, y); Compile(p, fs, EUn(op, y)) == Prefix(p, a.fs, op, a.e)
  {
    hide Exp2AnyReg, Exp2Val, Indexed, Infix, Posfix, Prefix, DischargeVars, AddK, Grows, Mono;
  }

  lemma PrefixForm(p: Prims, fs: FS, op: UnOp, e: Exp)
    requires Form(FE(fs, e))
    ensures Form(Prefix(p, fs, op, e))
  {
    var e2 := Init(VKNum(Real(0.0)));
    var d := if op == Minus && IsNumeral(e) then FE(fs, e) else Exp2AnyReg(fs, e);
    if op == Not { NotForm(fs, e); } else { ArithForm(p, d.fs, if op == Minus then CUnm else CLen, d.e, e2); }
    hide CodeNot, CodeArith, Exp2AnyReg, Form;
  }

  lemma {:induction false} TableNext(p: Prims, fs: FS, t: Expr)
    requires Good(fs) && LocalsBelow(t, fs.nactvar)
    ensures var a := Compile(p, fs, t); var b := Exp2AnyReg(a.fs, a.e);
            NextExp(fs, b) && InReg(b.e)
    decreases t, 2
  {
    var a := Compile(p, fs, t);
    CompileNext(p, fs, t);
    NextGood(fs, a.fs);
    AnyRegNext(a.fs, a.e);
    AnyRegIn(a.fs, a.e);
    NextTrans(fs, a.fs, Exp2AnyReg(a.fs, a.e).fs);
    hide Good, Next, ExpGood, Compile, Exp2AnyReg, Form;
  }

  lemma {:induction false} KeyNext(p: Prims, fs: FS, key: Expr)
    requires Good(fs) && LocalsBelow(key, fs.nactvar)
    ensures var c := Compile(p, fs, key); Compiled(fs, Exp2Val(c.fs, c.e))
    decreases key, 2
  {
    var c := Compile(p, fs, key);
    CompileNext(p, fs, key);
    NextGood(fs, c.fs);
    ValNext(c.fs, c.e);
    ValForm(c.fs, c.e);
    NextTrans(fs, c.fs, Exp2Val(c.fs, c.e).fs);
    hide Good, Next, ExpGood, Compile, Exp2Val, Unheld;
  }

  lemma {:induction false} CompileIndexNext(p: Prims, fs: FS, t: Expr, key: Expr)
    requires Good(fs) && LocalsBelow(t, fs.nactvar) && LocalsBelow(key, fs.nactvar)
    ensures Compiled(fs, Compile(p, fs, EIndex(t, key)))
    decreases EIndex(t, key), 0
  {
    var a := Compile(p, fs, t);
    var b := Exp2AnyReg(a.fs, a.e);
    TableNext(p, fs, t);
    NextGood(fs, b.fs);
    SameLocals(fs, b.fs);
    var c := Compile(p, b.fs, key);
    var d := Exp2Val(c.fs, c.e);
    KeyNext(p, b.fs, key);
    NextGood(b.fs, d.fs);
    ExpStays(b.fs, d.fs, b.e);
    IndexNext(d.fs, b.e, d.e);
    var r := Indexed(d.fs, b.e, d.e);
    NextTrans(fs, b.fs, d.fs);
    NextTrans(fs, d.fs, r.fs);
    IndexedForm(d.fs, b.e, d.e);
    CompileIndexIs(p, fs, t, key);
    hide Good, Next, ExpGood, Compile, Exp2AnyReg, Exp2Val, Indexed, Unheld, InReg;
  }

  lemma CompileIndexIs(p: Prims, fs: FS, t: Expr, key: Expr)
    ensures var a := Compile(p, fs, t); var b := Exp2AnyReg(a.fs, a.e); var c := Compile(p, b.fs, key);
            var d := Exp2Val(c.fs, c.e);
            Compile(p, fs, EIndex(t, key)) == Indexed(d.fs, b.e, d.e)
  {
    hide Exp2AnyReg, Exp2Val, Indexed, Infix, Posfix, Prefix, DischargeVars, AddK, Grows, Mono;
  }

  lemma IndexedForm(fs: FS, t: Exp, key: Exp)
    ensures Form(Indexed(fs, t, key))
  {
    hide Exp2RK;
  }

  lemma SameLocals(fs: FS, fs': FS)
    requires Next(fs, fs')
    ensures fs'.nactvar == fs.nactvar
  {}

  lemma {:induction false} LeftNext(p: Prims, fs: FS, op: BinOp, l: Expr)
    requires Good(fs) && LocalsBelow(l, fs.nactvar)
    ensures var a := Compile(p, fs, l); var b := Infix(a.fs, op, a.e);
            NextExp(fs, b) && Plainly(b.e) && (op == ConcatOp ==> InReg(b.e))
    decreases l, 2
  {
    var a := Compile(p, fs, l);
    CompileNext(p, fs, l);
    NextGood(fs, a.fs);
    InfixNext(a.fs, op, a.e);
    InfixForm(a.fs, op, a.e);
    NextTrans(fs, a.fs, Infix(a.fs, op, a.e).fs);
    hide Good, Next, ExpGood, Compile, Infix, Unheld, Plainly, InReg;
  }

  lemma {:induction false} RightNext(p: Prims, f0: FS, op: BinOp, b: FE, r: Expr)
    requires NextExp(f0, b) && Plainly(b.e) && (op == ConcatOp ==> InReg(b.e)) && LocalsBelow(r, f0.nactvar)
    ensures var c := Compile(p, b.fs, r); Compiled(f0, Posfix(p, c.fs, op, b.e, c.e))
    decreases r, 2
  {
    NextGood(f0, b.fs);
    SameLocals(f0, b.fs);
    var c := Compile(p, b.fs, r);
    CompileNext(p, b.fs, r);
    NextGood(b.fs, c.fs);
    ExpStays(b.fs, c.fs, b.e);
    PosfixNext(p, c.fs, op, b.e, c.e);
    PosfixForm(p, c.fs, op, b.e, c.e);
    NextTrans(f0, b.fs, c.fs);
    NextTrans(f0, c.fs, Posfix(p, c.fs, op, b.e, c.e).fs);
    hide Good, Next, ExpGood, Compile, Posfix, Unheld, Plainly, InReg;
  }

  lemma {:induction false} CompileBinNext(p: Prims, fs: FS, op: BinOp, l: Expr, r: Expr)
    requires Good(fs) && LocalsBelow(l, fs.nactvar) && LocalsBelow(r, fs.nactvar)
    ensures Compiled(fs, Compile(p, fs, EBin(op, l, r)))
    decreases EBin(op, l, r), 0
  {
    var a := Compile(p, fs, l);
    LeftNext(p, fs, op, l);
    RightNext(p, fs, op, Infix(a.fs, op, a.e), r);
    CompileBinIs(p, fs, op, l, r);
    hide Good, NextExp, Compile, Infix, Posfix, Compiled, Plainly, InReg;
  }

  lemma CompileBinIs(p: Prims, fs: FS, op: BinOp, l: Expr, r: Expr)
    ensures var a := Compile(p, fs, l); var b := Infix(a.fs, op, a.e); var c := Compile(p, b.fs, r);
            Compile(p, fs, EBin(op, l, r)) == Posfix(p, c.fs, op, b.e, c.e)
  {
    hide Exp2AnyReg, Exp2Val, Indexed, Infix, Posfix, Prefix, DischargeVars, AddK, Grows, Mono;
  }

  // ---------- a function ----------

  lemma OpenGood(n: nat)
    requires n < 250
    ensures Good(LuaProgram.OpenFunc(n))
  {}

  lemma ReturnNext(p: Prims, n: nat, x: Expr)
    requires n < 250 && LocalsBelow(x, n)
    ensures Next(LuaProgram.OpenFunc(n), LuaProgram.ReturnExpr(p, n, x))
  {
    var f0 := LuaProgram.OpenFunc(n);
    OpenGood(n);
    assert f0.nactvar == n;
    var a := Compile(p, f0, x);
    var d := Exp2AnyReg(a.fs, a.e);
    TableNext(p, f0, x);
    NextGood(f0, d.fs);
    ReturnCoded(d);
    NextTrans(f0, d.fs, Code(d.fs, IReturn(d.e.k.info, 2)));
    hide Good, Next, ExpGood, Compile, Exp2AnyReg, Code, LuaProgram.OpenFunc;
  }

  lemma ReturnCoded(d: FE)
    requires Good(d.fs) && ExpGood(d.fs, d.e) && InReg(d.e)
    ensures Next(d.fs, Code(d.fs, IReturn(d.e.k.info, 2)))
  {
    RegIn(d.fs, d.e);
    CodeNext(d.fs, IReturn(d.e.k.info, 2));
    hide Good, Next, Code;
  }

  /** The stack size of the function is at least the number of its parameters, and unless generation failed it is
      less than 250 and above every register that an instruction names, but for those of the pending tests. */
  lemma StackFits(p: Prims, n: nat, x: Expr)
    requires n < 250 && LocalsBelow(x, n) && LuaProgram.ReturnExpr(p, n, x).ok
    ensures var f := LuaProgram.ReturnExpr(p, n, x);
            2 <= f.maxstack < 250 && n <= f.maxstack && CodeFits(f.code, f.maxstack, true) && Distinct(f.k)
  {
    ReturnNext(p, n, x);
    AssertsHold(p, n, x);
    hide LuaProgram.ReturnExpr, CodeFits, Distinct;
  }

  lemma AssertsHold(p: Prims, n: nat, x: Expr)
    requires n < 250 && LocalsBelow(x, n) && LuaProgram.ReturnExpr(p, n, x).ok
    ensures LuaProgram.ReturnExpr(p, n, x).asserts
  {
    var fs := LuaProgram.OpenFunc(n);
    var a := Compile(p, fs, x);
    var d := Exp2AnyReg(a.fs, a.e);
    var regs := NilRange(map[], 0, MAXSTACK - 1);
    var c := Ctx(p, d.fs.k, 0, regs, [], false);
    assert FreshRegs(regs, n) && Entry(c, fs) && WF(fs);
    hide Compile, Exp2AnyReg, WF, Entry, Rep, Code;
    CompileRep(c, fs, x);
    Exp2AnyRegRep(c, fs, a.fs, a.e, x);
    RepFacts(c, fs, d.fs, d.e, x, -1);
    LuaRegisters.FactsOfWF(d.fs);
    CodeAsserts(d.fs, IReturn(if d.e.k.VNonReloc? then d.e.k.info else 0, 2));
  }

  lemma CodeAsserts(fs: FS, i: Instr)
    ensures Code(fs, i).asserts == fs.asserts
  {}

  /** Generation succeeds exactly within the limits of the source: less than 250 registers and at most 262143
      constants, as long as the code is short enough for its jumps. */
  lemma SucceedsIff(p: Prims, n: nat, x: Expr)
    requires n < 250 && LocalsBelow(x, n) && |LuaProgram.ReturnExpr(p, n, x).code| <= 131070
    ensures var f := LuaProgram.ReturnExpr(p, n, x); f.ok <==> f.maxstack < 250 && |f.k| <= 262143
  {
    ReturnNext(p, n, x);
    assert LuaProgram.OpenFunc(n).ok;
    hide LuaProgram.ReturnExpr, CodeFits;
  }

  /** No register of the code is still to be filled in. */
  lemma NoneOpen(code: seq<Instr>, m: int)
    requires CodeFits(code, m, true) && forall i :: !Pending(code, i)
    ensures forall i | 0 <= i < |code| :: InstrBelow(code[i], m, true)
  {
    forall i | 0 <= i < |code| ensures InstrBelow(code[i], m, true) { assert Fits(code, i, m, true); }
  }
}
