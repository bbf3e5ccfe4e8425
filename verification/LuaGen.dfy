/** The code generator of lcode.c on values: the state of a function being compiled is a record,
    and a jump list is the sequence of its nodes. Class FuncState (LuaFuncState.dfy) threads the
    same lists through the instructions and is proved against these functions. */
module LuaGen {
  import opened Wrappers
  import opened LuaValues
  import opened LuaLimits
  import opened LuaOpcodes

  /** `ok` turns false where the source raises "too complex", "too long" or "overflow" and longjmps
      away: whatever follows is then without meaning. `clean` turns false when an always-taken jump
      is coded while a jump that carries a value is held back. `asserts` turns false when an
      assertion of the source fails. */
  datatype FS = FS(
    code: seq<Instr>,
    jpc: seq<int>,
    lasttarget: int,
    freereg: int,
    nactvar: int,
    k: seq<Value>,
    maxstack: int,
    ok: bool,
    clean: bool,
    asserts: bool)

  datatype Kind =
    | VNil | VTrue | VFalse
    | VK(info: int)
    | VKNum(nval: Literal)
    | VLocal(info: int)
    | VUpval(info: int)
    | VGlobal(info: int)
    | VIndexed(info: int, aux: int)
    | VJmp(info: int)
    | VReloc(info: int)
    | VNonReloc(info: int)

  datatype Exp = Exp(k: Kind, t: seq<int>, f: seq<int>)

  datatype FE = FE(fs: FS, e: Exp)
  datatype FL = FL(fs: FS, list: seq<int>)
  datatype FI = FI(fs: FS, i: int)
  datatype FEI = FEI(fs: FS, e: Exp, i: int)

  function Init(k: Kind): Exp { Exp(k, [], []) }

  predicate Disjoint(l1: seq<int>, l2: seq<int>) {
    forall n | n in l1 :: n !in l2
  }

  predicate HasJumps(e: Exp) { e.t != [] || e.f != [] }

  predicate IsNumeral(e: Exp) { e.k.VKNum? && e.t == [] && e.f == [] }

  /** Generating code only adds constants, and what has failed stays failed. */
  predicate Grows(fs: FS, fs': FS) {
    && fs.k <= fs'.k && fs.nactvar == fs'.nactvar
    && (fs'.ok ==> fs.ok) && (fs'.clean ==> fs.clean) && (fs'.asserts ==> fs.asserts)
  }

  /** Grows, without coding an always-taken jump for a constant. */
  predicate Mono(fs: FS, fs': FS) {
    Grows(fs, fs') && fs'.clean == fs.clean
  }

  // ---------- jump lists ----------

  /** fixjump's range check. */
  predicate InRange(pc: int, dest: int) {
    -MAXARG_sBx <= dest - (pc + 1) <= MAXARG_sBx
  }

  /** The jump at n carries the value of a register: its control is a TESTSET. */
  predicate Carries(code: seq<Instr>, n: int) {
    1 <= n <= |code| && code[n - 1].ITestSet?
  }

  /** What patchlistaux(list, vtarget, reg, dtarget) makes of instruction i. */
  function PatchInstr(code: seq<Instr>, list: seq<int>, vtarget: int, reg: int, dtarget: int, i: int): Instr
    requires 0 <= i < |code|
  {
    if i in list && code[i].IJmp? then
      IJmp((if Carries(code, i) then vtarget else dtarget) - (i + 1))
    else if i + 1 in list && code[i].ITestSet? then
      if reg != NO_REG && reg != code[i].b then ITestSet(reg, code[i].b, code[i].cond)
      else ITest(code[i].b, code[i].cond)
    else code[i]
  }

  function Patch(code: seq<Instr>, list: seq<int>, vtarget: int, reg: int, dtarget: int): (c: seq<Instr>)
    ensures |c| == |code|
    ensures forall i | 0 <= i < |c| :: c[i] == PatchInstr(code, list, vtarget, reg, dtarget, i)
  {
    seq(|code|, i requires 0 <= i < |code| => PatchInstr(code, list, vtarget, reg, dtarget, i))
  }

  predicate PatchInRange(code: seq<Instr>, list: seq<int>, vtarget: int, dtarget: int) {
    forall n | n in list :: InRange(n, if Carries(code, n) then vtarget else dtarget)
  }

  function PatchList(fs: FS, list: seq<int>, vtarget: int, reg: int, dtarget: int): (res: FS)
    ensures Mono(fs, res)
  {
    fs.(code := Patch(fs.code, list, vtarget, reg, dtarget),
        ok := fs.ok && PatchInRange(fs.code, list, vtarget, dtarget))
  }

  function DischargeJpc(fs: FS): (res: FS)
    ensures Mono(fs, res)
  {
    PatchList(fs, fs.jpc, |fs.code|, NO_REG, |fs.code|).(jpc := [])
  }

  function Code(fs: FS, i: Instr): (res: FS)
    ensures Mono(fs, res)
  {
    var d := DischargeJpc(fs);
    d.(code := d.code + [i])
  }

  function GetLabel(fs: FS): (res: FS)
    ensures Mono(fs, res)
  {
    fs.(lasttarget := |fs.code|)
  }

  function Join(fs: FS, l1: seq<int>, l2: seq<int>): (res: FL)
    ensures Mono(fs, res.fs)
  {
    if l1 == [] || l2 == [] then FL(fs, l1 + l2)
    else FL(fs.(ok := fs.ok && InRange(l1[|l1| - 1], l2[0])), l1 + l2)
  }

  function PatchToHere(fs: FS, list: seq<int>): (res: FS)
    ensures Mono(fs, res)
  {
    var j := Join(GetLabel(fs), fs.jpc, list);
    j.fs.(jpc := j.list)
  }

  function Jump(fs: FS): (res: FL)
    ensures Mono(fs, res.fs)
  {
    var f := Code(fs.(jpc := []), IJmp(NO_JUMP));
    Join(f, [|fs.code|], fs.jpc)
  }

  function CondJump(fs: FS, i: Instr): (res: FL)
    ensures Mono(fs, res.fs)
  {
    Jump(Code(fs, i))
  }

  /** need_value: some jump of the list does not carry a value. */
  predicate NeedValue(code: seq<Instr>, list: seq<int>) {
    exists n | n in list :: !Carries(code, n)
  }

  /** Some jump of the list carries a value. */
  predicate AnyCarries(code: seq<Instr>, list: seq<int>) {
    exists n | n in list :: Carries(code, n)
  }

  function StripInstr(code: seq<Instr>, list: seq<int>, i: int): Instr
    requires 0 <= i < |code|
  {
    if i + 1 in list && code[i].ITestSet? then ITest(code[i].b, code[i].cond) else code[i]
  }

  function RemoveValues(fs: FS, list: seq<int>): (fs': FS)
    ensures Mono(fs, fs')
    ensures |fs'.code| == |fs.code|
    ensures forall i | 0 <= i < |fs.code| :: fs'.code[i] == StripInstr(fs.code, list, i)
  {
    fs.(code := seq(|fs.code|, i requires 0 <= i < |fs.code| => StripInstr(fs.code, list, i)))
  }

  // ---------- registers and constants ----------

  function ReserveRegs(fs: FS, n: int): (res: FS)
    ensures Mono(fs, res)
  {
    var newstack := fs.freereg + n;
    fs.(freereg := newstack,
        maxstack := if newstack > fs.maxstack then newstack else fs.maxstack,
        ok := fs.ok && (newstack > fs.maxstack ==> newstack < MAXSTACK))
  }

  function FreeReg(fs: FS, reg: int): (res: FS)
    ensures Mono(fs, res)
  {
    if !IsK(reg) && reg >= fs.nactvar then
      fs.(freereg := fs.freereg - 1, asserts := fs.asserts && reg == fs.freereg - 1)
    else fs
  }

  function FreeExp(fs: FS, e: Exp): (res: FS)
    ensures Mono(fs, res)
  {
    if e.k.VNonReloc? then FreeReg(fs, e.k.info) else fs
  }

  /** The first position of v in k, or |k|. */
  function IndexOf(k: seq<Value>, v: Value): (i: int)
    ensures 0 <= i <= |k|
    ensures i < |k| ==> k[i] == v
    ensures forall j | 0 <= j < i :: k[j] != v
  {
    if |k| == 0 then 0
    else
      var i := IndexOf(k[..|k| - 1], v);
      if i < |k| - 1 || k[|k| - 1] == v then i else |k|
  }

  function AddK(fs: FS, v: Value): (res: FI)
    ensures Mono(fs, res.fs)
  {
    var i := IndexOf(fs.k, v);
    if i < |fs.k| then FI(fs, i)
    else FI(fs.(k := fs.k + [v], ok := fs.ok && |fs.k| < MAXARG_Bx), i)
  }

  // ---------- discharging ----------

  function Nils(fs: FS, from: int, n: int): (res: FS)
    ensures Mono(fs, res)
  {
    if |fs.code| > fs.lasttarget && |fs.code| == 0 && from >= fs.nactvar then fs
    else if |fs.code| > fs.lasttarget && |fs.code| > 0 && fs.code[|fs.code| - 1].ILoadNil?
            && fs.code[|fs.code| - 1].a <= from <= fs.code[|fs.code| - 1].b + 1 then
      var last := fs.code[|fs.code| - 1];
      if from + n - 1 > last.b then
        fs.(code := fs.code[|fs.code| - 1 := ILoadNil(last.a, from + n - 1)])
      else fs
    else Code(fs, ILoadNil(from, from + n - 1))
  }

  function DischargeVars(fs: FS, e: Exp): (res: FE)
    ensures Mono(fs, res.fs)
  {
    match e.k
    case VLocal(r) => FE(fs, e.(k := VNonReloc(r)))
    case VUpval(i) => FE(Code(fs, IGetUpval(0, i)), e.(k := VReloc(|fs.code|)))
    case VGlobal(i) => FE(Code(fs, IGetGlobal(0, i)), e.(k := VReloc(|fs.code|)))
    case VIndexed(t, aux) =>
      var f := FreeReg(FreeReg(fs, aux), t);
      FE(Code(f, IGetTable(0, t, aux)), e.(k := VReloc(|fs.code|)))
    case _ => FE(fs, e)
  }

  function CodeLabel(fs: FS, a: int, b: bool, skip: bool): (res: FS)
    ensures Mono(fs, res)
  {
    Code(GetLabel(fs), ILoadBool(a, b, skip))
  }

  function SetA(i: Instr, a: int): Instr {
    match i
    case IGetUpval(_, b) => IGetUpval(a, b)
    case IGetGlobal(_, bx) => IGetGlobal(a, bx)
    case IGetTable(_, b, c) => IGetTable(a, b, c)
    case IArith(op, _, b, c) => IArith(op, a, b, c)
    case IUnm(_, b) => IUnm(a, b)
    case INot(_, b) => INot(a, b)
    case ILen(_, b) => ILen(a, b)
    case IConcat(_, b, c) => IConcat(a, b, c)
    case _ => i
  }

  function DischargeValue(fs: FS, k: Kind, reg: int): (res: FS)
    ensures Mono(fs, res)
  {
    match k
    case VNil => Nils(fs, reg, 1)
    case VFalse => Code(fs, ILoadBool(reg, false, false))
    case VTrue => Code(fs, ILoadBool(reg, true, false))
    case VK(i) => Code(fs, ILoadK(reg, i))
    case VKNum(n) =>
      var a := AddK(fs, Num(n));
      Code(a.fs, ILoadK(reg, a.i))
    case VReloc(pc) =>
      if 0 <= pc < |fs.code| then fs.(code := fs.code[pc := SetA(fs.code[pc], reg)]) else fs
    case VNonReloc(r) => if reg != r then Code(fs, IMove(reg, r)) else fs
    case _ => fs
  }

  function Discharge2Reg(fs: FS, e: Exp, reg: int): (res: FE)
    ensures Mono(fs, res.fs)
  {
    var d := DischargeVars(fs, e);
    if d.e.k.VJmp? then d
    else FE(DischargeValue(d.fs, d.e.k, reg), d.e.(k := VNonReloc(reg)))
  }

  function Discharge2AnyReg(fs: FS, e: Exp): (res: FE)
    ensures Mono(fs, res.fs)
  {
    if e.k.VNonReloc? then FE(fs, e)
    else
      var f := ReserveRegs(fs, 1);
      Discharge2Reg(f, e, f.freereg - 1)
  }

  /** The LOADBOOL pair that exp2reg adds when some jump of the lists carries no value. */
  function LoadBools(fs: FS, isJmp: bool, reg: int): (res: FS)
    ensures Mono(fs, res)
  {
    var j := if isJmp then FL(fs, []) else Jump(fs);
    PatchToHere(CodeLabel(CodeLabel(j.fs, reg, false, true), reg, true, false), j.list)
  }

  function CloseLists(fs: FS, isJmp: bool, t: seq<int>, f: seq<int>, reg: int): (res: FS)
    ensures Mono(fs, res)
  {
    if t == [] && f == [] then fs
    else
      var need := NeedValue(fs.code, t) || NeedValue(fs.code, f);
      var f1 := GetLabel(if need then LoadBools(fs, isJmp, reg) else fs);
      var final := |f1.code|;
      var p_f := if need then final - 2 else NO_JUMP;
      var p_t := if need then final - 1 else NO_JUMP;
      PatchList(PatchList(f1, f, final, reg, p_f), t, final, reg, p_t)
  }

  function Exp2Reg(fs: FS, e: Exp, reg: int): (res: FE)
    ensures Mono(fs, res.fs)
  {
    var d := Discharge2Reg(fs, e, reg);
    var j := if d.e.k.VJmp? then Join(d.fs, d.e.t, [d.e.k.info]) else FL(d.fs, d.e.t);
    FE(CloseLists(j.fs, d.e.k.VJmp?, j.list, d.e.f, reg), Init(VNonReloc(reg)))
  }

  /** luaK_storevar for an active local. */
  function StoreLocal(fs: FS, local: int, e: Exp): FS {
    Exp2Reg(FreeExp(fs, e), e, local).fs
  }

  function Exp2NextReg(fs: FS, e: Exp): (res: FE)
    ensures Mono(fs, res.fs)
  {
    var d := DischargeVars(fs, e);
    var f := ReserveRegs(FreeExp(d.fs, d.e), 1);
    Exp2Reg(f, d.e, f.freereg - 1)
  }

  function Exp2AnyReg(fs: FS, e: Exp): (res: FE)
    ensures Mono(fs, res.fs)
  {
    var d := DischargeVars(fs, e);
    if d.e.k.VNonReloc? && !HasJumps(d.e) then d
    else if d.e.k.VNonReloc? && d.e.k.info >= d.fs.nactvar then Exp2Reg(d.fs, d.e, d.e.k.info)
    else Exp2NextReg(d.fs, d.e)
  }

  function Exp2Val(fs: FS, e: Exp): (res: FE)
    ensures Mono(fs, res.fs)
  {
    if HasJumps(e) then Exp2AnyReg(fs, e) else DischargeVars(fs, e)
  }

  /** The constant that a descriptor stands for when it can be an operand by itself. */
  function ConstOf(k: Kind): Option<Value> {
    match k
    case VKNum(n) => Some(Num(n))
    case VTrue => Some(Bool(true))
    case VFalse => Some(Bool(false))
    case VNil => Some(Nil)
    case _ => None
  }

  function Exp2RK(fs: FS, e: Exp): (res: FEI)
    ensures Mono(fs, res.fs)
  {
    var d := Exp2Val(fs, e);
    if ConstOf(d.e.k).Some? && |d.fs.k| <= MAXINDEXRK then
      var a := AddK(d.fs, ConstOf(d.e.k).value);
      FEI(a.fs, d.e.(k := VK(a.i)), a.i + BITRK)
    else if d.e.k.VK? && d.e.k.info <= MAXINDEXRK then FEI(d.fs, d.e, d.e.k.info + BITRK)
    else
      var r := Exp2AnyReg(d.fs, d.e);
      FEI(r.fs, r.e, if r.e.k.VNonReloc? then r.e.k.info else 0)
  }

  // ---------- conditions ----------

  function InvertJump(fs: FS, info: int): (res: FS)
    ensures Mono(fs, res)
  {
    if 1 <= info <= |fs.code| && fs.code[info - 1].ICmp? then
      var i := fs.code[info - 1];
      fs.(code := fs.code[info - 1 := ICmp(i.cmp, !i.cond, i.b, i.c)])
    else fs.(asserts := false)
  }

  function JumpOnCond(fs: FS, e: Exp, cond: bool): (res: FL)
    ensures Mono(fs, res.fs)
  {
    if e.k.VReloc? && |fs.code| > 0 && fs.code[|fs.code| - 1].INot? then
      var last := fs.code[|fs.code| - 1];
      CondJump(fs.(code := fs.code[..|fs.code| - 1]), ITest(last.b, !cond))
    else
      var d := Discharge2AnyReg(fs, e);
      CondJump(FreeExp(d.fs, d.e), ITestSet(NO_REG, if d.e.k.VNonReloc? then d.e.k.info else 0, cond))
  }

  /** An always-taken jump, coded for a constant operand of and/or. */
  function AlwaysJump(fs: FS): (res: FL)
    ensures Grows(fs, res.fs)
  {
    Jump(fs.(clean := fs.clean && !AnyCarries(fs.code, fs.jpc)))
  }

  function GoIfTrue(fs: FS, e: Exp): (res: FE)
    ensures Grows(fs, res.fs)
  {
    var d := DischargeVars(fs, e);
    var j := match d.e.k
      case VK(_) => FL(d.fs, [])
      case VKNum(_) => FL(d.fs, [])
      case VTrue => FL(d.fs, [])
      case VFalse => AlwaysJump(d.fs)
      case VJmp(info) => FL(InvertJump(d.fs, info), [info])
      case _ => JumpOnCond(d.fs, d.e, false);
    var l := Join(j.fs, d.e.f, j.list);
    FE(PatchToHere(l.fs, d.e.t), Exp(d.e.k, [], l.list))
  }

  function GoIfFalse(fs: FS, e: Exp): (res: FE)
    ensures Grows(fs, res.fs)
  {
    var d := DischargeVars(fs, e);
    var j := match d.e.k
      case VNil => FL(d.fs, [])
      case VFalse => FL(d.fs, [])
      case VTrue => AlwaysJump(d.fs)
      case VJmp(info) => FL(d.fs, [info])
      case _ => JumpOnCond(d.fs, d.e, true);
    var l := Join(j.fs, d.e.t, j.list);
    FE(PatchToHere(l.fs, d.e.f), Exp(d.e.k, l.list, []))
  }

  function ExitOf(e: Exp, sense: bool): seq<int> { if sense then e.f else e.t }

  function StayOf(e: Exp, sense: bool): seq<int> { if sense then e.t else e.f }

  /** A constant whose truth is known. */
  predicate ConstantIs(k: Kind, sense: bool) {
    if sense then k.VK? || k.VKNum? || k.VTrue? else k.VNil? || k.VFalse?
  }

  /** luaK_goiftrue and luaK_goiffalse. */
  function GoIf(fs: FS, e: Exp, sense: bool): FE {
    if sense then GoIfTrue(fs, e) else GoIfFalse(fs, e)
  }

  function Decide(fs: FS, e: Exp, sense: bool): (res: FL)
    ensures Grows(fs, res.fs)
  {
    if ConstantIs(e.k, sense) then FL(fs, [])
    else if e.k == (if sense then VFalse else VTrue) then AlwaysJump(fs)
    else if e.k.VJmp? then FL(if sense then InvertJump(fs, e.k.info) else fs, [e.k.info])
    else JumpOnCond(fs, e, !sense)
  }

  lemma GoIfShape(fs: FS, e: Exp, sense: bool)
    ensures var d := DischargeVars(fs, e); var j := Decide(d.fs, d.e, sense);
            var l := Join(j.fs, ExitOf(d.e, sense), j.list);
            var g := GoIf(fs, e, sense);
            && g.fs == PatchToHere(l.fs, StayOf(d.e, sense))
            && ExitOf(g.e, sense) == l.list && StayOf(g.e, sense) == []
  {
    hide DischargeVars, Join, PatchToHere, AlwaysJump, InvertJump, JumpOnCond;
  }

  function NotKind(fs: FS, e: Exp): (res: FE)
    ensures Mono(fs, res.fs)
  {
    match e.k
    case VNil => FE(fs, e.(k := VTrue))
    case VFalse => FE(fs, e.(k := VTrue))
    case VK(_) => FE(fs, e.(k := VFalse))
    case VKNum(_) => FE(fs, e.(k := VFalse))
    case VTrue => FE(fs, e.(k := VFalse))
    case VJmp(info) => FE(InvertJump(fs, info), e)
    case _ =>
      var d := Discharge2AnyReg(fs, e);
      var f := FreeExp(d.fs, d.e);
      FE(Code(f, INot(0, if d.e.k.VNonReloc? then d.e.k.info else 0)), d.e.(k := VReloc(|f.code|)))
  }

  function CodeNot(fs: FS, e: Exp): (res: FE)
    ensures Mono(fs, res.fs)
  {
    var d := DischargeVars(fs, e);
    var n := NotKind(d.fs, d.e);
    FE(RemoveValues(RemoveValues(n.fs, n.e.t), n.e.f), Exp(n.e.k, n.e.f, n.e.t))
  }

  // ---------- operators ----------

  datatype CodeOp = CArith(op: ArithOp) | CUnm | CLen | CConcat

  /** No division by zero, and no NaN. */
  function Folded(p: Prims, op: ArithOp, l: Literal, r: Literal): Option<Literal> {
    if (op == Div || op == Mod) && r == Real(0.0) then None
    else
      var n := p.num(op, l, r);
      if n.NaN? then None else Some(n)
  }

  function FoldConstants(p: Prims, op: CodeOp, e1: Exp, e2: Exp): Option<Literal> {
    if !IsNumeral(e1) || !IsNumeral(e2) then None
    else match op
      case CArith(a) => Folded(p, a, e1.k.nval, e2.k.nval)
      case CUnm => Some(p.neg(e1.k.nval))
      case _ => None
  }

  function OpInstr(op: CodeOp, o1: int, o2: int): Instr {
    match op
    case CArith(a) => IArith(a, 0, o1, o2)
    case CUnm => IUnm(0, o1)
    case CLen => ILen(0, o1)
    case CConcat => IConcat(0, o1, o2)
  }

  predicate Unary(op: CodeOp) { op == CUnm || op == CLen }

  function FreeExps(fs: FS, e1: Exp, o1: int, e2: Exp, o2: int): (res: FS)
    ensures Mono(fs, res)
  {
    if o1 > o2 then FreeExp(FreeExp(fs, e1), e2) else FreeExp(FreeExp(fs, e2), e1)
  }

  function CodeArith(p: Prims, fs: FS, op: CodeOp, e1: Exp, e2: Exp): (res: FE)
    ensures Mono(fs, res.fs)
  {
    match FoldConstants(p, op, e1, e2)
    case Some(r) => FE(fs, e1.(k := VKNum(r)))
    case None =>
      var d2 := if Unary(op) then FEI(fs, e2, 0) else Exp2RK(fs, e2);
      var d1 := Exp2RK(d2.fs, e1);
      var f := FreeExps(d1.fs, d1.e, d1.i, d2.e, d2.i);
      FE(Code(f, OpInstr(op, d1.i, d2.i)), d1.e.(k := VReloc(|f.code|)))
  }

  function CodeComp(fs: FS, op: CmpOp, cond: bool, e1: Exp, e2: Exp): (res: FE)
    ensures Mono(fs, res.fs)
  {
    var d1 := Exp2RK(fs, e1);
    var d2 := Exp2RK(d1.fs, e2);
    var f := FreeExp(FreeExp(d2.fs, d2.e), d1.e);
    var i := if !cond && op != Eq then ICmp(op, true, d2.i, d1.i) else ICmp(op, cond, d1.i, d2.i);
    var j := CondJump(f, i);
    FE(j.fs, d1.e.(k := VJmp(|f.code| + 1)))
  }

  function Prefix(p: Prims, fs: FS, op: UnOp, e: Exp): (res: FE)
    ensures Mono(fs, res.fs)
  {
    var e2 := Init(VKNum(Real(0.0)));
    match op
    case Minus =>
      var d := if IsNumeral(e) then FE(fs, e) else Exp2AnyReg(fs, e);
      CodeArith(p, d.fs, CUnm, d.e, e2)
    case Not => CodeNot(fs, e)
    case Len =>
      var d := Exp2AnyReg(fs, e);
      CodeArith(p, d.fs, CLen, d.e, e2)
  }

  function Infix(fs: FS, op: BinOp, e: Exp): (res: FE)
    ensures Grows(fs, res.fs)
  {
    match op
    case AndOp => GoIfTrue(fs, e)
    case OrOp => GoIfFalse(fs, e)
    case ConcatOp => Exp2NextReg(fs, e)
    case ArithOp(_) =>
      if IsNumeral(e) then FE(fs, e)
      else
        var d := Exp2RK(fs, e);
        FE(d.fs, d.e)
    case _ =>
      var d := Exp2RK(fs, e);
      FE(d.fs, d.e)
  }

  function PosConcat(p: Prims, fs: FS, e1: Exp, e2: Exp): (res: FE)
    ensures Mono(fs, res.fs)
  {
    var d := Exp2Val(fs, e2);
    var n := |d.fs.code|;
    if d.e.k.VReloc? && n > 0 && d.fs.code[n - 1].IConcat? then
      var last := d.fs.code[n - 1];
      var r := if e1.k.VNonReloc? then e1.k.info else 0;
      var f := FreeExp(d.fs.(asserts := d.fs.asserts && e1.k == VNonReloc(last.b - 1)), e1);
      FE(f.(code := f.code[n - 1 := IConcat(last.a, r, last.c)]), e1.(k := d.e.k))
    else
      var x := Exp2NextReg(d.fs, d.e);
      CodeArith(p, x.fs, CConcat, e1, x.e)
  }

  function Posfix(p: Prims, fs: FS, op: BinOp, e1: Exp, e2: Exp): (res: FE)
    ensures Mono(fs, res.fs)
  {
    match op
    case AndOp =>
      var d := DischargeVars(fs.(asserts := fs.asserts && e1.t == []), e2);
      var l := Join(d.fs, d.e.f, e1.f);
      FE(l.fs, d.e.(f := l.list))
    case OrOp =>
      var d := DischargeVars(fs.(asserts := fs.asserts && e1.f == []), e2);
      var l := Join(d.fs, d.e.t, e1.t);
      FE(l.fs, d.e.(t := l.list))
    case ConcatOp => PosConcat(p, fs, e1, e2)
    case ArithOp(a) => CodeArith(p, fs, CArith(a), e1, e2)
    case EqOp => CodeComp(fs, Eq, true, e1, e2)
    case NeOp => CodeComp(fs, Eq, false, e1, e2)
    case LtOp => CodeComp(fs, Lt, true, e1, e2)
    case LeOp => CodeComp(fs, Le, true, e1, e2)
    case GtOp => CodeComp(fs, Lt, false, e1, e2)
    case GeOp => CodeComp(fs, Le, false, e1, e2)
  }

  function Indexed(fs: FS, t: Exp, key: Exp): (res: FE)
    ensures Mono(fs, res.fs)
  {
    var d := Exp2RK(fs, key);
    FE(d.fs, t.(k := VIndexed(if t.k.VNonReloc? then t.k.info else 0, d.i)))
  }

  // ---------- the parser's calls ----------

  /** The calls that subexpr, primaryexp and simpleexp (lparser.c) make for an expression. */
  function Compile(p: Prims, fs: FS, x: Expr): (res: FE)
    ensures Grows(fs, res.fs)
    decreases x
  {
    match x
    case ENil => FE(fs, Init(VNil))
    case ETrue => FE(fs, Init(VTrue))
    case EFalse => FE(fs, Init(VFalse))
    case ENum(n) => FE(fs, Init(VKNum(n)))
    case EStr(s) =>
      var a := AddK(fs, Str(s));
      FE(a.fs, Init(VK(a.i)))
    case ELocal(r) => FE(fs, Init(VLocal(r)))
    case EUpval(i) => FE(fs, Init(VUpval(i)))
    case EGlobal(name) =>
      var a := AddK(fs, Str(name));
      FE(a.fs, Init(VGlobal(a.i)))
    case EIndex(t, key) =>
      var a := Compile(p, fs, t);
      var b := Exp2AnyReg(a.fs, a.e);
      var c := Compile(p, b.fs, key);
      var d := Exp2Val(c.fs, c.e);
      Indexed(d.fs, b.e, d.e)
    case EParen(y) =>
      var a := Compile(p, fs, y);
      DischargeVars(a.fs, a.e)
    case EUn(op, y) =>
      var a := Compile(p, fs, y);
      Prefix(p, a.fs, op, a.e)
    case EBin(op, l, r) =>
      var a := Compile(p, fs, l);
      var b := Infix(a.fs, op, a.e);
      var c := Compile(p, b.fs, r);
      Posfix(p, c.fs, op, b.e, c.e)
  }
}
