/** The instructions that expression code uses (lopcodes.h) and what the machine does with
    them (luaV_execute in lvm.c). */
module LuaOpcodes {
  import opened Wrappers
  import opened LuaValues

  const NO_JUMP: int := -1
  const MAXARG_sBx: int := 131071
  const MAXARG_Bx: int := 262143
  const BITRK: int := 256
  const MAXINDEXRK: int := 255

  datatype Instr =
    | IMove(a: int, b: int)
    | ILoadK(a: int, bx: int)
    | ILoadBool(a: int, value: bool, skip: bool)
    | ILoadNil(a: int, b: int)
    | IGetUpval(a: int, b: int)
    | IGetGlobal(a: int, bx: int)
    | IGetTable(a: int, b: int, c: int)
    | IArith(op: ArithOp, a: int, b: int, c: int)
    | IUnm(a: int, b: int)
    | INot(a: int, b: int)
    | ILen(a: int, b: int)
    | IConcat(a: int, b: int, c: int)
    | IJmp(sbx: int)
    | ICmp(cmp: CmpOp, cond: bool, b: int, c: int)
    | ITest(a: int, cond: bool)
    | ITestSet(a: int, b: int, cond: bool)
    | IReturn(a: int, b: int)

  /** testTMode: the instructions that decide whether to take the jump that follows them. */
  predicate IsTest(i: Instr) {
    i.ICmp? || i.ITest? || i.ITestSet?
  }

  /** A jump whose target is not known yet. */
  predicate Pending(code: seq<Instr>, n: int) {
    0 <= n < |code| && code[n] == IJmp(NO_JUMP)
  }

  /** Instructions that only compute: they go on to the next one. */
  predicate Plain(i: Instr) {
    !IsTest(i) && !i.IJmp? && !i.IReturn? && !(i.ILoadBool? && i.skip)
  }

  predicate IsK(rk: int) { rk >= BITRK }

  function KAt(k: seq<Value>, i: int): Value {
    if 0 <= i < |k| then k[i] else Nil
  }

  function RK(k: seq<Value>, r: Regs, rk: int): Value {
    if IsK(rk) then KAt(k, rk - BITRK) else Get(r, rk)
  }

  /** luaV_concat: registers b..c, joined from the right. */
  function ConcatRange(p: Prims, r: Regs, b: int, c: int, h: History): Outcome
    decreases c - b
  {
    if b >= c then Outcome(Get(r, c), h)
    else
      var o := ConcatRange(p, r, b + 1, c, h);
      Perform(p, Concat(Get(r, b), o.v), o.h)
  }

  /** The value a register-setting instruction computes. */
  function Computes(p: Prims, k: seq<Value>, i: Instr, r: Regs, h: History): Outcome {
    match i
    case IMove(_, b) => Outcome(Get(r, b), h)
    case ILoadK(_, bx) => Outcome(KAt(k, bx), h)
    case ILoadBool(_, v, _) => Outcome(Bool(v), h)
    case IGetUpval(_, b) => Perform(p, GetUpvalue(b), h)
    case IGetGlobal(_, bx) => Perform(p, GetGlobal(KAt(k, bx)), h)
    case IGetTable(_, b, c) => Perform(p, GetTable(Get(r, b), RK(k, r, c)), h)
    case IArith(op, _, b, c) => DoArith(p, op, RK(k, r, b), RK(k, r, c), h)
    case IUnm(_, b) => DoNegate(p, Get(r, b), h)
    case INot(_, b) => Outcome(Bool(!Truthy(Get(r, b))), h)
    case ILen(_, b) => Perform(p, Length(Get(r, b)), h)
    case IConcat(_, b, c) => ConcatRange(p, r, b, c, h)
    case _ => Outcome(Nil, h)
  }

  datatype RegsAnd = RegsAnd(r: Regs, h: History)

  /** What a plain instruction does to the registers and the world. */
  function Effect(p: Prims, k: seq<Value>, i: Instr, r: Regs, h: History): RegsAnd {
    match i
    case ILoadNil(a, b) => RegsAnd(NilRange(r, a, b), h)
    case IJmp(_) => RegsAnd(r, h)
    case ICmp(_, _, _, _) => RegsAnd(r, h)
    case IReturn(_, _) => RegsAnd(r, h)
    case _ =>
      var o := Computes(p, k, i, r, h);
      RegsAnd(r[i.a := o.v], o.h)
  }

  /** Whether a test lets the following jump happen. */
  function Taken(p: Prims, k: seq<Value>, i: Instr, r: Regs, h: History): bool
    requires IsTest(i)
  {
    match i
    case ICmp(op, cond, b, c) => DoCompare(p, op, RK(k, r, b), RK(k, r, c), h).v == Bool(cond)
    case ITest(a, cond) => Truthy(Get(r, a)) == cond
    case ITestSet(_, b, cond) => Truthy(Get(r, b)) == cond
  }

  function TestHistory(p: Prims, k: seq<Value>, i: Instr, r: Regs, h: History): History
    requires IsTest(i)
  {
    if i.ICmp? then DoCompare(p, i.cmp, RK(k, r, i.b), RK(k, r, i.c), h).h else h
  }

  // ---------- the machine ----------

  datatype Machine = Machine(pc: int, r: Regs, h: History)

  /** One instruction of luaV_execute. A test that succeeds performs the jump that follows it. */
  function Step(p: Prims, k: seq<Value>, code: seq<Instr>, m: Machine): Option<Machine> {
    if !(0 <= m.pc < |code|) then None
    else
      var i := code[m.pc];
      if i.IReturn? then None
      else if i.IJmp? then Some(m.(pc := m.pc + 1 + i.sbx))
      else if i.ILoadBool? then
        Some(Machine(m.pc + (if i.skip then 2 else 1), m.r[i.a := Bool(i.value)], m.h))
      else if IsTest(i) then
        var h := TestHistory(p, k, i, m.r, m.h);
        if !Taken(p, k, i, m.r, m.h) then Some(Machine(m.pc + 2, m.r, h))
        else if m.pc + 1 < |code| && code[m.pc + 1].IJmp? then
          var r := if i.ITestSet? then m.r[i.a := Get(m.r, i.b)] else m.r;
          Some(Machine(m.pc + 2 + code[m.pc + 1].sbx, r, h))
        else None
      else
        var e := Effect(p, k, i, m.r, m.h);
        Some(Machine(m.pc + 1, e.r, e.h))
  }

  /** n steps; None once the machine has stopped. */
  function Steps(p: Prims, k: seq<Value>, code: seq<Instr>, m: Machine, n: nat): Option<Machine>
    decreases n
  {
    if n == 0 then Some(m)
    else
      match Step(p, k, code, m)
      case None => None
      case Some(m') => Steps(p, k, code, m', n - 1)
  }
}
