/** Lua values, the primitive operations of the machine, and the meaning of expressions
    (section 2.5 of the Lua 5.1 Reference Manual). */
module LuaValues {

  /** Negative zero is not told from zero. */
  datatype Number = Real(r: real) | Infinite(negative: bool) | NaN

  /** What can be written in a program, or kept as a constant. */
  type Literal = n: Number | !n.NaN? witness Real(0.0)

  /** Tables, functions and userdata matter here only by identity. */
  datatype Value = Nil | Bool(b: bool) | Num(n: Number) | Str(s: string) | Obj(id: int)

  predicate Truthy(v: Value) {
    v != Nil && v != Bool(false)
  }

  datatype ArithOp = Add | Sub | Mul | Div | Mod | Pow
  datatype CmpOp = Eq | Lt | Le

  /** An operation whose outcome may depend on, or change, the rest of the Lua world: reading a
      global, an upvalue or a table, and everything that may run a metamethod. */
  datatype Event =
    | GetUpvalue(index: int)
    | GetGlobal(name: Value)
    | GetTable(table: Value, key: Value)
    | Arith(op: ArithOp, left: Value, right: Value)
    | Negate(operand: Value)
    | Length(operand: Value)
    | Concat(left: Value, right: Value)
    | Compare(cmp: CmpOp, left: Value, right: Value)

  /** The operations performed so far, in order. */
  type History = seq<Event>

  /** What the primitives do. `num` and `neg` are the pure number operations; `call` answers an
      event from everything that has happened before it. All results below hold for every Prims. */
  datatype Prims = Prims(
    num: (ArithOp, Number, Number) -> Number,
    neg: Literal -> Literal,
    call: (Event, History) -> Value)

  datatype Outcome = Outcome(v: Value, h: History)

  function Perform(p: Prims, ev: Event, h: History): Outcome {
    Outcome(p.call(ev, h), h + [ev])
  }

  /** Two numbers are combined directly; anything else is an event. */
  function DoArith(p: Prims, op: ArithOp, l: Value, r: Value, h: History): Outcome {
    if l.Num? && r.Num? then Outcome(Num(p.num(op, l.n, r.n)), h)
    else Perform(p, Arith(op, l, r), h)
  }

  function DoNegate(p: Prims, v: Value, h: History): Outcome {
    if v == Num(NaN) then Outcome(v, h)
    else if v.Num? then Outcome(Num(p.neg(v.n)), h)
    else Perform(p, Negate(v), h)
  }

  /** A comparison's answer is the truth of what the primitive returns. */
  function DoCompare(p: Prims, op: CmpOp, l: Value, r: Value, h: History): Outcome {
    Outcome(Bool(Truthy(p.call(Compare(op, l, r), h))), h + [Compare(op, l, r)])
  }

  // ---------- registers ----------

  /** The registers of one activation; a missing entry reads as nil. */
  type Regs = map<int, Value>

  function Get(r: Regs, i: int): Value {
    if i in r then r[i] else Nil
  }

  /** r with nil stored in the registers lo..hi. */
  function NilRange(r: Regs, lo: int, hi: int): (r': Regs)
    ensures forall i :: i in r' <==> i in r || lo <= i <= hi
    ensures forall i :: i in r' ==> r'[i] == (if lo <= i <= hi then Nil else r[i])
    decreases hi - lo + 1
  {
    if lo > hi then r else NilRange(r, lo, hi - 1)[hi := Nil]
  }

  /** r and r' hold the same values in the registers below n, except perhaps register ex. */
  ghost predicate Agree(r: Regs, r': Regs, n: int, ex: int) {
    forall i | 0 <= i < n && i != ex :: Get(r, i) == Get(r', i)
  }

  // ---------- expressions ----------

  datatype UnOp = Minus | Not | Len
  datatype BinOp =
    | ArithOp(op: ArithOp)
    | ConcatOp
    | NeOp | EqOp | LtOp | LeOp | GtOp | GeOp
    | AndOp | OrOp

  datatype Expr =
    | ENil | ETrue | EFalse
    | ENum(n: Literal)
    | EStr(s: string)
    | ELocal(reg: int)
    | EUpval(index: int)
    | EGlobal(name: string)
    | EIndex(table: Expr, key: Expr)
    | EParen(e: Expr)
    | EUn(uop: UnOp, e: Expr)
    | EBin(bop: BinOp, left: Expr, right: Expr)

  /** Every local that e names is one of the first n registers. */
  predicate LocalsBelow(e: Expr, n: int) {
    match e
    case ELocal(r) => 0 <= r < n
    case EIndex(t, k) => LocalsBelow(t, n) && LocalsBelow(k, n)
    case EParen(x) => LocalsBelow(x, n)
    case EUn(_, x) => LocalsBelow(x, n)
    case EBin(_, l, r) => LocalsBelow(l, n) && LocalsBelow(r, n)
    case _ => true
  }

  /** The meaning of an expression: its value and the events it performs, left to right. */
  function Eval(p: Prims, e: Expr, r: Regs, h: History): Outcome {
    match e
    case ENil => Outcome(Nil, h)
    case ETrue => Outcome(Bool(true), h)
    case EFalse => Outcome(Bool(false), h)
    case ENum(n) => Outcome(Num(n), h)
    case EStr(s) => Outcome(Str(s), h)
    case ELocal(i) => Outcome(Get(r, i), h)
    case EUpval(i) => Perform(p, GetUpvalue(i), h)
    case EGlobal(name) => Perform(p, GetGlobal(Str(name)), h)
    case EIndex(t, k) =>
      var vt := Eval(p, t, r, h);
      var vk := Eval(p, k, r, vt.h);
      Perform(p, GetTable(vt.v, vk.v), vk.h)
    case EParen(x) => Eval(p, x, r, h)
    case EUn(op, x) =>
      var o := Eval(p, x, r, h);
      UnResult(p, op, o.v, o.h)
    case EBin(AndOp, x, y) =>
      var o := Eval(p, x, r, h);
      if Truthy(o.v) then Eval(p, y, r, o.h) else o
    case EBin(OrOp, x, y) =>
      var o := Eval(p, x, r, h);
      if Truthy(o.v) then o else Eval(p, y, r, o.h)
    case EBin(op, x, y) =>
      var ox := Eval(p, x, r, h);
      var oy := Eval(p, y, r, ox.h);
      BinResult(p, op, ox.v, oy.v, oy.h)
  }

  function UnResult(p: Prims, op: UnOp, v: Value, h: History): Outcome {
    match op
    case Minus => DoNegate(p, v, h)
    case Not => Outcome(Bool(!Truthy(v)), h)
    case Len => Perform(p, Length(v), h)
  }

  function BinResult(p: Prims, op: BinOp, l: Value, r: Value, h: History): Outcome
    requires op != AndOp && op != OrOp
  {
    match op
    case ArithOp(a) => DoArith(p, a, l, r, h)
    case ConcatOp => Perform(p, Concat(l, r), h)
    case EqOp => DoCompare(p, Eq, l, r, h)
    case NeOp =>
      var o := DoCompare(p, Eq, l, r, h);
      Outcome(Bool(!o.v.b), o.h)
    case LtOp => DoCompare(p, Lt, l, r, h)
    case LeOp => DoCompare(p, Le, l, r, h)
    case GtOp => DoCompare(p, Lt, r, l, h)
    case GeOp => DoCompare(p, Le, r, l, h)
  }
}
