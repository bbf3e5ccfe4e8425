/** Constant expressions cost nothing: they are folded to a numeral, without code. */
module LuaFold {
  import opened Wrappers
  import opened LuaValues
  import opened LuaGen

  /** The number that an expression of numerals, arithmetic and parentheses is, if no division by zero and no NaN is
      met on the way. */
  function NumberOf(p: Prims, x: Expr): Option<Literal> {
    match x
    case ENum(n) => Some(n)
    case EParen(y) => NumberOf(p, y)
    case EUn(Minus, y) =>
      var n := NumberOf(p, y);
      if n.None? then None else Some(p.neg(n.value))
    case EBin(ArithOp(op), l, r) =>
      var m, n := NumberOf(p, l), NumberOf(p, r);
      if m.None? || n.None? || ((op == Div || op == Mod) && n.value == Real(0.0)) then None
      else if p.num(op, m.value, n.value).NaN? then None
      else Some(p.num(op, m.value, n.value))
    case _ => None
  }

  lemma {:induction false} NumberFolds(p: Prims, fs: FS, x: Expr)
    requires NumberOf(p, x).Some?
    ensures Compile(p, fs, x) == FE(fs, Init(VKNum(NumberOf(p, x).value)))
  {
    hide Exp2RK, Exp2AnyReg, FreeExps;
    match x
    case EParen(y) => NumberFolds(p, fs, y);
    case EUn(Minus, y) => NumberFolds(p, fs, y);
    case EBin(ArithOp(op), l, r) =>
      NumberFolds(p, fs, l);
      NumberFolds(p, fs, r);
    case _ =>
  }

  /** A division of numerals by zero, or one that gives NaN, is left to the machine. */
  lemma NotFolded(p: Prims, fs: FS, op: ArithOp, m: Literal, n: Literal)
    requires ((op == Div || op == Mod) && n == Real(0.0)) || p.num(op, m, n).NaN?
    ensures Compile(p, fs, EBin(ArithOp(op), ENum(m), ENum(n))).e.k.VReloc?
  {
    hide Exp2RK, FreeExps, Code;
  }
}
