/** Compiling a whole expression with the generator of lcode.c: the calls that subexpr, primaryexp,
    simpleexp and retstat make (lparser.c). */
module LuaParser {
  import opened Wrappers
  import opened LuaValues
  import opened LuaLimits
  import opened LuaOpcodes
  import opened LuaGen
  import opened LuaLists
  import opened LuaDesc
  import opened LuaFuncState
  import LuaInv
  import LuaProgram
  import LuaStack

  /** subexpr; a left operand keeps its lists while the right one is compiled. */
  method Subexpr(p: Prims, fs: FuncState, x: Expr) returns (e': ExpDesc, ghost ae': Exp)
    requires fs.Valid()
    modifies fs
    ensures fs.Valid() && FE(fs.a, ae') == Compile(p, old(fs.a), x) && fs.Desc(e', ae')
    ensures Moved(old(fs.live), NonEmpty(old(fs.a).jpc), fs.live, Mine(fs.a.jpc, ae'))
    decreases x, 3
  {
    hide *;
    match x
    case EIndex(t, key) => e', ae' := Index(p, fs, t, key);
    case EParen(y) => e', ae' := Paren(p, fs, y);
    case EUn(op, y) => e', ae' := Unary(p, fs, op, y);
    case EBin(op, l, r) => e', ae' := Binary(p, fs, op, l, r);
    case _ => e', ae' := Leaf(p, fs, x);
  }

  /** A constant or a variable: nothing is coded yet. */
  method Leaf(p: Prims, fs: FuncState, x: Expr) returns (e': ExpDesc, ghost ae': Exp)
    requires fs.Valid() && !x.EIndex? && !x.EParen? && !x.EUn? && !x.EBin?
    modifies fs
    ensures fs.Valid() && FE(fs.a, ae') == Compile(p, old(fs.a), x) && fs.Desc(e', ae')
    ensures Moved(old(fs.live), NonEmpty(old(fs.a).jpc), fs.live, Mine(fs.a.jpc, ae'))
  {
    hide Live, SameCode, Indexes, LuaGen.DischargeVars, LuaGen.Infix, LuaGen.Posfix, LuaGen.Prefix;
    hide LuaGen.Exp2AnyReg, LuaGen.Exp2Val, LuaGen.Indexed;
    match x
    case EStr(s) =>
      var i := fs.AddK(Str(s));
      e', ae' := InitExp(VK(i)), Init(VK(i));
    case EGlobal(name) =>
      var i := fs.AddK(Str(name));
      e', ae' := InitExp(VGlobal(i)), Init(VGlobal(i));
    case _ =>
      e', ae' := InitExp(LeafKind(x)), Init(LeafKind(x));
  }

  method Paren(p: Prims, fs: FuncState, y: Expr) returns (e': ExpDesc, ghost ae': Exp)
    requires fs.Valid()
    modifies fs
    ensures fs.Valid() && FE(fs.a, ae') == Compile(p, old(fs.a), EParen(y)) && fs.Desc(e', ae')
    ensures Moved(old(fs.live), NonEmpty(old(fs.a).jpc), fs.live, Mine(fs.a.jpc, ae'))
    decreases EParen(y), 1
  {
    CompileUnary(p, fs.a, Not, y);
    hide *;
    e', ae' := Subexpr(p, fs, y);
    ghost var l1, m1 := fs.live, Mine(fs.a.jpc, ae');
    e', ae' := fs.DischargeVars(e', ae');
    MovedTwice(old(fs.live), NonEmpty(old(fs.a).jpc), l1, m1, fs.live, Mine(fs.a.jpc, ae'));
  }

  method Unary(p: Prims, fs: FuncState, op: UnOp, y: Expr) returns (e': ExpDesc, ghost ae': Exp)
    requires fs.Valid()
    modifies fs
    ensures fs.Valid() && FE(fs.a, ae') == Compile(p, old(fs.a), EUn(op, y)) && fs.Desc(e', ae')
    ensures Moved(old(fs.live), NonEmpty(old(fs.a).jpc), fs.live, Mine(fs.a.jpc, ae'))
    decreases EUn(op, y), 1
  {
    CompileUnary(p, fs.a, op, y);
    hide *;
    e', ae' := Subexpr(p, fs, y);
    ghost var l1, m1 := fs.live, Mine(fs.a.jpc, ae');
    e', ae' := fs.Prefix(p, op, e', ae');
    MovedTwice(old(fs.live), NonEmpty(old(fs.a).jpc), l1, m1, fs.live, Mine(fs.a.jpc, ae'));
  }

  function LeafKind(x: Expr): Kind {
    match x
    case ETrue => VTrue
    case EFalse => VFalse
    case ENum(n) => VKNum(n)
    case ELocal(r) => VLocal(r)
    case EUpval(i) => VUpval(i)
    case _ => VNil
  }

  /** Both operands of a binary operator; the left one keeps its lists meanwhile. */
  method Operands(p: Prims, fs: FuncState, op: BinOp, l: Expr, r: Expr)
    returns (e1: ExpDesc, ghost ae1: Exp, e2: ExpDesc, ghost ae2: Exp)
    requires fs.Valid()
    modifies fs
    ensures fs.Valid() && fs.Desc(e2, ae2) && LeftReady(op, e1, ae1) && fs.Desc(Left(op, e1), LeftExp(op, ae1))
    ensures Mine([], LeftExp(op, ae1)) !! Mine(fs.a.jpc, ae2)
    ensures var x1 := Compile(p, old(fs.a), l); var i := LuaGen.Infix(x1.fs, op, x1.e);
            ae1 == i.e && FE(fs.a, ae2) == Compile(p, i.fs, r)
    ensures Moved(old(fs.live), NonEmpty(old(fs.a).jpc), fs.live, Mine(fs.a.jpc, ae2) + Mine([], LeftExp(op, ae1)))
    decreases EBin(op, l, r), 1
  {
    hide Live, SameCode, Indexes, LuaGen.Infix, Compile, Mine, Apart;
    ghost var l0, m0 := fs.live, NonEmpty(fs.a.jpc);
    e1, ae1 := Subexpr(p, fs, l);
    ghost var l1, m1 := fs.live, Mine(fs.a.jpc, ae1);
    e1, ae1 := fs.Infix(op, e1, ae1);
    ghost var held, jpc2 := LeftExp(op, ae1), fs.a.jpc;
    ghost var rest := Mine([], held);
    SetAside(jpc2, held);
    ghost var l2, m2 := fs.live, NonEmpty(jpc2) + rest;
    MovedTwice(l0, m0, l1, m1, l2, m2);
    e2, ae2 := Subexpr(p, fs, r);
    ghost var l3, m3 := fs.live, Mine(fs.a.jpc, ae2) + rest;
    MovedPart(l2, NonEmpty(jpc2), l3, Mine(fs.a.jpc, ae2), rest);
    MovedTwice(l0, m0, l2, m2, l3, m3);
    SetAside(fs.a.jpc, ae2);
    TakeBack(fs.a.jpc, held);
    hide Moved;
  }

  lemma CompileUnary(p: Prims, fs: FS, op: UnOp, y: Expr)
    ensures var x := Compile(p, fs, y);
            && Compile(p, fs, EParen(y)) == LuaGen.DischargeVars(x.fs, x.e)
            && Compile(p, fs, EUn(op, y)) == LuaGen.Prefix(p, x.fs, op, x.e)
  {
    hide LuaGen.Infix, LuaGen.Posfix, LuaGen.Prefix, LuaGen.DischargeVars;
    hide LuaGen.Exp2AnyReg, LuaGen.Exp2Val, LuaGen.Indexed, LuaGen.AddK, Grows, Mono;
  }

  lemma CompileBinary(p: Prims, fs: FS, op: BinOp, l: Expr, r: Expr)
    ensures var x1 := Compile(p, fs, l); var i := LuaGen.Infix(x1.fs, op, x1.e); var x2 := Compile(p, i.fs, r);
            Compile(p, fs, EBin(op, l, r)) == LuaGen.Posfix(p, x2.fs, op, i.e, x2.e)
  {
    hide LuaGen.Infix, LuaGen.Posfix, LuaGen.Prefix, LuaGen.DischargeVars;
    hide LuaGen.Exp2AnyReg, LuaGen.Exp2Val, LuaGen.Indexed, LuaGen.AddK, Grows, Mono;
  }

  method Binary(p: Prims, fs: FuncState, op: BinOp, l: Expr, r: Expr) returns (e': ExpDesc, ghost ae': Exp)
    requires fs.Valid()
    modifies fs
    ensures fs.Valid() && FE(fs.a, ae') == Compile(p, old(fs.a), EBin(op, l, r)) && fs.Desc(e', ae')
    ensures Moved(old(fs.live), NonEmpty(old(fs.a).jpc), fs.live, Mine(fs.a.jpc, ae'))
    decreases EBin(op, l, r), 2
  {
    CompileBinary(p, fs.a, op, l, r);
    hide *;
    var e1, e2;
    ghost var ae1, ae2;
    e1, ae1, e2, ae2 := Operands(p, fs, op, l, r);
    ghost var l1, m1 := fs.live, Mine(fs.a.jpc, ae2) + Mine([], LeftExp(op, ae1));
    e', ae' := fs.Posfix(p, op, e1, ae1, e2, ae2);
    MovedTwice(old(fs.live), NonEmpty(old(fs.a).jpc), l1, m1, fs.live, Mine(fs.a.jpc, ae'));
  }

  /** An expression brought into some register. */
  method ToRegister(p: Prims, fs: FuncState, x: Expr) returns (e': ExpDesc)
    requires fs.Valid()
    modifies fs
    ensures fs.Valid() && e' == InitExp(e'.k) && e'.k.VNonReloc?
    ensures var c := Compile(p, old(fs.a), x); FE(fs.a, Init(e'.k)) == LuaGen.Exp2AnyReg(c.fs, c.e)
    ensures Moved(old(fs.live), NonEmpty(old(fs.a).jpc), fs.live, NonEmpty(fs.a.jpc))
    decreases x, 4
  {
    hide Live, SameCode, Indexes, LuaGen.Exp2AnyReg, Compile, Moved, Mine;
    var e;
    ghost var ae;
    e, ae := Subexpr(p, fs, x);
    ghost var l1, m1 := fs.live, Mine(fs.a.jpc, ae);
    e' := fs.Exp2AnyReg(e, ae);
    MovedTwice(old(fs.live), NonEmpty(old(fs.a).jpc), l1, m1, fs.live, NonEmpty(fs.a.jpc));
  }

  /** A table key: exp2val, then exp2RK. */
  method Key(p: Prims, fs: FuncState, x: Expr) returns (i: int)
    requires fs.Valid()
    modifies fs
    ensures fs.Valid()
    ensures var c := Compile(p, old(fs.a), x); var v := LuaGen.Exp2Val(c.fs, c.e); var d := LuaGen.Exp2RK(v.fs, v.e);
            fs.a == d.fs && i == d.i
    ensures Moved(old(fs.live), NonEmpty(old(fs.a).jpc), fs.live, NonEmpty(fs.a.jpc))
    decreases x, 4
  {
    hide *;
    var e;
    ghost var ae;
    e, ae := Subexpr(p, fs, x);
    ghost var l1, m1 := fs.live, Mine(fs.a.jpc, ae);
    e, ae := fs.Exp2Val(e, ae);
    MovedTwice(old(fs.live), NonEmpty(old(fs.a).jpc), l1, m1, fs.live, Mine(fs.a.jpc, ae));
    ghost var l2, m2 := fs.live, Mine(fs.a.jpc, ae);
    e, i := fs.Exp2RK(e, ae);
    MovedTwice(old(fs.live), NonEmpty(old(fs.a).jpc), l2, m2, fs.live, NonEmpty(fs.a.jpc));
  }

  lemma CompileIndex(p: Prims, fs: FS, t: Expr, key: Expr)
    ensures var x1 := Compile(p, fs, t); var a := LuaGen.Exp2AnyReg(x1.fs, x1.e); var x2 := Compile(p, a.fs, key);
            var d := LuaGen.Exp2Val(x2.fs, x2.e);
            Compile(p, fs, EIndex(t, key)) == LuaGen.Indexed(d.fs, a.e, d.e)
  {
    hide LuaGen.Infix, LuaGen.Posfix, LuaGen.Prefix, LuaGen.DischargeVars;
    hide LuaGen.Exp2AnyReg, LuaGen.Exp2Val, LuaGen.Indexed, LuaGen.AddK, Grows, Mono;
  }

  method Index(p: Prims, fs: FuncState, t: Expr, key: Expr) returns (e': ExpDesc, ghost ae': Exp)
    requires fs.Valid()
    modifies fs
    ensures fs.Valid() && FE(fs.a, ae') == Compile(p, old(fs.a), EIndex(t, key)) && fs.Desc(e', ae')
    ensures Moved(old(fs.live), NonEmpty(old(fs.a).jpc), fs.live, Mine(fs.a.jpc, ae'))
    decreases EIndex(t, key), 0
  {
    CompileIndex(p, fs.a, t, key);
    hide Live, SameCode, Indexes, Moved, Compile, LuaGen.Exp2AnyReg, LuaGen.Exp2Val, LuaGen.Exp2RK;
    var table := ToRegister(p, fs, t);
    ghost var l1, m1 := fs.live, NonEmpty(fs.a.jpc);
    var i := Key(p, fs, key);
    MovedTwice(old(fs.live), NonEmpty(old(fs.a).jpc), l1, m1, fs.live, NonEmpty(fs.a.jpc));
    e', ae' := InitExp(VIndexed(table.k.info, i)), Init(VIndexed(table.k.info, i));
    fs.SimpleDesc(e');
  }

  /** A function of n parameters whose body is `return x`. If generation succeeds, no pending jump is
      left, every register that an instruction names lies below the stack size, and the code that was emitted
      returns the value of x from every state of the world. */
  method ReturnExpr(p: Prims, n: nat, x: Expr) returns (fs: FuncState)
    ensures fresh(fs) && fs.Valid() && fs.live == {} && fs.a == LuaProgram.ReturnExpr(p, n, x)
    ensures n < MAXSTACK && LocalsBelow(x, n) && fs.ok ==>
              && n <= fs.maxstacksize < 250
              && forall i | 0 <= i < |fs.code| :: LuaStack.InstrBelow(fs.code[i], fs.maxstacksize, true)
    ensures n < MAXSTACK && LocalsBelow(x, n) && fs.ok && fs.a.clean ==> Returns(p, fs.k, fs.code, n, x)
  {
    fs := new FuncState(n);
    var e := ToRegister(p, fs, x);
    var _ := fs.Code(IReturn(e.k.info, 2));
    AllResolved(fs.code, fs.a.code);
    if n < MAXSTACK && LocalsBelow(x, n) && fs.ok {
      LuaStack.StackFits(p, n, x);
      LuaStack.NoneOpen(fs.code, fs.maxstacksize);
      if fs.a.clean { AlwaysReturns(p, n, x); }
    }
  }

  /** Run from its first instruction, the code returns what x evaluates to. */
  ghost predicate Returns(p: Prims, k: seq<Value>, code: seq<Instr>, n: nat, x: Expr) {
    forall r: Regs, h: History | LuaInv.FreshRegs(r, n) :: ReturnsFrom(p, k, code, n, x, r, h)
  }

  ghost predicate ReturnsFrom(p: Prims, k: seq<Value>, code: seq<Instr>, n: nat, x: Expr, r: Regs, h: History) {
    exists steps: nat, m: Machine ::
      Steps(p, k, code, Machine(0, r, h), steps) == Some(m) && LuaProgram.Returning(code, n, r, Eval(p, x, r, h), m)
  }

  lemma AlwaysReturns(p: Prims, n: nat, x: Expr)
    requires n < MAXSTACK && LocalsBelow(x, n)
    requires var f := LuaProgram.ReturnExpr(p, n, x); f.ok && f.clean
    ensures var f := LuaProgram.ReturnExpr(p, n, x); Returns(p, f.k, f.code, n, x)
  {
    var f := LuaProgram.ReturnExpr(p, n, x);
    forall r: Regs, h: History | LuaInv.FreshRegs(r, n) ensures ReturnsFrom(p, f.k, f.code, n, x, r, h) {
      var steps := LuaProgram.ReturnCorrect(p, n, x, r, h);
    }
  }
}
