/** The invariants of code generation, and what a descriptor promises about the code so far. */
module LuaInv {
  import opened Wrappers
  import opened LuaValues
  import opened LuaLimits
  import opened LuaOpcodes
  import opened LuaGen
  import opened LuaRun

  // ---------- well-formed code ----------

  predicate InstrOK(code: seq<Instr>, lt: int, i: int)
    requires 0 <= i < |code| && lt <= |code|
  {
    match code[i]
    case IJmp(s) => s == NO_JUMP || (s >= 0 && i + 1 + s <= lt && !IsTest(code[i + s]))
    case ILoadBool(_, _, skip) => skip ==> i + 2 <= lt && !IsTest(code[i + 1])
    case ICmp(_, _, _, _) => i + 1 < |code| && code[i + 1].IJmp?
    case ITest(_, _) => i + 1 < |code| && code[i + 1].IJmp?
    case ITestSet(_, _, _) => i + 1 < |code| && code[i + 1].IJmp?
    case IReturn(_, _) => false
    case _ => true
  }

  /** Every known target is at most lt, and no target lies between a test and its jump. */
  predicate CodeOK(code: seq<Instr>, lt: int) {
    lt <= |code| && forall i | 0 <= i < |code| :: InstrOK(code, lt, i)
  }

  predicate StartOK(code: seq<Instr>, pc: int) {
    0 <= pc <= |code| && (pc > 0 ==> !IsTest(code[pc - 1]))
  }

  predicate ExitOK(code: seq<Instr>, o: Out) {
    match o
    case Fall(_, _) => true
    case Exit(n, r, _, w) =>
      Pending(code, n) && w == (if Carries(code, n) then Some(Get(r, code[n - 1].b)) else None)
    case Bad => false
  }

  /** Well-formed code never goes wrong, and it hands over a value exactly at a TESTSET. */
  lemma {:induction false} ExitFacts(p: Prims, k: seq<Value>, code: seq<Instr>, lt: int, pc: int, r: Regs, h: History)
    requires CodeOK(code, lt) && StartOK(code, pc)
    ensures ExitOK(code, Run(p, k, code, pc, r, h))
    decreases |code| - pc
  {
    if pc < |code| {
      assert InstrOK(code, lt, pc);
      if IsTest(code[pc]) {
        assert InstrOK(code, lt, pc + 1);
      }
      match NextOf(p, k, code, pc, r, h)
      case Stop(o) =>
      case Go(pc', r', h') => ExitFacts(p, k, code, lt, pc', r', h');
    }
  }

  // ---------- the state seen from a fixed entry point ----------

  /** A run that enters the code at x with registers r after history h; k are the constants the
      function ends up with. Without `values` only the structure of the code is promised below, not
      what the run computes. */
  datatype Ctx = Ctx(p: Prims, k: seq<Value>, x: int, r: Regs, h: History, values: bool)

  /** Here: control has come to the next position to be coded, by falling or by a held jump.
      Away: it has left by a jump that some list still holds. */
  datatype View =
    | Here(r: Regs, h: History)
    | Away(n: int, r: Regs, h: History, carried: Option<Value>)
    | Crash

  function Entering(c: Ctx, code: seq<Instr>): Out {
    Run(c.p, c.k, code, c.x, c.r, c.h)
  }

  function ViewOut(o: Out, jpc: seq<int>): View {
    match o
    case Fall(r, h) => Here(r, h)
    case Exit(n, r, h, w) => if n in jpc then Here(r, h) else Away(n, r, h, w)
    case Bad => Crash
  }

  function ViewOf(c: Ctx, fs: FS): View {
    ViewOut(Entering(c, fs.code), fs.jpc)
  }

  predicate WF(fs: FS) {
    && fs.ok && fs.asserts
    && CodeOK(fs.code, fs.lasttarget)
    && (forall n | n in fs.jpc :: Pending(fs.code, n))
    && (fs.jpc != [] ==> fs.lasttarget == |fs.code|)
    && 0 <= fs.nactvar <= fs.freereg <= fs.maxstack < MAXSTACK
  }

  /** At function entry every register that is not an active local holds nil. */
  predicate FreshRegs(r: Regs, nactvar: int) {
    forall i | nactvar <= i < MAXSTACK :: i in r && r[i] == Nil
  }

  /** The entry point is one that the code generator knows about. */
  predicate Entry(c: Ctx, fs: FS) {
    && StartOK(fs.code, c.x)
    && (c.x == |fs.code| ==> fs.lasttarget == c.x || (c.x == 0 && FreshRegs(c.r, fs.nactvar)))
  }

  /** fs continues fs0: what was pending there and not held for the next position still is, and
      carries a value if it did. */
  ghost predicate Ext(fs0: FS, fs: FS) {
    && |fs0.code| <= |fs.code|
    && fs0.k <= fs.k
    && fs0.nactvar == fs.nactvar
    && fs0.lasttarget <= fs.lasttarget
    && (forall n | Pending(fs0.code, n) && n !in fs0.jpc ::
          Pending(fs.code, n) && Carries(fs.code, n) == Carries(fs0.code, n))
    && (forall i | 0 <= i < |fs0.code| :: IsTest(fs.code[i]) ==> IsTest(fs0.code[i]))
    && Own(fs0, fs.jpc)
  }

  /** The nodes of list are new since fs0, or were held for the next position there. */
  predicate Own(fs0: FS, list: seq<int>) {
    forall n | n in list :: n >= |fs0.code| || n in fs0.jpc
  }

  lemma ExtTrans(f0: FS, f1: FS, f2: FS)
    requires Ext(f0, f1) && Ext(f1, f2)
    ensures Ext(f0, f2)
  {}

  lemma EntryExt(c: Ctx, f0: FS, f1: FS)
    requires Entry(c, f0) && Ext(f0, f1) && WF(f1)
    ensures Entry(c, f1)
  {}

  // ---------- what a descriptor promises ----------

  predicate Relocatable(i: Instr) {
    i.IGetUpval? || i.IGetGlobal? || i.IGetTable? || i.IArith? || i.IUnm? || i.INot? || i.ILen? || i.IConcat?
  }

  function BodyLen(fs: FS, e: Exp): int {
    if e.k.VJmp? then |fs.code| - 2 else if e.k.VReloc? then |fs.code| - 1 else |fs.code|
  }

  /** The code without the instructions that the descriptor still has to complete. */
  function Body(fs: FS, e: Exp): FS
    requires BodyLen(fs, e) >= 0
  {
    fs.(code := fs.code[..BodyLen(fs, e)])
  }

  predicate ListOK(fs: FS, list: seq<int>) {
    forall n | n in list :: Pending(fs.code, n) && n !in fs.jpc
  }

  predicate KindOK(fs: FS, k: Kind) {
    match k
    case VK(i) => 0 <= i < |fs.k|
    case VGlobal(i) => 0 <= i < |fs.k|
    case VIndexed(_, aux) => IsK(aux) ==> aux - BITRK < |fs.k|
    case VJmp(info) =>
      && |fs.code| >= 2 && info == |fs.code| - 1 && Pending(fs.code, info) && fs.code[info - 1].ICmp?
      && fs.lasttarget <= |fs.code| - 2 && fs.jpc == []
    case VReloc(info) =>
      && |fs.code| >= 1 && info == |fs.code| - 1 && Relocatable(fs.code[info])
      && fs.lasttarget <= |fs.code| - 1 && fs.jpc == []
    case _ => true
  }

  predicate ExpOK(fs: FS, e: Exp) {
    && KindOK(fs, e.k)
    && ListOK(fs, e.t) && ListOK(fs, e.f) && Disjoint(e.t, e.f)
    && (e.k.VJmp? ==> e.k.info !in e.t && e.k.info !in e.f)
  }

  /** The register discipline: an expression begun with freereg == b owns at most the registers
      that its descriptor names, on top of the stack. */
  predicate RegsOK(fs: FS, k: Kind, b: int) {
    && fs.nactvar <= b
    && match k
       case VNonReloc(r) => (0 <= r < fs.nactvar && fs.freereg == b) || (r == b && fs.freereg == b + 1)
       case VLocal(r) => 0 <= r < fs.nactvar && fs.freereg == b
       case VIndexed(t, aux) => IndexedOK(fs, t, aux, b)
       case _ => fs.freereg == b
  }

  predicate IndexedOK(fs: FS, t: int, aux: int, b: int) {
    && (0 <= t < fs.nactvar || t == b)
    && var b1 := if t == b then b + 1 else b;
       || ((IsK(aux) || 0 <= aux < fs.nactvar) && fs.freereg == b1)
       || (aux == b1 && fs.freereg == b1 + 1)
  }

  /** The value that completing the descriptor yields, with registers r after history h. */
  function Deferred(c: Ctx, code: seq<Instr>, k: Kind, r: Regs, h: History): Outcome {
    match k
    case VNil => Outcome(Nil, h)
    case VTrue => Outcome(Bool(true), h)
    case VFalse => Outcome(Bool(false), h)
    case VK(i) => Outcome(KAt(c.k, i), h)
    case VKNum(n) => Outcome(Num(n), h)
    case VLocal(i) => Outcome(Get(r, i), h)
    case VNonReloc(i) => Outcome(Get(r, i), h)
    case VUpval(i) => Perform(c.p, GetUpvalue(i), h)
    case VGlobal(i) => Perform(c.p, GetGlobal(KAt(c.k, i)), h)
    case VIndexed(t, aux) => Perform(c.p, GetTable(Get(r, t), RK(c.k, r, aux)), h)
    case VReloc(info) =>
      if 0 <= info < |code| then Computes(c.p, c.k, code[info], r, h) else Outcome(Nil, h)
    case VJmp(info) =>
      if 1 <= info <= |code| && code[info - 1].ICmp? then
        Outcome(Bool(Taken(c.p, c.k, code[info - 1], r, h)), TestHistory(c.p, c.k, code[info - 1], r, h))
      else Outcome(Nil, h)
  }

  /** The value of an expression whose run left by a jump of its true (or false) list. */
  predicate Yields(w: Option<Value>, sense: bool, v: Value) {
    Truthy(v) == sense && (if w.Some? then w.value == v else v == Bool(sense))
  }

  /** From v0 to v, an expression with outcome o was evaluated: it is `here` with the descriptor's
      value still to be produced, or it left by one of the lists t and f. Registers below b are
      untouched, except perhaps ex. */
  ghost predicate Promise(c: Ctx, v0: View, code: seq<Instr>, e: Exp, b: int, ex: int, o: Outcome, v: View)
    requires v0.Here?
  {
    match v
    case Here(r, h) => Agree(v0.r, r, b, ex) && Deferred(c, code, e.k, r, h) == o
    case Away(n, r, h, w) =>
      && Agree(v0.r, r, b, ex) && h == o.h
      && ((n in e.t && Yields(w, true, o.v)) || (n in e.f && Yields(w, false, o.v)))
    case Crash => false
  }

  ghost predicate Spec(c: Ctx, v0: View, v: View, code: seq<Instr>, e: Exp, b: int, ex: int, x: Expr) {
    c.values ==>
      match v0
      case Here(r, h) => Promise(c, v0, code, e, b, ex, Eval(c.p, x, r, h), v)
      case Away(n, _, _, _) => v == v0 && n !in e.t && n !in e.f
      case Crash => false
  }

  /** The structure of state fs and descriptor e, begun in state fs0. */
  ghost predicate Parts(c: Ctx, fs0: FS, fs: FS, e: Exp) {
    && WF(fs0) && Entry(c, fs0) && WF(fs) && fs.k <= c.k
    && ExpOK(fs, e)
    && Own(fs0, e.t) && Own(fs0, e.f)
    && Ext(fs0, Body(fs, e))
  }

  /** Descriptor e, in state fs reached from fs0, stands for expression x. */
  ghost predicate RepCore(c: Ctx, fs0: FS, fs: FS, e: Exp, x: Expr, ex: int) {
    && Parts(c, fs0, fs, e)
    && Spec(c, ViewOf(c, fs0), ViewOf(c, Body(fs, e)), fs.code, e, fs0.freereg, ex, x)
  }

  /** A concatenation still to be completed starts at the expression's first register. */
  predicate ConcatOK(code: seq<Instr>, k: Kind, b: int) {
    k.VReloc? && 0 <= k.info < |code| && code[k.info].IConcat? ==> code[k.info].b == b < code[k.info].c
  }

  /** RepCore, with the registers in order. */
  ghost predicate Rep(c: Ctx, fs0: FS, fs: FS, e: Exp, x: Expr) {
    RepCore(c, fs0, fs, e, x, -1) && RegsOK(fs, e.k, fs0.freereg) && ConcatOK(fs.code, e.k, fs0.freereg)
  }
}
