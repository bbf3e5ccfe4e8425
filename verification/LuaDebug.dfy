/** The bytecode checker of ldebug.c. */
module LuaDebug {
  import opened Wrappers
  import opened LuaLimits
  import opened LuaBytecode

  // ---------- what is checked ----------

  predicate IsKRef(r: int) { r >= 256 }

  predicate HasArg(pt: Proto) { pt.isVararg % 2 == 1 }
  predicate IsVararg(pt: Proto) { pt.isVararg / 2 % 2 == 1 }
  predicate NeedsArg(pt: Proto) { pt.isVararg / 4 % 2 == 1 }

  predicate Precheck(pt: Proto) {
    && pt.maxstacksize <= MAXSTACK
    && pt.numparams + pt.isVararg % 2 <= pt.maxstacksize
    && (NeedsArg(pt) ==> HasArg(pt))
    && pt.sizeupvalues <= pt.nups
    && (pt.sizelineinfo == |pt.code| || pt.sizelineinfo == 0)
    && |pt.code| > 0 && Opcode(pt.code[|pt.code| - 1]) == OP_RETURN
  }

  /** luaG_checkopenop: an instruction that takes what an open call or vararg leaves. */
  predicate OpenOp(i: Word) {
    var op := Opcode(i);
    (op == OP_CALL || op == OP_TAILCALL || op == OP_RETURN || op == OP_SETLIST) && ArgB(i) == 0
  }

  predicate ArgOK(pt: Proto, r: int, mode: ArgMode) {
    match mode
    case ArgN => r == 0
    case ArgU => true
    case ArgR => r < pt.maxstacksize
    case ArgK => if IsKRef(r) then r - 256 < |pt.strings| else r < pt.maxstacksize
  }

  /** The operands fit their modes; a jump leads to an instruction. */
  predicate OperandsOK(pt: Proto, pc: int)
    requires 0 <= pc < |pt.code|
  {
    ArgA(pt.code[pc]) < pt.maxstacksize && FormatOK(pt, pc, pt.code[pc], Modes(Opcode(pt.code[pc])))
  }

  predicate FormatOK(pt: Proto, pc: int, i: Word, m: Mode) {
    match m.format
    case ABC => ArgOK(pt, ArgB(i), m.b) && ArgOK(pt, ArgC(i), m.c)
    case ABx => m.b == ArgK ==> ArgBx(i) < |pt.strings|
    case AsBx => m.b == ArgR ==> Inside(pt.code, pc + 1 + ArgsBx(i))
  }

  /** B as the checker's switch sees it. */
  function OperandB(i: Word): int {
    match Modes(Opcode(i)).format
    case ABC => ArgB(i)
    case ABx => ArgBx(i)
    case AsBx => ArgsBx(i)
  }

  predicate PseudoOK(pt: Proto, pc: int, nup: nat) {
    && 0 <= pc && pc + nup < |pt.code|
    && forall j | pc < j <= pc + nup :: PseudoInstr(pt.code[j])
  }

  /** What tells a new closure where an upvalue comes from. */
  predicate PseudoInstr(i: Word) {
    Opcode(i) == OP_GETUPVAL || Opcode(i) == OP_MOVE
  }

  /** The checks that depend on the opcode. */
  predicate OpOK(pt: Proto, pc: int)
    requires 0 <= pc < |pt.code| && Opcode(pt.code[|pt.code| - 1]) == OP_RETURN
  {
    var i := pt.code[pc];
    var op := Opcode(i);
    var a, b, c := ArgA(i), OperandB(i), ArgC(i);
    if op == OP_LOADBOOL then
      c == 1 ==> pc + 2 < |pt.code| && !LongSetlist(pt.code[pc + 1])
    else if op == OP_GETUPVAL || op == OP_SETUPVAL then b < pt.nups
    else if op == OP_GETGLOBAL || op == OP_SETGLOBAL then b < |pt.strings| && pt.strings[b]
    else if op == OP_SELF then a + 1 < pt.maxstacksize
    else if op == OP_CONCAT then b < c
    else if op == OP_TFORLOOP then c >= 1 && a + 2 + c < pt.maxstacksize
    else if op == OP_FORLOOP || op == OP_FORPREP then a + 3 < pt.maxstacksize
    else if op == OP_CALL || op == OP_TAILCALL then
      && (b != 0 ==> a + b - 1 < pt.maxstacksize)
      && (if c == 0 then OpenOp(pt.code[pc + 1]) else c != 1 ==> a + c - 2 < pt.maxstacksize)
    else if op == OP_RETURN then b > 1 ==> a + b - 2 < pt.maxstacksize
    else if op == OP_SETLIST then (b > 0 ==> a + b < pt.maxstacksize) && (c == 0 ==> pc + 2 < |pt.code|)
    else if op == OP_CLOSURE then b < |pt.nested| && PseudoOK(pt, pc, pt.nested[b])
    else if op == OP_VARARG then
      IsVararg(pt) && !NeedsArg(pt) && (b == 0 ==> OpenOp(pt.code[pc + 1])) && a + b - 2 < pt.maxstacksize
    else true
  }

  /** All that is checked of the instruction at pc. */
  predicate InstrOK(pt: Proto, pc: int)
    requires 0 <= pc < |pt.code| && Opcode(pt.code[|pt.code| - 1]) == OP_RETURN
  {
    var op := Opcode(pt.code[pc]);
    && op < NUM_OPCODES
    && OperandsOK(pt, pc)
    && (Modes(op).test ==> pc + 2 < |pt.code| && Opcode(pt.code[pc + 1]) == OP_JMP)
    && OpOK(pt, pc)
  }

  /** The instruction may change register reg. */
  predicate Changes(i: Word, reg: int) {
    (Modes(Opcode(i)).setsA && ArgA(i) == reg) || ChangesOther(i, reg)
  }

  /** It may change reg other than as its A. */
  predicate ChangesOther(i: Word, reg: int) {
    var op := Opcode(i);
    var a := ArgA(i);
    || (op == OP_LOADNIL && a <= reg <= ArgB(i))
    || (op == OP_SELF && reg == a + 1)
    || (op == OP_TFORLOOP && reg >= a + 2)
    || ((op == OP_CALL || op == OP_TAILCALL) && reg >= a)
  }

  // ---------- the scan ----------

  /** Where the scan goes after pc. When it follows a register it takes forward jumps within the
      scanned part and does not look at the pseudo-instructions of a CLOSURE. */
  function ScanNext(pt: Proto, pc: int, lastpc: int, reg: int): (next: int)
    requires 0 <= pc < |pt.code|
    ensures next > pc
  {
    var i := pt.code[pc];
    var op := Opcode(i);
    if op == OP_JMP || op == OP_FORLOOP || op == OP_FORPREP then
      if reg != NO_REG && pc < pc + 1 + ArgsBx(i) <= lastpc then pc + 1 + ArgsBx(i) else pc + 1
    else if op == OP_SETLIST && ArgC(i) == 0 then pc + 2
    else if op == OP_CLOSURE && reg != NO_REG && ArgBx(i) < |pt.nested| then pc + 1 + pt.nested[ArgBx(i)]
    else pc + 1
  }

  /** The last position visited that changes reg, or `last`; nothing if a check fails. */
  function Scan(pt: Proto, pc: int, lastpc: int, reg: int, last: int): Option<int>
    requires 0 <= pc && lastpc <= |pt.code| && |pt.code| > 0 && Opcode(pt.code[|pt.code| - 1]) == OP_RETURN
    decreases lastpc - pc
  {
    if pc >= lastpc then Some(last)
    else if !InstrOK(pt, pc) then None
    else Scan(pt, ScanNext(pt, pc, lastpc, reg), lastpc, reg, if Changes(pt.code[pc], reg) then pc else last)
  }

  function Symbolic(pt: Proto, lastpc: int, reg: int): Option<int>
    requires lastpc <= |pt.code|
  {
    if Precheck(pt) then Scan(pt, 0, lastpc, reg, |pt.code| - 1) else None
  }

  // ---------- the backward scan ----------

  /** How many words before dest, without a gap, look like a SETLIST with a count word. */
  function Before(code: seq<Word>, dest: int): (n: int)
    requires dest <= |code|
    ensures 0 <= n && (dest >= 0 ==> n <= dest)
    decreases dest
  {
    if dest <= 0 || !LongSetlist(code[dest - 1]) then 0 else 1 + Before(code, dest - 1)
  }

  /** A word is an instruction or the count of the one before it. */
  lemma {:induction false} BoundaryOrCount(code: seq<Word>, p: int)
    requires 0 < p <= |code|
    ensures Boundary(code, p) <==> !(Boundary(code, p - 1) && LongSetlist(code[p - 1]))
    decreases p
  {
    if p > 1 { BoundaryOrCount(code, p - 1); }
  }

  /** The parity trick: the run of look-alikes before a position has even length exactly when the
      position is an instruction, even though some of them may be counts. */
  lemma {:induction false} EvenIffBoundary(code: seq<Word>, dest: int)
    requires 0 <= dest <= |code|
    ensures Before(code, dest) % 2 == 0 <==> Boundary(code, dest)
    decreases dest
  {
    if dest > 0 {
      BoundaryOrCount(code, dest);
      EvenIffBoundary(code, dest - 1);
    }
  }

  /** The loop of the checker. */
  method JumpsToInstruction(code: seq<Word>, dest: int) returns (even: bool)
    requires 0 <= dest <= |code|
    ensures even <==> Boundary(code, dest)
  {
    var j := 0;
    while j < dest && LongSetlist(code[dest - 1 - j])
      invariant 0 <= j <= dest
      invariant Before(code, dest) == j + Before(code, dest - j)
    {
      j := j + 1;
    }
    EvenIffBoundary(code, dest);
    return j % 2 == 0;
  }

  // ---------- symbexec ----------

  method CheckOperands(pt: Proto, pc: int) returns (good: bool)
    requires 0 <= pc < |pt.code|
    ensures good == OperandsOK(pt, pc)
  {
    var i := pt.code[pc];
    var m := Modes(Opcode(i));
    if ArgA(i) >= pt.maxstacksize { return false; }
    match m.format
    case ABC =>
      return ArgOK(pt, ArgB(i), m.b) && ArgOK(pt, ArgC(i), m.c);
    case ABx =>
      return m.b == ArgK ==> ArgBx(i) < |pt.strings|;
    case AsBx =>
      if m.b == ArgR {
        var dest := pc + 1 + ArgsBx(i);
        if !(0 <= dest < |pt.code|) { return false; }
        good := JumpsToInstruction(pt.code, dest);
      } else {
        good := true;
      }
  }

  method CheckPseudo(pt: Proto, pc: int, nup: nat) returns (good: bool)
    requires 0 <= pc < |pt.code|
    ensures good == PseudoOK(pt, pc, nup)
  {
    if pc + nup >= |pt.code| { return false; }
    var j := 1;
    while j <= nup
      invariant 1 <= j <= nup + 1
      invariant forall m | pc < m < pc + j :: PseudoInstr(pt.code[m])
    {
      var op1 := Opcode(pt.code[pc + j]);
      if op1 != OP_GETUPVAL && op1 != OP_MOVE { return false; }
      j := j + 1;
    }
    return true;
  }

  /** The switch of symbexec: its checks, where it leaves pc, and what it takes for the last change. */
  method Execute(pt: Proto, pc0: int, lastpc: int, reg: int, last0: int) returns (good: bool, pc: int, last: int)
    requires 0 <= pc0 < lastpc <= |pt.code| && Opcode(pt.code[|pt.code| - 1]) == OP_RETURN
    requires OperandsOK(pt, pc0)
    ensures good == OpOK(pt, pc0)
    ensures good ==> pc + 1 == ScanNext(pt, pc0, lastpc, reg)
    ensures good ==> last == if ChangesOther(pt.code[pc0], reg) then pc0 else last0
  {
    hide Opcode, ArgA, ArgB, ArgC, ArgBx, ArgsBx, Boundary, PseudoOK, IsVararg, NeedsArg, OpenOp, LongSetlist;
    pc, last := pc0, last0;
    var i := pt.code[pc];
    var op, a, b, c: int := Opcode(i), ArgA(i), OperandB(i), ArgC(i);
    if op == OP_LOADBOOL {
      if c == 1 {
        if !(pc + 2 < |pt.code|) { return false, pc, last; }
        if LongSetlist(pt.code[pc + 1]) { return false, pc, last; }
      }
    } else if op == OP_LOADNIL {
      if a <= reg <= b { last := pc; }
    } else if op == OP_GETUPVAL || op == OP_SETUPVAL {
      if b >= pt.nups { return false, pc, last; }
    } else if op == OP_GETGLOBAL || op == OP_SETGLOBAL {
      if !pt.strings[b] { return false, pc, last; }
    } else if op == OP_SELF {
      if a + 1 >= pt.maxstacksize { return false, pc, last; }
      if reg == a + 1 { last := pc; }
    } else if op == OP_CONCAT {
      if b >= c { return false, pc, last; }
    } else if op == OP_TFORLOOP {
      if c < 1 || a + 2 + c >= pt.maxstacksize { return false, pc, last; }
      if reg >= a + 2 { last := pc; }
    } else if op == OP_FORLOOP || op == OP_FORPREP || op == OP_JMP {
      if op != OP_JMP && a + 3 >= pt.maxstacksize { return false, pc, last; }
      var dest := pc + 1 + b;
      if reg != NO_REG && pc < dest <= lastpc { pc := pc + b; }
    } else if op == OP_CALL || op == OP_TAILCALL {
      if b != 0 && a + b - 1 >= pt.maxstacksize { return false, pc, last; }
      c := c - 1;
      if c == -1 {
        if !OpenOp(pt.code[pc + 1]) { return false, pc, last; }
      } else if c != 0 {
        if a + c - 1 >= pt.maxstacksize { return false, pc, last; }
      }
      if reg >= a { last := pc; }
    } else if op == OP_RETURN {
      b := b - 1;
      if b > 0 && a + b - 1 >= pt.maxstacksize { return false, pc, last; }
    } else if op == OP_SETLIST {
      if b > 0 && a + b >= pt.maxstacksize { return false, pc, last; }
      if c == 0 {
        pc := pc + 1;
        if !(pc < |pt.code| - 1) { return false, pc, last; }
      }
    } else if op == OP_CLOSURE {
      if b >= |pt.nested| { return false, pc, last; }
      var pseudo := CheckPseudo(pt, pc, pt.nested[b]);
      if !pseudo { return false, pc, last; }
      if reg != NO_REG { pc := pc + pt.nested[b]; }
    } else if op == OP_VARARG {
      if !IsVararg(pt) || NeedsArg(pt) { return false, pc, last; }
      b := b - 1;
      if b == -1 && !OpenOp(pt.code[pc + 1]) { return false, pc, last; }
      if a + b - 1 >= pt.maxstacksize { return false, pc, last; }
    }
    good := true;
  }

  /** symbexec: the position of the last instruction before lastpc that may change reg. */
  method Symbexec(pt: Proto, lastpc: int, reg: int) returns (r: Option<int>)
    requires lastpc <= |pt.code|
    ensures r == Symbolic(pt, lastpc, reg)
  {
    if !Precheck(pt) { return None; }
    hide Opcode, ArgA, Modes, OpOK, OperandsOK, ScanNext, ChangesOther;
    var last := |pt.code| - 1;
    var pc := 0;
    while pc < lastpc
      invariant 0 <= pc
      invariant Symbolic(pt, lastpc, reg) == Scan(pt, pc, lastpc, reg, last)
    {
      var i := pt.code[pc];
      var op := Opcode(i);
      if op >= NUM_OPCODES { return None; }
      var good := CheckOperands(pt, pc);
      if !good { return None; }
      if Modes(op).setsA && ArgA(i) == reg { last := pc; }
      if Modes(op).test {
        if !(pc + 2 < |pt.code|) { return None; }
        if Opcode(pt.code[pc + 1]) != OP_JMP { return None; }
      }
      good, pc, last := Execute(pt, pc, lastpc, reg, last);
      if !good { return None; }
      pc := pc + 1;
    }
    return Some(last);
  }
}
