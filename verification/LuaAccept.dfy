/** What the bytecode checker accepts (ldebug.c), said in terms of what the machine does with a function (lvm.c). */
module LuaAccept {
  import opened LuaBytecode
  import opened LuaDebug
  import opened LuaSafety
  import opened LuaFrame

  // ---------- what a correct function keeps ----------

  /** The header of a function: at most 250 registers, with room for the parameters and the `arg` table; no more
      names of upvalues than upvalues; a line for each instruction or none; and a RETURN at the end. */
  predicate Header(pt: Proto) {
    && pt.maxstacksize <= 250
    && pt.numparams + (if HasArg(pt) then 1 else 0) <= pt.maxstacksize && (NeedsArg(pt) ==> HasArg(pt))
    && pt.sizeupvalues <= pt.nups && (pt.sizelineinfo == 0 || pt.sizelineinfo == |pt.code|)
    && pt.code != [] && Opcode(pt.code[|pt.code| - 1]) == OP_RETURN
  }

  /** The registers that the machine uses for the instruction are in the frame, but for those that a TFORLOOP only
      copies to. */
  ghost predicate RegistersFit(i: Word, size: int) {
    forall r :: Touches(i, r) && (Opcode(i) == OP_TFORLOOP ==> r <= ArgA(i) + 2 + ArgC(i)) ==> r < size
  }

  /** So are its constants, names and upvalues. */
  ghost predicate ValuesFit(pt: Proto, i: Word) {
    && (forall k :: TakesConstant(i, k) ==> k < |pt.strings| && (TakesName(i) ==> pt.strings[k]))
    && (forall u :: TakesUpvalue(i, u) ==> u < pt.nups)
  }

  /** Control goes on at instructions of the function; nothing is asked of a LOADBOOL with a flag above 1. */
  ghost predicate StaysInside(pt: Proto, pc: int)
    requires 0 <= pc < |pt.code|
  {
    || (Opcode(pt.code[pc]) == OP_LOADBOOL && ArgC(pt.code[pc]) > 1)
    || (forall q | q in Next(pt, pc) :: Inside(pt.code, q))
  }

  /** A test is followed by its jump, a CLOSURE by a word for each upvalue, and what leaves an open number of values
      by an instruction that takes them. */
  ghost predicate Followed(pt: Proto, pc: int)
    requires 0 <= pc < |pt.code|
  {
    var i := pt.code[pc];
    var op := Opcode(i);
    && (IsTestOp(op) ==> pc + 1 < |pt.code| && Opcode(pt.code[pc + 1]) == OP_JMP)
    && (op == OP_CLOSURE ==>
          && ArgBx(i) < |pt.nested|
          && forall j :: Pseudo(pt, pc, j) ==> j < |pt.code| && PseudoInstr(pt.code[j]))
    && (LeavesOpen(i) ==> pc + 1 < |pt.code| && OpenOp(pt.code[pc + 1]))
  }

  predicate IsTestOp(op: int) { OP_EQ <= op <= OP_TESTSET || op == OP_TFORLOOP }

  predicate LeavesOpen(i: Word) {
    var op := Opcode(i);
    ((op == OP_CALL || op == OP_TAILCALL) && ArgC(i) == 0) || (op == OP_VARARG && ArgB(i) == 0)
  }

  predicate LacksC(op: int) {
    || op in {OP_MOVE, OP_LOADNIL, OP_GETUPVAL, OP_SETUPVAL, OP_UNM, OP_NOT, OP_LEN}
    || op in {OP_RETURN, OP_CLOSE, OP_VARARG}
  }

  /** Operands that the machine does not look at are 0, a CONCAT has two operands at least, and VARARG is only in a
      function with varargs that needs no table of them. */
  predicate WellFormed(pt: Proto, i: Word) {
    var op := Opcode(i);
    && op < NUM_OPCODES
    && (LacksC(op) ==> ArgC(i) == 0)
    && (op == OP_CLOSE || op == OP_TFORLOOP ==> ArgB(i) == 0)
    && (op == OP_CONCAT ==> ArgB(i) < ArgC(i))
    && (op == OP_VARARG ==> IsVararg(pt) && !NeedsArg(pt))
  }

  /** What the checker asks although the machine does not need it: A is a register even where it is none, or a flag;
      so is B of a TEST; FORPREP has the fourth register of its loop, TAILCALL room for its C, and TFORLOOP a
      result. */
  predicate Stricter(i: Word, size: int) {
    var op := Opcode(i);
    && ArgA(i) < size
    && (op == OP_TEST ==> ArgB(i) < size)
    && (op == OP_FORPREP ==> ArgA(i) + 3 < size)
    && (op == OP_TAILCALL ==> ArgC(i) == 0 || ArgA(i) + ArgC(i) - 2 < size)
    && (op == OP_TFORLOOP ==> ArgC(i) >= 1)
  }

  ghost predicate Correct(pt: Proto, pc: int)
    requires 0 <= pc < |pt.code|
  {
    var i := pt.code[pc];
    && WellFormed(pt, i) && Stricter(i, pt.maxstacksize) && RegistersFit(i, pt.maxstacksize) && ValuesFit(pt, i)
    && Followed(pt, pc) && StaysInside(pt, pc)
  }

  lemma HeaderIff(pt: Proto)
    ensures Header(pt) <==> Precheck(pt)
  {}

  // ---------- what is accepted is correct ----------

  lemma AcceptedCorrect(pt: Proto, pc: int)
    requires Accepts(pt) && Inside(pt.code, pc)
    ensures Correct(pt, pc)
  {
    var i := pt.code[pc];
    assert InstrOK(pt, pc) && Precheck(pt);
    OperandsInside(pt, pc);
    StepInside(pt, pc);
    AcceptedFormat(pt, pc);
    AcceptedFollowed(pt, pc);
    AcceptedRegisters(pt, pc);
    hide WellFormed, Stricter, RegistersFit, Followed, InstrOK, Accepts, Touches, Next, Opcode, ArgC, ArgA, ArgB, ArgBx;
  }

  lemma AcceptedFormat(pt: Proto, pc: int)
    requires Precheck(pt) && 0 <= pc < |pt.code| && InstrOK(pt, pc)
    ensures WellFormed(pt, pt.code[pc]) && Stricter(pt.code[pc], pt.maxstacksize)
  {
    hide Opcode, ArgA, ArgB, ArgC, ArgBx, ArgsBx, Boundary, PseudoOK, OpenOp, LongSetlist;
  }

  lemma AcceptedFollowed(pt: Proto, pc: int)
    requires Precheck(pt) && 0 <= pc < |pt.code| && InstrOK(pt, pc)
    ensures Followed(pt, pc)
  {
    TestOps(Opcode(pt.code[pc]));
    hide Modes, FormatOK, ArgA, ArgB, ArgC, ArgBx, ArgsBx, Boundary, LongSetlist, OpenOp, PseudoInstr;
  }

  lemma TestOps(op: int)
    ensures 0 <= op < NUM_OPCODES ==> (Modes(op).test <==> IsTestOp(op))
  {}

  lemma AcceptedRegisters(pt: Proto, pc: int)
    requires Precheck(pt) && 0 <= pc < |pt.code| && InstrOK(pt, pc)
    requires forall r :: Touches(pt.code[pc], r) ==> 0 <= r < pt.maxstacksize + 2
    requires Below(pt.code[pc], pt.maxstacksize) <==> ForOK(pt.code[pc], pt.maxstacksize)
    ensures RegistersFit(pt.code[pc], pt.maxstacksize)
  {
    hide Modes, FormatOK, Touches, Opcode, ArgA, ArgB, ArgC, ArgBx, ArgsBx, Boundary, LongSetlist, OpenOp, PseudoOK;
  }

  // ---------- what is correct is accepted ----------

  lemma CorrectBinary(pt: Proto, pc: int)
    requires 0 <= pc < |pt.code| && Correct(pt, pc) && IsBinary(Opcode(pt.code[pc]))
    ensures OperandsOK(pt, pc)
  {
    var i := pt.code[pc];
    assert Modes(Opcode(i)).format == ABC && Modes(Opcode(i)).b == ArgK && Modes(Opcode(i)).c == ArgK;
    if IsKRef(ArgB(i)) { assert TakesConstant(i, ArgB(i) - 256); } else { assert Touches(i, ArgB(i)); }
    if IsKRef(ArgC(i)) { assert TakesConstant(i, ArgC(i) - 256); } else { assert Touches(i, ArgC(i)); }
    hide Modes, Opcode, ArgA, ArgB, ArgC, Followed, StaysInside, Touches, TakesConstant;
  }

  lemma CorrectJump(pt: Proto, pc: int)
    requires 0 <= pc < |pt.code| && Correct(pt, pc) && IsJump(Opcode(pt.code[pc]))
    ensures OperandsOK(pt, pc)
  {
    var i := pt.code[pc];
    assert pc + 1 + ArgsBx(i) in Next(pt, pc);
    hide Opcode, ArgA, ArgB, ArgC, ArgsBx, Followed, Touches, Boundary, Next, RegistersFit, ValuesFit;
  }

  lemma CorrectOperands(pt: Proto, pc: int)
    requires 0 <= pc < |pt.code| && Correct(pt, pc)
    requires !IsBinary(Opcode(pt.code[pc])) && !IsJump(Opcode(pt.code[pc]))
    ensures OperandsOK(pt, pc)
  {
    var i := pt.code[pc];
    var b, c: int, n, k := ArgB(i), ArgC(i), pt.maxstacksize, |pt.strings|;
    assert Opcode(i) != OP_TFORLOOP ==> (Touches(i, b) ==> b < n) && (Touches(i, c) ==> c < n);
    assert (TakesConstant(i, c - 256) ==> c - 256 < k) && (TakesConstant(i, ArgBx(i)) ==> ArgBx(i) < k);
    hide Opcode, ArgA, ArgB, ArgC, ArgBx, ArgsBx, Followed, StaysInside, Boundary;
  }

  lemma CorrectPlain(pt: Proto, pc: int)
    requires Precheck(pt) && Inside(pt.code, pc) && Correct(pt, pc) && Opcode(pt.code[pc]) < OP_CALL
    ensures OpOK(pt, pc)
  {
    var i, n := pt.code[pc], pt.maxstacksize;
    var op, a, b := Opcode(i), ArgA(i), ArgB(i);
    if op == OP_LOADBOOL && ArgC(i) == 1 {
      assert pc + 2 in Next(pt, pc);
      NextBoundary(pt.code, pc);
      BoundaryOrCount(pt.code, pc + 2);
    } else {
      assert Touches(i, a + 1) ==> a + 1 < n;
      assert TakesConstant(i, ArgBx(i)) ==> ArgBx(i) < |pt.strings| && (TakesName(i) ==> pt.strings[ArgBx(i)]);
      assert TakesUpvalue(i, b) ==> b < pt.nups;
    }
    hide Opcode, ArgA, ArgB, ArgC, ArgBx, ArgsBx, Boundary, OpenOp, PseudoInstr, Next;
  }

  lemma CorrectCall(pt: Proto, pc: int)
    requires Precheck(pt) && Inside(pt.code, pc) && Correct(pt, pc) && Opcode(pt.code[pc]) >= OP_CALL
    ensures OpOK(pt, pc)
  {
    var i, n := pt.code[pc], pt.maxstacksize;
    var op, a: int, b: int, c: int := Opcode(i), ArgA(i), ArgB(i), ArgC(i);
    if op == OP_CALL || op == OP_TAILCALL {
      if b != 0 { TouchedFits(i, n, a + b - 1); }
      if op == OP_CALL && c > 1 { TouchedFits(i, n, a + c - 2); }
    } else if op == OP_TFORLOOP {
      TouchedFits(i, n, a + 2 + c);
    } else if op == OP_FORLOOP {
      TouchedFits(i, n, a + 3);
    } else if op == OP_SETLIST {
      if b > 0 { TouchedFits(i, n, a + b); }
      assert c == 0 ==> pc + 2 in Next(pt, pc);
    } else if (op == OP_RETURN || op == OP_VARARG) && b > 1 {
      TouchedFits(i, n, a + b - 2);
    }
    CallOperand(i);
    hide Opcode, ArgA, ArgB, ArgC, ArgBx, ArgsBx, OperandB, Boundary, OpenOp, PseudoInstr, Next;
    hide ValuesFit, RegistersFit, Touches;
  }

  lemma CallOperand(i: Word)
    requires OP_CALL <= Opcode(i) < NUM_OPCODES
    ensures Opcode(i) == OP_CLOSURE ==> OperandB(i) == ArgBx(i)
    ensures Opcode(i) !in {OP_FORLOOP, OP_FORPREP, OP_CLOSURE} ==> OperandB(i) == ArgB(i)
  {
    hide Opcode, ArgB, ArgBx, ArgsBx;
  }

  lemma TouchedFits(i: Word, size: int, r: int)
    requires RegistersFit(i, size) && Touches(i, r)
    requires Opcode(i) == OP_TFORLOOP ==> r <= ArgA(i) + 2 + ArgC(i)
    ensures r < size
  {}

  lemma CorrectAccepted(pt: Proto, pc: int)
    requires Precheck(pt) && Inside(pt.code, pc) && Correct(pt, pc)
    ensures InstrOK(pt, pc)
  {
    var op := Opcode(pt.code[pc]);
    if IsBinary(op) {
      CorrectBinary(pt, pc);
    } else if IsJump(op) {
      CorrectJump(pt, pc);
    } else {
      CorrectOperands(pt, pc);
    }
    if op < OP_CALL { CorrectPlain(pt, pc); } else { CorrectCall(pt, pc); }
    TestOps(op);
    if IsTestOp(op) { assert pc + 2 in Next(pt, pc); }
    hide OperandsOK, OpOK, Stricter, RegistersFit, ValuesFit, Boundary, Next;
  }

  /** luaG_checkcode accepts exactly the functions with a correct header and only correct instructions. */
  lemma AcceptsIff(pt: Proto)
    ensures Accepts(pt) <==> Header(pt) && forall pc | 0 <= pc < |pt.code| && Boundary(pt.code, pc) :: Correct(pt, pc)
  {
    HeaderIff(pt);
    if Accepts(pt) {
      forall pc | 0 <= pc < |pt.code| && Boundary(pt.code, pc) ensures Correct(pt, pc) { AcceptedCorrect(pt, pc); }
    }
    if Header(pt) && forall pc | 0 <= pc < |pt.code| && Boundary(pt.code, pc) :: Correct(pt, pc) {
      forall pc | 0 <= pc < |pt.code| && Boundary(pt.code, pc) ensures InstrOK(pt, pc) { CorrectAccepted(pt, pc); }
    }
    hide Correct, InstrOK, Header, Precheck, Boundary;
  }
}
