/** The operands of an accepted function (ldebug.c) against what the machine does with them (lvm.c): which
    registers, constants and upvalues an instruction uses, and where they lie on every run. */
module LuaFrame {
  import opened LuaBytecode
  import opened LuaDebug
  import opened LuaSafety

  // ---------- what the machine uses ----------

  /** A B or C operand that may be a constant is register r. */
  predicate RK(x: int, r: int) { r == x && !IsKRef(x) }

  /** luaV_execute reads or writes register r for the instruction. Values that an open call or vararg has left
      above the registers are not counted. */
  predicate Touches(i: Word, r: int) {
    var op := Opcode(i);
    var a, b, c := ArgA(i), ArgB(i), ArgC(i);
    if op == OP_MOVE || op == OP_UNM || op == OP_NOT || op == OP_LEN || op == OP_TESTSET then r == a || r == b
    else if op == OP_LOADNIL then r == b || a <= r <= b
    else if op == OP_GETTABLE then r == a || r == b || RK(c, r)
    else if op == OP_SELF then r == a || r == a + 1 || r == b || RK(c, r)
    else if op == OP_SETTABLE || OP_ADD <= op <= OP_POW then r == a || RK(b, r) || RK(c, r)
    else if op == OP_EQ || op == OP_LT || op == OP_LE then RK(b, r) || RK(c, r)
    else if op == OP_CONCAT then r == a || b <= r <= c
    else if op == OP_CALL then r == a || a <= r < a + b || a <= r < a + c - 1
    else if op == OP_TAILCALL then r == a || a <= r < a + b
    else if op == OP_RETURN || op == OP_VARARG then a <= r < a + b - 1
    else if op == OP_FORLOOP then a <= r <= a + 3
    else if op == OP_FORPREP then a <= r <= a + 2
    else if op == OP_TFORLOOP then a <= r <= a + 5 || a <= r <= a + 2 + c
    else if op == OP_SETLIST then a <= r <= a + b
    else op != OP_JMP && r == a
  }

  /** Word j tells the CLOSURE at pc where an upvalue of the new function comes from. */
  predicate Pseudo(pt: Proto, pc: int, j: int)
    requires 0 <= pc < |pt.code|
  {
    pc < j <= pc + (if ArgBx(pt.code[pc]) < |pt.nested| then pt.nested[ArgBx(pt.code[pc])] else 0)
  }

  /** luaV_execute takes constant k. */
  predicate TakesConstant(i: Word, k: int) {
    var op := Opcode(i);
    if op == OP_LOADK || op == OP_GETGLOBAL || op == OP_SETGLOBAL then k == ArgBx(i)
    else if op == OP_GETTABLE || op == OP_SELF then k == ArgC(i) - 256 >= 0
    else if op == OP_SETTABLE || OP_ADD <= op <= OP_POW || op == OP_EQ || op == OP_LT || op == OP_LE then
      k == ArgB(i) - 256 >= 0 || k == ArgC(i) - 256 >= 0
    else false
  }

  predicate TakesName(i: Word) { Opcode(i) == OP_GETGLOBAL || Opcode(i) == OP_SETGLOBAL }

  /** luaV_execute takes upvalue u. */
  predicate TakesUpvalue(i: Word, u: int) {
    (Opcode(i) == OP_GETUPVAL || Opcode(i) == OP_SETUPVAL) && u == ArgB(i)
  }

  /** luaV_execute may write register r for the instruction. A call leaves nothing certain from its function on. */
  predicate Writes(i: Word, r: int) {
    var op := Opcode(i);
    var a, b, c := ArgA(i), ArgB(i), ArgC(i);
    if op == OP_LOADNIL then r == b || a <= r <= b
    else if op == OP_SELF then r == a || r == a + 1
    else if op == OP_CONCAT then r == a || b <= r <= c
    else if op == OP_CALL || op == OP_TAILCALL then r >= a
    else if op == OP_FORLOOP then r == a || r == a + 3
    else if op == OP_FORPREP then a <= r <= a + 2
    else if op == OP_TFORLOOP then r >= a + 2
    else if op == OP_VARARG then if b == 0 then r >= a else a <= r < a + b - 1
    else if op in {OP_SETGLOBAL, OP_SETUPVAL, OP_SETTABLE, OP_JMP, OP_EQ, OP_LT, OP_LE, OP_TEST} then false
    else op != OP_RETURN && op != OP_SETLIST && op != OP_CLOSE && r == a
  }

  /** What tracing takes for a change is what the machine may write, with these exceptions: A is taken for written
      where it is not (TEST, VARARG without values, LOADNIL with B below A), and of the registers besides A, those of
      CONCAT, FORLOOP, FORPREP and VARARG are missed, and B of such a LOADNIL. */
  lemma ChangesIff(i: Word, r: int)
    requires Opcode(i) < NUM_OPCODES
    ensures var op := Opcode(i);
            var idle := r == ArgA(i)
                        && (|| op == OP_TEST || (op == OP_VARARG && ArgB(i) == 1)
                            || (op == OP_LOADNIL && ArgB(i) < ArgA(i)));
            var missed := r != ArgA(i)
                          && (|| op == OP_CONCAT || op == OP_FORLOOP || op == OP_FORPREP || op == OP_VARARG
                              || (op == OP_LOADNIL && r == ArgB(i) < ArgA(i)));
            Changes(i, r) <==> (Writes(i, r) && !missed) || idle
  {
    hide Opcode, ArgA, ArgB, ArgC;
  }

  // ---------- where it lies ----------

  ghost predicate Below(i: Word, size: int) {
    forall r :: Touches(i, r) ==> 0 <= r < size
  }

  /** TFORLOOP copies three values above its control variables whatever its C is; the checker only asks for
      room for the results. */
  predicate ForOK(i: Word, size: int) { Opcode(i) == OP_TFORLOOP ==> ArgA(i) + 5 < size }

  predicate IsBinary(op: int) {
    op == OP_SETTABLE || OP_ADD <= op <= OP_POW || op == OP_EQ || op == OP_LT || op == OP_LE
  }

  lemma BinaryBelow(pt: Proto, pc: int)
    requires 0 <= pc < |pt.code| && OperandsOK(pt, pc) && IsBinary(Opcode(pt.code[pc]))
    ensures forall r :: Touches(pt.code[pc], r) ==> 0 <= r < pt.maxstacksize
    ensures forall k :: TakesConstant(pt.code[pc], k) ==> 0 <= k < |pt.strings|
  {
    var i := pt.code[pc];
    assert Modes(Opcode(i)).format == ABC && Modes(Opcode(i)).b == ArgK && Modes(Opcode(i)).c == ArgK;
    hide Modes, Opcode, ArgA, ArgB, ArgC;
  }

  lemma CallBelow(pt: Proto, pc: int)
    requires Precheck(pt) && 0 <= pc < |pt.code| && InstrOK(pt, pc) && OP_CALL <= Opcode(pt.code[pc]) <= OP_VARARG
    ensures forall r :: Touches(pt.code[pc], r) ==> 0 <= r < pt.maxstacksize + 2
    ensures Below(pt.code[pc], pt.maxstacksize) <==> ForOK(pt.code[pc], pt.maxstacksize)
  {
    var i := pt.code[pc];
    assert Opcode(i) == OP_TFORLOOP ==> Touches(i, ArgA(i) + 5);
    hide Opcode, ArgA, ArgB, ArgC, ArgBx, ArgsBx, Boundary, PseudoOK, OpenOp, LongSetlist;
  }

  lemma PlainBelow(pt: Proto, pc: int)
    requires Precheck(pt) && 0 <= pc < |pt.code| && InstrOK(pt, pc)
    requires Opcode(pt.code[pc]) < OP_CALL && !IsBinary(Opcode(pt.code[pc]))
    ensures forall r :: Touches(pt.code[pc], r) ==> 0 <= r < pt.maxstacksize
    ensures forall k :: TakesConstant(pt.code[pc], k) ==> 0 <= k < |pt.strings|
  {
    hide Opcode, ArgA, ArgB, ArgC, ArgBx, ArgsBx, Boundary, PseudoOK, OpenOp, LongSetlist;
  }

  /** All that the machine uses for an accepted instruction is there; its registers lie inside the frame, but
      for those of a TFORLOOP, which may reach two slots above it. */
  lemma OperandsInside(pt: Proto, pc: int)
    requires Accepts(pt) && Inside(pt.code, pc)
    ensures var i := pt.code[pc];
            && (forall r :: Touches(i, r) ==> 0 <= r < pt.maxstacksize + 2)
            && (Below(i, pt.maxstacksize) <==> ForOK(i, pt.maxstacksize))
            && (forall k :: TakesConstant(i, k) ==> 0 <= k < |pt.strings| && (TakesName(i) ==> pt.strings[k]))
            && (forall u :: TakesUpvalue(i, u) ==> 0 <= u < pt.nups)
  {
    assert InstrOK(pt, pc);
    var i := pt.code[pc];
    if Opcode(i) >= OP_CALL {
      CallBelow(pt, pc);
    } else {
      if IsBinary(Opcode(i)) { BinaryBelow(pt, pc); } else { PlainBelow(pt, pc); }
      assert Below(i, pt.maxstacksize);
    }
    hide Accepts, Boundary, Touches, FormatOK, PseudoOK, ArgB, ArgC, ArgA, ArgBx, ArgsBx, Opcode, OpenOp, LongSetlist;
  }

  /** What a new function captures is a register of the frame, or an upvalue of the function. */
  lemma CapturesInside(pt: Proto, pc: int, j: int)
    requires Accepts(pt) && Inside(pt.code, pc) && Opcode(pt.code[pc]) == OP_CLOSURE && Pseudo(pt, pc, j)
    ensures j < |pt.code| && Inside(pt.code, j)
    ensures Opcode(pt.code[j]) == OP_GETUPVAL ==> ArgB(pt.code[j]) < pt.nups
    ensures Opcode(pt.code[j]) != OP_GETUPVAL ==> ArgB(pt.code[j]) < pt.maxstacksize
  {
    assert InstrOK(pt, pc);
    PseudoBoundary(pt, pc, j - pc - 1);
    assert PseudoInstr(pt.code[j]) && InstrOK(pt, j);
    hide Boundary, ArgA, ArgB, ArgC, ArgBx, ArgsBx, Accepts;
  }

  // ---------- runs ----------

  /** What the instruction at pc uses is there: constants, strings for names, upvalues, and registers up to two
      slots above the frame. */
  ghost predicate OperandsFit(pt: Proto, pc: int) {
    && Inside(pt.code, pc)
    && var i := pt.code[pc];
       && (forall r :: Touches(i, r) ==> 0 <= r < pt.maxstacksize + 2)
       && (forall k :: TakesConstant(i, k) ==> 0 <= k < |pt.strings| && (TakesName(i) ==> pt.strings[k]))
       && (forall u :: TakesUpvalue(i, u) ==> 0 <= u < pt.nups)
  }

  /** On all runs of an accepted function all operands are there, and its registers lie inside its frame if and
      only if every TFORLOOP that some run comes to has room for the three values it copies. */
  lemma RunsInFrame(pt: Proto)
    requires Accepts(pt) && forall pc | 0 <= pc < |pt.code| && Reached(pt, pc) :: SkipOK(pt, pc)
    ensures forall pc | Reached(pt, pc) :: OperandsFit(pt, pc)
    ensures (forall pc | Reached(pt, pc) :: 0 <= pc < |pt.code| && Below(pt.code[pc], pt.maxstacksize))
              <==> (forall pc | 0 <= pc < |pt.code| && Reached(pt, pc) :: ForOK(pt.code[pc], pt.maxstacksize))
  {
    InsideIffReachedSkipsOK(pt);
    forall pc | Reached(pt, pc)
      ensures OperandsFit(pt, pc)
      ensures Below(pt.code[pc], pt.maxstacksize) <==> ForOK(pt.code[pc], pt.maxstacksize)
    {
      assert Inside(pt.code, pc);
      OperandsInside(pt, pc);
    }
    hide Below, ForOK, OperandsFit, Reached, Accepts, SkipOK;
  }

  /** TFORLOOP 0 1, JMP to the next instruction, RETURN, in a frame of four registers */
  function TightLoop(): Proto { Proto([0x4021, 0x7FFF_C016, 0x80001E], [], [], 0, 0, 4, 0, 0, 0) }

  lemma TightBoundaries()
    ensures var code := TightLoop().code; Boundary(code, 0) && Boundary(code, 1) && Boundary(code, 2) && |code| == 3
  {
    var code := TightLoop().code;
    assert !LongSetlist(code[0]) && !LongSetlist(code[1]);
  }

  lemma TightInstrs()
    ensures InstrOK(TightLoop(), 0) && InstrOK(TightLoop(), 2) && Precheck(TightLoop())
  {
    hide Boundary;
  }

  lemma TightJump()
    ensures InstrOK(TightLoop(), 1)
  {
    TightBoundaries();
    hide Boundary;
  }

  lemma TightTouches()
    ensures Touches(TightLoop().code[0], 5) && Opcode(TightLoop().code[0]) < NUM_OPCODES
  {
    var i := TightLoop().code[0];
    assert Opcode(i) == OP_TFORLOOP && ArgA(i) == 0;
  }

  /** It is accepted, and its first instruction writes a slot above the frame. */
  lemma LoopAboveFrame()
    ensures Accepts(TightLoop()) && Reached(TightLoop(), 0)
    ensures Touches(TightLoop().code[0], 5) && TightLoop().maxstacksize == 4
  {
    TightBoundaries();
    TightInstrs();
    TightJump();
    TightTouches();
    hide InstrOK, Boundary, Next, Precheck, Touches, Opcode, ArgA, ArgB, ArgC;
    assert RunOf(TightLoop(), [0]) && [0][|[0]| - 1] == 0;
  }
}
