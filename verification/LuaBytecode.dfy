/** Bytecode as it is stored: 32-bit instructions (lopcodes.h, lopcodes.c), the parts of a function
    prototype that the checker looks at, and where the machine may go next (lvm.c). */
module LuaBytecode {

  type Word = w: int | 0 <= w < 0x1_0000_0000

  /** Opcode in bits 0-5, A in 6-13, C in 14-22, B in 23-31; Bx is B and C together. */
  function Opcode(i: Word): nat { i % 64 }
  function ArgA(i: Word): nat { i / 64 % 256 }
  function ArgB(i: Word): nat { i / 0x80_0000 }
  function ArgC(i: Word): nat { i / 0x4000 % 512 }
  function ArgBx(i: Word): nat { i / 0x4000 }
  function ArgsBx(i: Word): int { ArgBx(i) - 131071 }

  const OP_MOVE := 0
  const OP_LOADK := 1
  const OP_LOADBOOL := 2
  const OP_LOADNIL := 3
  const OP_GETUPVAL := 4
  const OP_GETGLOBAL := 5
  const OP_GETTABLE := 6
  const OP_SETGLOBAL := 7
  const OP_SETUPVAL := 8
  const OP_SETTABLE := 9
  const OP_NEWTABLE := 10
  const OP_SELF := 11
  const OP_ADD := 12
  const OP_POW := 17
  const OP_UNM := 18
  const OP_NOT := 19
  const OP_LEN := 20
  const OP_CONCAT := 21
  const OP_JMP := 22
  const OP_EQ := 23
  const OP_LT := 24
  const OP_LE := 25
  const OP_TEST := 26
  const OP_TESTSET := 27
  const OP_CALL := 28
  const OP_TAILCALL := 29
  const OP_RETURN := 30
  const OP_FORLOOP := 31
  const OP_FORPREP := 32
  const OP_TFORLOOP := 33
  const OP_SETLIST := 34
  const OP_CLOSE := 35
  const OP_CLOSURE := 36
  const OP_VARARG := 37
  const NUM_OPCODES := 38

  datatype Format = ABC | ABx | AsBx
  datatype ArgMode = ArgN | ArgU | ArgR | ArgK

  /** A row of luaP_opmodes. */
  datatype Mode = Mode(test: bool, setsA: bool, b: ArgMode, c: ArgMode, format: Format)

  function Modes(op: int): Mode {
    match op
    case 0 => Mode(false, true, ArgR, ArgN, ABC)
    case 1 => Mode(false, true, ArgK, ArgN, ABx)
    case 2 => Mode(false, true, ArgU, ArgU, ABC)
    case 3 => Mode(false, true, ArgR, ArgN, ABC)
    case 4 => Mode(false, true, ArgU, ArgN, ABC)
    case 5 => Mode(false, true, ArgK, ArgN, ABx)
    case 6 => Mode(false, true, ArgR, ArgK, ABC)
    case 7 => Mode(false, false, ArgK, ArgN, ABx)
    case 8 => Mode(false, false, ArgU, ArgN, ABC)
    case 9 => Mode(false, false, ArgK, ArgK, ABC)
    case 10 => Mode(false, true, ArgU, ArgU, ABC)
    case 11 => Mode(false, true, ArgR, ArgK, ABC)
    case 12 => Mode(false, true, ArgK, ArgK, ABC)
    case 13 => Mode(false, true, ArgK, ArgK, ABC)
    case 14 => Mode(false, true, ArgK, ArgK, ABC)
    case 15 => Mode(false, true, ArgK, ArgK, ABC)
    case 16 => Mode(false, true, ArgK, ArgK, ABC)
    case 17 => Mode(false, true, ArgK, ArgK, ABC)
    case 18 => Mode(false, true, ArgR, ArgN, ABC)
    case 19 => Mode(false, true, ArgR, ArgN, ABC)
    case 20 => Mode(false, true, ArgR, ArgN, ABC)
    case 21 => Mode(false, true, ArgR, ArgR, ABC)
    case 22 => Mode(false, false, ArgR, ArgN, AsBx)
    case 23 => Mode(true, false, ArgK, ArgK, ABC)
    case 24 => Mode(true, false, ArgK, ArgK, ABC)
    case 25 => Mode(true, false, ArgK, ArgK, ABC)
    case 26 => Mode(true, true, ArgR, ArgU, ABC)
    case 27 => Mode(true, true, ArgR, ArgU, ABC)
    case 28 => Mode(false, true, ArgU, ArgU, ABC)
    case 29 => Mode(false, true, ArgU, ArgU, ABC)
    case 30 => Mode(false, false, ArgU, ArgN, ABC)
    case 31 => Mode(false, true, ArgR, ArgN, AsBx)
    case 32 => Mode(false, true, ArgR, ArgN, AsBx)
    case 33 => Mode(true, false, ArgN, ArgU, ABC)
    case 34 => Mode(false, false, ArgU, ArgU, ABC)
    case 35 => Mode(false, false, ArgN, ArgN, ABC)
    case 36 => Mode(false, true, ArgU, ArgN, ABx)
    case _ => Mode(false, true, ArgU, ArgN, ABC)
  }

  /** Of the constants, whether each is a string; of the nested functions, how many upvalues. */
  datatype Proto = Proto(
    code: seq<Word>,
    strings: seq<bool>,
    nested: seq<nat>,
    numparams: nat,
    isVararg: nat,
    maxstacksize: nat,
    nups: nat,
    sizeupvalues: nat,
    sizelineinfo: nat)

  // ---------- instruction boundaries ----------

  /** A SETLIST whose count is the whole next word. */
  predicate LongSetlist(i: Word) {
    Opcode(i) == OP_SETLIST && ArgC(i) == 0
  }

  /** Decoding from the first word on, an instruction starts at p. */
  predicate Boundary(code: seq<Word>, p: int)
    decreases p
  {
    || p == 0
    || (1 <= p <= |code| && Boundary(code, p - 1) && !LongSetlist(code[p - 1]))
    || (2 <= p <= |code| && Boundary(code, p - 2) && LongSetlist(code[p - 2]))
  }

  /** An instruction of the function, and not the count of a SETLIST. */
  predicate Inside(code: seq<Word>, p: int) {
    0 <= p < |code| && Boundary(code, p)
  }

  // ---------- the machine's control flow ----------

  /** Where luaV_execute may go from pc, other than by leaving the function or raising an error. */
  function Next(pt: Proto, pc: int): set<int>
    requires 0 <= pc < |pt.code|
  {
    var i := pt.code[pc];
    var op := Opcode(i);
    if op == OP_JMP || op == OP_FORPREP then {pc + 1 + ArgsBx(i)}
    else if op == OP_FORLOOP then {pc + 1, pc + 1 + ArgsBx(i)}
    else if Modes(op).test then
      if pc + 1 < |pt.code| then {pc + 2, pc + 2 + ArgsBx(pt.code[pc + 1])} else {pc + 2}
    else if op == OP_LOADBOOL then {if ArgC(i) != 0 then pc + 2 else pc + 1}
    else if op == OP_SETLIST then {if ArgC(i) == 0 then pc + 2 else pc + 1}
    else if op == OP_CLOSURE then {pc + 1 + (if ArgBx(i) < |pt.nested| then pt.nested[ArgBx(i)] else 0)}
    else if op == OP_RETURN then {}
    else {pc + 1}
  }

  /** The positions of a run, from the first instruction on. */
  ghost predicate RunOf(pt: Proto, run: seq<int>) {
    && run != [] && run[0] == 0
    && forall i | 0 <= i < |run| - 1 :: 0 <= run[i] < |pt.code| && run[i + 1] in Next(pt, run[i])
  }
}
