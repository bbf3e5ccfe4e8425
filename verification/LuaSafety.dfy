/** What luaG_checkcode guarantees: the control flow of an accepted function. */
module LuaSafety {
  import opened LuaLimits
  import opened LuaBytecode
  import opened LuaDebug

  /** Everything is checked of every instruction that decoding from the first word finds. */
  predicate Accepts(pt: Proto) {
    Precheck(pt) && forall pc | 0 <= pc < |pt.code| :: Boundary(pt.code, pc) ==> InstrOK(pt, pc)
  }

  // ---------- the scan covers the function ----------

  lemma NextBoundary(code: seq<Word>, pc: int)
    requires Inside(code, pc)
    ensures !LongSetlist(code[pc]) ==> Boundary(code, pc + 1)
    ensures LongSetlist(code[pc]) ==>
              && (pc + 1 <= |code| ==> !Boundary(code, pc + 1))
              && (pc + 2 <= |code| ==> Boundary(code, pc + 2))
  {
    BoundaryOrCount(code, pc + 1);
    if LongSetlist(code[pc]) && pc + 2 <= |code| { BoundaryOrCount(code, pc + 2); }
  }

  /** Every instruction from a position on is acceptable. */
  predicate AllOK(pt: Proto, from: int)
    requires Precheck(pt) && from >= 0
  {
    forall q | from <= q < |pt.code| :: Boundary(pt.code, q) ==> InstrOK(pt, q)
  }

  /** Following no register, the scan goes on with the next instruction. */
  lemma ScanNextIs(pt: Proto, pc: int)
    requires 0 <= pc < |pt.code|
    ensures ScanNext(pt, pc, |pt.code|, NO_REG) == if LongSetlist(pt.code[pc]) then pc + 2 else pc + 1
  {}

  lemma AllOKNext(pt: Proto, pc: int, next: int)
    requires Precheck(pt) && Inside(pt.code, pc) && InstrOK(pt, pc)
    requires next == pc + 1 || (next == pc + 2 && (pc + 1 < |pt.code| ==> !Boundary(pt.code, pc + 1)))
    ensures AllOK(pt, pc) <==> AllOK(pt, next)
  {
    hide InstrOK, Boundary;
    if AllOK(pt, next) {
      forall q | pc <= q < |pt.code| && Boundary(pt.code, q) ensures InstrOK(pt, q) {
        if q < next { assert q == pc; }
      }
    }
  }

  lemma {:induction false} ScanAll(pt: Proto, pc: int, last: int)
    requires Precheck(pt) && 0 <= pc && (pc <= |pt.code| ==> Boundary(pt.code, pc))
    ensures Scan(pt, pc, |pt.code|, NO_REG, last).Some? <==> AllOK(pt, pc)
    decreases |pt.code| - pc
  {
    if pc < |pt.code| && InstrOK(pt, pc) {
      NextBoundary(pt.code, pc);
      ScanNextIs(pt, pc);
      hide InstrOK, Changes, Boundary, ScanNext, LongSetlist, AllOK;
      AllOKNext(pt, pc, ScanNext(pt, pc, |pt.code|, NO_REG));
      ScanAll(pt, ScanNext(pt, pc, |pt.code|, NO_REG), if Changes(pt.code[pc], NO_REG) then pc else last);
    }
  }

  /** Following no register, only an instruction that is not all zero is taken for a change. */
  lemma {:induction false} ScanNotZero(pt: Proto, pc: int, last: int)
    requires Precheck(pt) && 0 <= pc && 0 <= last < |pt.code| && pt.code[last] != 0
    requires Scan(pt, pc, |pt.code|, NO_REG, last).Some?
    ensures var p := Scan(pt, pc, |pt.code|, NO_REG, last).value; 0 <= p < |pt.code| && pt.code[p] != 0
    decreases |pt.code| - pc
  {
    if pc < |pt.code| {
      if Changes(pt.code[pc], NO_REG) { NotZero(pt, pc); }
      hide InstrOK, Changes, ScanNext;
      ScanNotZero(pt, ScanNext(pt, pc, |pt.code|, NO_REG), if Changes(pt.code[pc], NO_REG) then pc else last);
    }
  }

  lemma NotZero(pt: Proto, pc: int)
    requires Precheck(pt) && 0 <= pc < |pt.code| && InstrOK(pt, pc) && Changes(pt.code[pc], NO_REG)
    ensures pt.code[pc] != 0
  {
    hide OpOK;
  }

  /** luaG_checkcode: true exactly when the function is acceptable. */
  method CheckCode(pt: Proto) returns (good: bool)
    ensures good <==> Accepts(pt)
  {
    if Precheck(pt) {
      ScanAll(pt, 0, |pt.code| - 1);
      if Symbolic(pt, |pt.code|, NO_REG).Some? { ScanNotZero(pt, 0, |pt.code| - 1); }
    }
    var r := Symbexec(pt, |pt.code|, NO_REG);
    return r.Some? && pt.code[r.value] != 0;
  }

  // ---------- control flow ----------

  /** A LOADBOOL whose skip flag is neither 0 nor 1 skips an instruction of the function. The
      checker looks at the flag 1 only, while the machine skips for every flag but 0. */
  predicate SkipOK(pt: Proto, pc: int)
    requires 0 <= pc < |pt.code|
  {
    Opcode(pt.code[pc]) == OP_LOADBOOL && ArgC(pt.code[pc]) > 1 ==> pc + 2 < |pt.code| && !LongSetlist(pt.code[pc + 1])
  }

  predicate SkipsOK(pt: Proto) {
    forall pc | 0 <= pc < |pt.code| :: Boundary(pt.code, pc) ==> SkipOK(pt, pc)
  }

  lemma {:induction false} PseudoBoundary(pt: Proto, pc: int, nup: nat)
    requires Inside(pt.code, pc) && !LongSetlist(pt.code[pc]) && PseudoOK(pt, pc, nup)
    ensures Boundary(pt.code, pc + 1 + nup)
    decreases nup
  {
    if nup > 0 {
      PseudoBoundary(pt, pc, nup - 1);
      assert PseudoInstr(pt.code[pc + nup]);
      NextBoundary(pt.code, pc + nup);
    } else {
      NextBoundary(pt.code, pc);
    }
  }

  /** An accepted instruction, other than a strange LOADBOOL, goes on to instructions only. */
  lemma StepInside(pt: Proto, pc: int)
    requires Accepts(pt) && Inside(pt.code, pc)
    ensures (forall q | q in Next(pt, pc) :: Inside(pt.code, q)) <==> SkipOK(pt, pc)
  {
    var op := Opcode(pt.code[pc]);
    assert InstrOK(pt, pc);
    hide Next, InstrOK, Accepts, Boundary, Modes;
    if op == OP_CLOSURE {
      ClosureStep(pt, pc);
    } else if Modes(op).test {
      TestStep(pt, pc);
      LoadBoolNoTest();
    } else if op == OP_LOADBOOL {
      PrecheckOf(pt);
      LoadBoolStep(pt, pc);
    } else if IsJump(op) {
      JumpStep(pt, pc);
    } else {
      PlainStep(pt, pc);
    }
  }

  lemma PrecheckOf(pt: Proto)
    requires Accepts(pt)
    ensures Precheck(pt)
  {}

  lemma LoadBoolNoTest()
    ensures !Modes(OP_LOADBOOL).test
  {}

  predicate IsJump(op: int) { op == OP_JMP || op == OP_FORLOOP || op == OP_FORPREP }

  lemma JumpStep(pt: Proto, pc: int)
    requires Accepts(pt) && Inside(pt.code, pc) && IsJump(Opcode(pt.code[pc]))
    ensures forall q | q in Next(pt, pc) :: Inside(pt.code, q)
  {
    var i := pt.code[pc];
    assert InstrOK(pt, pc) && FormatOK(pt, pc, i, Modes(Opcode(i)));
    NextBoundary(pt.code, pc);
    hide Boundary, ArgA, ArgB, ArgC, ArgBx, ArgsBx;
  }

  /** Neither a jump, nor a test, nor something that skips. */
  lemma PlainStep(pt: Proto, pc: int)
    requires Accepts(pt) && Inside(pt.code, pc)
    requires var op := Opcode(pt.code[pc]); op != OP_CLOSURE && op != OP_LOADBOOL && !Modes(op).test && !IsJump(op)
    ensures forall q | q in Next(pt, pc) :: Inside(pt.code, q)
  {
    var i := pt.code[pc];
    assert InstrOK(pt, pc);
    NextBoundary(pt.code, pc);
    if pc + 1 < |pt.code| && Boundary(pt.code, pc + 1) { NextBoundary(pt.code, pc + 1); }
    hide Boundary, ArgA, ArgB, ArgC, Opcode, ArgBx, ArgsBx, Modes, FormatOK;
  }

  lemma ClosureStep(pt: Proto, pc: int)
    requires Accepts(pt) && Inside(pt.code, pc) && Opcode(pt.code[pc]) == OP_CLOSURE
    ensures forall q | q in Next(pt, pc) :: Inside(pt.code, q)
  {
    assert InstrOK(pt, pc);
    var nup := pt.nested[ArgBx(pt.code[pc])];
    PseudoBoundary(pt, pc, nup);
    if nup > 0 { assert PseudoInstr(pt.code[pc + nup]); }
  }

  lemma TestStep(pt: Proto, pc: int)
    requires Accepts(pt) && Inside(pt.code, pc) && Modes(Opcode(pt.code[pc])).test
    ensures forall q | q in Next(pt, pc) :: Inside(pt.code, q)
  {
    assert InstrOK(pt, pc);
    NextBoundary(pt.code, pc);
    NextBoundary(pt.code, pc + 1);
    assert InstrOK(pt, pc + 1) && FormatOK(pt, pc + 1, pt.code[pc + 1], Modes(OP_JMP));
    assert Next(pt, pc) == {pc + 2, pc + 2 + ArgsBx(pt.code[pc + 1])};
    hide Boundary, ArgA, ArgB, ArgC, ArgBx, ArgsBx, Next, OpOK, FormatOK;
  }

  lemma LoadBoolStep(pt: Proto, pc: int)
    requires Precheck(pt) && Inside(pt.code, pc) && InstrOK(pt, pc) && Opcode(pt.code[pc]) == OP_LOADBOOL
    ensures (forall q | q in Next(pt, pc) :: Inside(pt.code, q)) <==> SkipOK(pt, pc)
  {
    NextBoundary(pt.code, pc);
    assert pc + 1 < |pt.code|;
    NextBoundary(pt.code, pc + 1);
    if ArgC(pt.code[pc]) != 0 {
      assert pc + 2 in Next(pt, pc);
    }
  }

  /** Safety over whole runs: the machine stays on instructions of the function, and never takes the
      count of a SETLIST for one. */
  lemma {:induction false} RunsInside(pt: Proto, run: seq<int>)
    requires Accepts(pt) && SkipsOK(pt) && RunOf(pt, run)
    ensures forall i | 0 <= i < |run| :: Inside(pt.code, run[i])
    decreases |run|
  {
    var n := |run| - 1;
    if n > 0 {
      assert run[..n][0] == 0;
      RunsInside(pt, run[..n]);
      assert run[..n][n - 1] == run[n - 1];
      StepInside(pt, run[n - 1]);
      assert run[n - 1 + 1] in Next(pt, run[n - 1]);
      forall i | 0 <= i < |run| ensures Inside(pt.code, run[i]) {
        if i < n { assert run[..n][i] == run[i]; }
      }
    }
  }

  /** For an accepted function, the condition on LOADBOOL is exactly what single steps need. */
  lemma ClosedIffSkipsOK(pt: Proto)
    requires Accepts(pt)
    ensures SkipsOK(pt) <==>
              forall pc, q | 0 <= pc < |pt.code| && Boundary(pt.code, pc) && q in Next(pt, pc) :: Inside(pt.code, q)
  {
    forall pc | 0 <= pc < |pt.code| && Boundary(pt.code, pc)
      ensures (forall q | q in Next(pt, pc) :: Inside(pt.code, q)) <==> SkipOK(pt, pc)
    {
      StepInside(pt, pc);
    }
    if !SkipsOK(pt) {
      var pc :| 0 <= pc < |pt.code| && Boundary(pt.code, pc) && !SkipOK(pt, pc);
      var q :| q in Next(pt, pc) && !Inside(pt.code, q);
    }
  }

  /** Some run comes to this position. */
  ghost predicate Reached(pt: Proto, pc: int) {
    exists run :: RunOf(pt, run) && run[|run| - 1] == pc
  }

  lemma ReachedNext(pt: Proto, pc: int, q: int)
    requires Reached(pt, pc) && 0 <= pc < |pt.code| && q in Next(pt, pc)
    ensures Reached(pt, q)
  {
    var run :| RunOf(pt, run) && run[|run| - 1] == pc;
    hide Next;
    assert RunOf(pt, run + [q]) && (run + [q])[|run|] == q;
  }

  lemma {:induction false} RunInside(pt: Proto, run: seq<int>)
    requires Accepts(pt) && RunOf(pt, run)
    requires forall pc | 0 <= pc < |pt.code| && Reached(pt, pc) :: SkipOK(pt, pc)
    ensures Inside(pt.code, run[|run| - 1])
    decreases |run|
  {
    var n := |run| - 1;
    if n > 0 {
      assert run[..n][0] == 0;
      RunInside(pt, run[..n]);
      var pc := run[n - 1];
      assert run[..n][n - 1] == pc;
      assert RunOf(pt, run[..n]) && Reached(pt, pc);
      StepInside(pt, pc);
      assert run[n - 1 + 1] in Next(pt, pc);
    }
  }

  /** For an accepted function, all runs stay on its instructions if and only if every LOADBOOL that some run
      comes to skips an instruction of the function. */
  lemma InsideIffReachedSkipsOK(pt: Proto)
    requires Accepts(pt)
    ensures (forall pc | Reached(pt, pc) :: Inside(pt.code, pc))
              <==> (forall pc | 0 <= pc < |pt.code| && Reached(pt, pc) :: SkipOK(pt, pc))
  {
    if forall pc | Reached(pt, pc) :: Inside(pt.code, pc) {
      forall pc | 0 <= pc < |pt.code| && Reached(pt, pc) ensures SkipOK(pt, pc) {
        StepInside(pt, pc);
        forall q | q in Next(pt, pc) ensures Inside(pt.code, q) { ReachedNext(pt, pc, q); }
      }
    }
    if forall pc | 0 <= pc < |pt.code| && Reached(pt, pc) :: SkipOK(pt, pc) {
      forall pc | Reached(pt, pc) ensures Inside(pt.code, pc) {
        var run :| RunOf(pt, run) && run[|run| - 1] == pc;
        RunInside(pt, run);
      }
    }
  }

  /** A run of an accepted function that has not returned can go on. */
  lemma StopsOnlyAtReturn(pt: Proto, pc: int)
    requires Accepts(pt) && Inside(pt.code, pc)
    ensures Next(pt, pc) == {} <==> Opcode(pt.code[pc]) == OP_RETURN
  {
    var i := pt.code[pc];
    if Opcode(i) != OP_RETURN {
      var q := pc + 1 + ArgsBx(i);
      assert pc + 1 in Next(pt, pc) || pc + 2 in Next(pt, pc) || q in Next(pt, pc) || Opcode(i) == OP_CLOSURE;
    }
  }

  /** LOADBOOL 0 0 2, a SETLIST with its count, RETURN */
  function Strange(): Proto { Proto([0x8002, 34, 1, 0x80001E], [], [], 0, 0, 2, 0, 0, 0) }

  lemma StrangeBoundaries()
    ensures var code := Strange().code;
            Boundary(code, 0) && Boundary(code, 1) && !Boundary(code, 2) && Boundary(code, 3) && |code| == 4
  {
    var code := Strange().code;
    assert LongSetlist(code[1]) && !LongSetlist(code[0]);
    BoundaryOrCount(code, 2);
  }

  lemma StrangeInstrs()
    ensures InstrOK(Strange(), 0) && InstrOK(Strange(), 3) && Precheck(Strange())
  {
    hide Boundary;
  }

  lemma StrangeSetlist()
    ensures InstrOK(Strange(), 1)
  {
    hide Boundary;
  }

  lemma StrangeNext()
    ensures Next(Strange(), 0) == {2}
  {
    hide Boundary, InstrOK;
  }

  /** It is accepted, and the machine runs the count. */
  lemma StrangeLoadBool()
    ensures Accepts(Strange()) && RunOf(Strange(), [0, 2]) && !Inside(Strange().code, 2)
  {
    StrangeBoundaries();
    StrangeInstrs();
    StrangeSetlist();
    StrangeNext();
    hide InstrOK, Boundary, Next, Precheck;
    assert [0, 2][1] in Next(Strange(), 0);
  }

  // ---------- following a register ----------

  /** The positions that the scan looks at. */
  function Visited(pt: Proto, pc: int, lastpc: int, reg: int): (v: seq<int>)
    requires 0 <= pc && lastpc <= |pt.code|
    ensures forall q | q in v :: pc <= q < lastpc
    decreases lastpc - pc
  {
    if pc >= lastpc then [] else [pc] + Visited(pt, ScanNext(pt, pc, lastpc, reg), lastpc, reg)
  }

  lemma ScanNextBoundary(pt: Proto, pc: int, lastpc: int, reg: int)
    requires Accepts(pt) && Inside(pt.code, pc) && lastpc <= |pt.code|
    ensures var q := ScanNext(pt, pc, lastpc, reg); q < lastpc ==> Inside(pt.code, q)
  {
    var i := pt.code[pc];
    var op := Opcode(i);
    assert InstrOK(pt, pc) && FormatOK(pt, pc, i, Modes(op));
    NextBoundary(pt.code, pc);
    if op == OP_CLOSURE {
      PseudoBoundary(pt, pc, pt.nested[ArgBx(i)]);
    } else {
      hide Boundary, ArgA, ArgB, ArgC, Opcode, ArgBx;
    }
  }

  predicate ChangesAt(code: seq<Word>, q: int, reg: int) {
    0 <= q < |code| && Changes(code[q], reg)
  }

  /** After the first n of v, no instruction may change reg. */
  predicate QuietFrom(code: seq<Word>, v: seq<int>, reg: int, n: int) {
    forall m | 0 <= n <= m < |v| :: !ChangesAt(code, v[m], reg)
  }

  /** p is the last position of v whose instruction may change reg, or `last` if there is none. */
  predicate LastChange(code: seq<Word>, v: seq<int>, reg: int, last: int, p: int) {
    || (p == last && QuietFrom(code, v, reg, 0))
    || (exists j :: 0 <= j < |v| && v[j] == p && ChangesAt(code, p, reg) && QuietFrom(code, v, reg, j + 1))
  }

  lemma LastChangeCons(code: seq<Word>, pc: int, w: seq<int>, reg: int, last: int, p: int)
    requires LastChange(code, w, reg, if ChangesAt(code, pc, reg) then pc else last, p)
    ensures LastChange(code, [pc] + w, reg, last, p)
  {
    hide ChangesAt;
    var v := [pc] + w;
    forall n | 0 <= n && QuietFrom(code, w, reg, n) ensures QuietFrom(code, v, reg, n + 1) {
      forall m | n + 1 <= m < |v| ensures !ChangesAt(code, v[m], reg) { assert v[m] == w[m - 1]; }
    }
    if p == (if ChangesAt(code, pc, reg) then pc else last) && QuietFrom(code, w, reg, 0) {
      assert v[0] == pc && QuietFrom(code, v, reg, 1);
    } else {
      var j :| 0 <= j < |w| && w[j] == p && ChangesAt(code, p, reg) && QuietFrom(code, w, reg, j + 1);
      assert v[j + 1] == p && QuietFrom(code, v, reg, j + 1 + 1);
    }
  }

  lemma {:induction false} ScanFollows(pt: Proto, pc: int, lastpc: int, reg: int, last: int)
    requires Accepts(pt) && 0 <= pc && lastpc <= |pt.code| && (pc < lastpc ==> Boundary(pt.code, pc))
    ensures var v, r := Visited(pt, pc, lastpc, reg), Scan(pt, pc, lastpc, reg, last);
            && r.Some? && LastChange(pt.code, v, reg, last, r.value)
            && forall q | q in v :: Boundary(pt.code, q)
    decreases lastpc - pc
  {
    if pc < lastpc {
      var next := ScanNext(pt, pc, lastpc, reg);
      var last' := if Changes(pt.code[pc], reg) then pc else last;
      ScanNextBoundary(pt, pc, lastpc, reg);
      assert InstrOK(pt, pc);
      hide InstrOK, Changes, Boundary, ScanNext, LastChange;
      ScanFollows(pt, next, lastpc, reg, last');
      LastChangeCons(pt.code, pc, Visited(pt, next, lastpc, reg), reg, last, Scan(pt, next, lastpc, reg, last').value);
    }
  }

  /** In an accepted function, following a register never fails: it looks at instructions only and
      finds the last of them that may change the register, or else the final RETURN. */
  lemma TracingSucceeds(pt: Proto, lastpc: int, reg: int)
    requires Accepts(pt) && lastpc <= |pt.code|
    ensures var v, r := Visited(pt, 0, lastpc, reg), Symbolic(pt, lastpc, reg);
            && r.Some? && LastChange(pt.code, v, reg, |pt.code| - 1, r.value)
            && forall q | q in v :: Boundary(pt.code, q)
  {
    ScanFollows(pt, 0, lastpc, reg, |pt.code| - 1);
  }
}
