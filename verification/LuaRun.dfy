/** What unfinished code does: it runs like the machine until it falls off the end or takes a
    pending jump. */
module LuaRun {
  import opened Wrappers
  import opened LuaValues
  import opened LuaOpcodes
  import opened LuaGen

  /** `carried` is the value that a TESTSET with a pending jump is about to hand over. */
  datatype Out =
    | Fall(r: Regs, h: History)
    | Exit(n: int, r: Regs, h: History, carried: Option<Value>)
    | Bad

  datatype Next = Stop(o: Out) | Go(pc: int, r: Regs, h: History)

  /** Like Step, except that a pending jump stops the run. */
  function NextOf(p: Prims, k: seq<Value>, code: seq<Instr>, pc: int, r: Regs, h: History): Next
    requires 0 <= pc < |code|
  {
    var i := code[pc];
    if i.IJmp? then
      if i.sbx == NO_JUMP then Stop(Exit(pc, r, h, None)) else Go(pc + 1 + i.sbx, r, h)
    else if IsTest(i) then
      var h' := TestHistory(p, k, i, r, h);
      if !Taken(p, k, i, r, h) then Go(pc + 2, r, h')
      else if pc + 1 < |code| && code[pc + 1].IJmp? then
        if code[pc + 1].sbx == NO_JUMP then
          Stop(Exit(pc + 1, r, h', if i.ITestSet? then Some(Get(r, i.b)) else None))
        else Go(pc + 2 + code[pc + 1].sbx, if i.ITestSet? then r[i.a := Get(r, i.b)] else r, h')
      else Stop(Bad)
    else if i.IReturn? then Stop(Bad)
    else
      var e := Effect(p, k, i, r, h);
      Go(pc + (if i.ILoadBool? && i.skip then 2 else 1), e.r, e.h)
  }

  function Run(p: Prims, k: seq<Value>, code: seq<Instr>, pc: int, r: Regs, h: History): Out
    decreases |code| - pc
  {
    if pc == |code| then Fall(r, h)
    else if !(0 <= pc < |code|) then Bad
    else
      match NextOf(p, k, code, pc, r, h)
      case Stop(o) => o
      case Go(pc', r', h') => if pc' > pc then Run(p, k, code, pc', r', h') else Bad
  }

  // ---------- how later work on the code changes what it does ----------

  /** c2 keeps instruction i of c1 up to filling in pending jumps and their controls. */
  predicate Kept(c1: seq<Instr>, c2: seq<Instr>, i: int)
    requires 0 <= i < |c1| <= |c2|
  {
    || (c1[i] == c2[i] && (c1[i].ITestSet? ==> i + 1 < |c1|))
    || (Pending(c1, i) && c2[i].IJmp? && c2[i].sbx >= 0)
    || (c1[i].ITestSet? && Pending(c1, i + 1)
        && (|| c2[i] == ITest(c1[i].b, c1[i].cond)
            || (c2[i].ITestSet? && c2[i].b == c1[i].b && c2[i].cond == c1[i].cond && !Pending(c2, i + 1))))
  }

  predicate Keeps(c1: seq<Instr>, c2: seq<Instr>) {
    |c1| <= |c2| && forall i | 0 <= i < |c1| :: Kept(c1, c2, i)
  }

  /** Where c2 goes on after c1 has come to o. */
  function After(p: Prims, k: seq<Value>, c1: seq<Instr>, c2: seq<Instr>, o: Out): Out {
    match o
    case Fall(r, h) => Run(p, k, c2, |c1|, r, h)
    case Exit(n, r, h, w) =>
      if Pending(c2, n) then Exit(n, r, h, if Carries(c2, n) then w else None)
      else if 0 <= n < |c2| && c2[n].IJmp? && c2[n].sbx >= 0 then
        Run(p, k, c2, n + 1 + c2[n].sbx,
            if Carries(c2, n) && w.Some? then r[c2[n - 1].a := w.value] else r, h)
      else Bad
    case Bad => Bad
  }

  /** The composition theorem: running c2 is running c1 and going on from there. */
  lemma {:induction false} Compose(p: Prims, k: seq<Value>, c1: seq<Instr>, c2: seq<Instr>, pc: int, r: Regs,
                                   h: History)
    requires Keeps(c1, c2)
    requires Run(p, k, c1, pc, r, h) != Bad
    ensures Run(p, k, c2, pc, r, h) == After(p, k, c1, c2, Run(p, k, c1, pc, r, h))
    decreases |c1| - pc
  {
    if pc < |c1| {
      ComposeStep(p, k, c1, c2, pc, r, h);
      match NextOf(p, k, c1, pc, r, h)
      case Stop(o) =>
      case Go(pc', r', h') => Compose(p, k, c1, c2, pc', r', h');
    }
  }

  /** One step of c1, in c2. */
  ghost predicate StepKept(p: Prims, k: seq<Value>, c1: seq<Instr>, c2: seq<Instr>, pc: int, r: Regs, h: History)
    requires 0 <= pc < |c1| <= |c2|
  {
    var n := NextOf(p, k, c1, pc, r, h);
    && (n.Go? ==> NextOf(p, k, c2, pc, r, h) == n)
    && (n.Stop? && n.o != Bad ==> Run(p, k, c2, pc, r, h) == After(p, k, c1, c2, n.o))
  }

  lemma ComposeStep(p: Prims, k: seq<Value>, c1: seq<Instr>, c2: seq<Instr>, pc: int, r: Regs, h: History)
    requires Keeps(c1, c2) && 0 <= pc < |c1|
    ensures StepKept(p, k, c1, c2, pc, r, h)
  {
    assert Kept(c1, c2, pc);
    if IsTest(c1[pc]) && pc + 1 < |c1| {
      assert Kept(c1, c2, pc + 1);
      if Pending(c1, pc + 1) { ComposeExit(p, k, c1, c2, pc, r, h); }
    }
    hide Effect, Taken, TestHistory, After;
    if c1[pc].IJmp? { ComposeJmp(p, k, c1, c2, pc, r, h); }
  }

  lemma ComposeJmp(p: Prims, k: seq<Value>, c1: seq<Instr>, c2: seq<Instr>, pc: int, r: Regs, h: History)
    requires 0 <= pc < |c1| <= |c2| && Kept(c1, c2, pc) && c1[pc].IJmp?
    ensures StepKept(p, k, c1, c2, pc, r, h)
  {
    hide Effect;
  }

  lemma ComposeExit(p: Prims, k: seq<Value>, c1: seq<Instr>, c2: seq<Instr>, pc: int, r: Regs, h: History)
    requires 0 <= pc < |c1| <= |c2| && Kept(c1, c2, pc) && Pending(c1, pc + 1) && Kept(c1, c2, pc + 1) && IsTest(c1[pc])
    ensures StepKept(p, k, c1, c2, pc, r, h)
  {
    hide Effect, DoCompare, RK;
  }
}
