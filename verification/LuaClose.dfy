/** The end of exp2reg: the true and false lists of an expression are pointed at the place where
    its value is in the register, directly or by way of a LOADBOOL. */
module LuaClose {
  import opened Wrappers
  import opened LuaValues
  import opened LuaLimits
  import opened LuaOpcodes
  import opened LuaGen
  import opened LuaRun
  import opened LuaInv

  predicate Need(fs: FS, t: seq<int>, f: seq<int>) {
    NeedValue(fs.code, t) || NeedValue(fs.code, f)
  }

  function Tail(need: bool, isJmp: bool, reg: int): seq<Instr> {
    if !need then []
    else (if isJmp then [] else [IJmp(NO_JUMP)]) + [ILoadBool(reg, false, true), ILoadBool(reg, true, false)]
  }

  function HeldAfter(fs: FS, need: bool, isJmp: bool): seq<int> {
    if !need || isJmp then fs.jpc else [|fs.code|] + fs.jpc
  }

  lemma PatchNone(code: seq<Instr>, target: int)
    ensures Patch(code, [], target, NO_REG, target) == code
  {}

  lemma CodeUnheld(fs: FS, i: Instr)
    requires fs.jpc == []
    ensures Code(fs, i) == fs.(code := fs.code + [i])
  {
    PatchNone(fs.code, |fs.code|);
  }

  /** The LOADBOOL pair, and the jump over it when the value may already be in the register. */
  lemma LoadBoolsShape(fs: FS, isJmp: bool, reg: int)
    requires isJmp ==> fs.jpc == []
    ensures var f := LoadBools(fs, isJmp, reg);
            && f.code == fs.code + Tail(true, isJmp, reg) && f.jpc == HeldAfter(fs, true, isJmp)
            && f == fs.(code := f.code, jpc := f.jpc, lasttarget := |f.code|, ok := f.ok)
            && (f.ok ==> fs.ok)
  {
    var pair := [ILoadBool(reg, false, true), ILoadBool(reg, true, false)];
    if isJmp {
      PairShape(fs, reg);
      hide CodeLabel;
      assert fs.code + Tail(true, isJmp, reg) == fs.code + pair;
    } else {
      JumpShape(fs);
      PairShape(Jump(fs).fs, reg);
      hide CodeLabel, Jump;
      assert fs.code + [IJmp(NO_JUMP)] + pair == fs.code + Tail(true, isJmp, reg);
    }
  }

  lemma JumpShape(fs: FS)
    ensures var j := Jump(fs);
            && j.fs == fs.(code := fs.code + [IJmp(NO_JUMP)], jpc := [], ok := j.fs.ok)
            && j.list == [|fs.code|] + fs.jpc && (j.fs.ok ==> fs.ok)
  {
    CodeUnheld(fs.(jpc := []), IJmp(NO_JUMP));
    hide Code;
  }

  lemma PairShape(fs: FS, reg: int)
    requires fs.jpc == []
    ensures CodeLabel(CodeLabel(fs, reg, false, true), reg, true, false)
              == fs.(code := fs.code + [ILoadBool(reg, false, true), ILoadBool(reg, true, false)],
                  lasttarget := |fs.code| + 1)
  {
    var f1 := GetLabel(fs);
    CodeUnheld(f1, ILoadBool(reg, false, true));
    var f2 := GetLabel(Code(f1, ILoadBool(reg, false, true)));
    CodeUnheld(f2, ILoadBool(reg, true, false));
    assert f2.code + [ILoadBool(reg, true, false)]
        == fs.code + [ILoadBool(reg, false, true), ILoadBool(reg, true, false)];
  }

  /** Everything CloseLists does to the state when some list is not empty. */
  ghost predicate Shape(fs: FS, isJmp: bool, t: seq<int>, f: seq<int>, reg: int, fs': FS) {
    var need := Need(fs, t, f);
    var tail := Tail(need, isJmp, reg);
    var final := |fs'.code|;
    && final == |fs.code| + |tail|
    && fs'.code[|fs.code|..] == tail
    && fs' == fs.(code := fs'.code, jpc := HeldAfter(fs, need, isJmp), lasttarget := final)
    && (forall i | 0 <= i < |fs.code| :: ShapeAt(fs.code, t, f, reg, final, need, fs'.code, i))
  }

  ghost predicate ShapeAt(c1: seq<Instr>, t: seq<int>, f: seq<int>, reg: int, final: int, need: bool, c2: seq<Instr>,
                          i: int)
    requires 0 <= i < |c1| <= |c2|
  {
    if i in t then c2[i] == IJmp((if Carries(c1, i) || !need then final else final - 1) - (i + 1))
    else if i in f then c2[i] == IJmp((if Carries(c1, i) || !need then final else final - 2) - (i + 1))
    else if c1[i].ITestSet? && (i + 1 in t || i + 1 in f) then
      c2[i] == if reg != c1[i].b then ITestSet(reg, c1[i].b, c1[i].cond) else ITest(c1[i].b, c1[i].cond)
    else c2[i] == c1[i]
  }

  lemma PatchBoth(code: seq<Instr>, t: seq<int>, f: seq<int>, final: int, reg: int, p_t: int, p_f: int, i: int)
    requires 0 <= i < |code| && reg != NO_REG && Disjoint(t, f)
    requires (forall n | n in t :: Pending(code, n)) && (forall n | n in f :: Pending(code, n))
    ensures var c := Patch(Patch(code, f, final, reg, p_f), t, final, reg, p_t)[i];
            if i in t then c == IJmp((if Carries(code, i) then final else p_t) - (i + 1))
            else if i in f then c == IJmp((if Carries(code, i) then final else p_f) - (i + 1))
            else if code[i].ITestSet? && (i + 1 in t || i + 1 in f) then
              c == if reg != code[i].b then ITestSet(reg, code[i].b, code[i].cond) else ITest(code[i].b, code[i].cond)
            else c == code[i]
  {
    var d := Patch(code, f, final, reg, p_f);
    assert d[i] == PatchInstr(code, f, final, reg, p_f, i);
    if i > 0 { assert d[i - 1] == PatchInstr(code, f, final, reg, p_f, i - 1); }
    assert Patch(d, t, final, reg, p_t)[i] == PatchInstr(d, t, final, reg, p_t, i);
  }

  function Closed(c1: seq<Instr>, tail: seq<Instr>, t: seq<int>, f: seq<int>, reg: int, need: bool): seq<Instr> {
    var final := |c1| + |tail|;
    Patch(Patch(c1 + tail, f, final, reg, if need then final - 2 else NO_JUMP), t, final, reg,
          if need then final - 1 else NO_JUMP)
  }

  lemma PatchAppended(c1: seq<Instr>, tail: seq<Instr>, t: seq<int>, f: seq<int>, reg: int, need: bool, i: int)
    requires 0 <= i < |c1| + |tail| && reg != NO_REG && Disjoint(t, f)
    requires (forall n | n in t :: Pending(c1, n)) && (forall n | n in f :: Pending(c1, n))
    requires !need ==> (forall n | n in t :: Carries(c1, n)) && (forall n | n in f :: Carries(c1, n))
    ensures var c2 := Closed(c1, tail, t, f, reg, need);
            && |c2| == |c1| + |tail|
            && if i < |c1| then ShapeAt(c1, t, f, reg, |c2|, need, c2, i) else c2[i] == tail[i - |c1|]
  {
    var final := |c1| + |tail|;
    PatchBoth(c1 + tail, t, f, final, reg, if need then final - 1 else NO_JUMP, if need then final - 2 else NO_JUMP, i);
  }

  lemma PatchAppendedAll(c1: seq<Instr>, tail: seq<Instr>, t: seq<int>, f: seq<int>, reg: int, need: bool)
    requires reg != NO_REG && Disjoint(t, f)
    requires (forall n | n in t :: Pending(c1, n)) && (forall n | n in f :: Pending(c1, n))
    requires !need ==> (forall n | n in t :: Carries(c1, n)) && (forall n | n in f :: Carries(c1, n))
    ensures var c2 := Closed(c1, tail, t, f, reg, need);
            && |c2| == |c1| + |tail| && c2[|c1|..] == tail
            && forall i | 0 <= i < |c1| :: ShapeAt(c1, t, f, reg, |c2|, need, c2, i)
  {
    var c2 := Closed(c1, tail, t, f, reg, need);
    assert |c2| == |c1| + |tail|;
    hide Closed, ShapeAt, Carries;
    forall i | 0 <= i < |c1| + |tail|
      ensures if i < |c1| then ShapeAt(c1, t, f, reg, |c2|, need, c2, i) else c2[i] == tail[i - |c1|]
    {
      PatchAppended(c1, tail, t, f, reg, need, i);
    }
  }

  lemma NoTail(fs: FS, isJmp: bool, reg: int)
    ensures fs.code + Tail(false, isJmp, reg) == fs.code && HeldAfter(fs, false, isJmp) == fs.jpc
  {}

  lemma CloseState(fs: FS, isJmp: bool, t: seq<int>, f: seq<int>, reg: int)
    requires isJmp ==> fs.jpc == []
    requires t != [] || f != []
    requires CloseLists(fs, isJmp, t, f, reg).ok
    ensures var need := Need(fs, t, f); var fs' := CloseLists(fs, isJmp, t, f, reg);
            && fs'.code == Closed(fs.code, Tail(need, isJmp, reg), t, f, reg, need)
            && fs' == fs.(code := fs'.code, jpc := HeldAfter(fs, need, isJmp), lasttarget := |fs'.code|)
  {
    var need := Need(fs, t, f);
    var f1 := GetLabel(if need then LoadBools(fs, isJmp, reg) else fs);
    CloseSteps(fs, isJmp, t, f, reg);
    LoadBoolsShape(fs, isJmp, reg);
    NoTail(fs, isJmp, reg);
    assert f1 == fs.(code := fs.code + Tail(need, isJmp, reg), jpc := HeldAfter(fs, need, isJmp),
                     lasttarget := |fs.code| + |Tail(need, isJmp, reg)|, ok := f1.ok) by {
      hide Tail, HeldAfter, LoadBools;
    }
    hide Carries, LoadBools, Patch, NeedValue, Tail, HeldAfter, PatchInRange, CloseLists;
  }

  lemma CloseSteps(fs: FS, isJmp: bool, t: seq<int>, f: seq<int>, reg: int)
    requires t != [] || f != []
    ensures var need := Need(fs, t, f);
            var f1 := GetLabel(if need then LoadBools(fs, isJmp, reg) else fs); var n := |f1.code|;
            CloseLists(fs, isJmp, t, f, reg)
              == PatchList(PatchList(f1, f, n, reg, if need then n - 2 else NO_JUMP), t, n, reg,
                           if need then n - 1 else NO_JUMP)
  {
    hide LoadBools, NeedValue, PatchList;
  }

  lemma CloseShape(fs: FS, isJmp: bool, t: seq<int>, f: seq<int>, reg: int)
    requires forall n | n in t :: Pending(fs.code, n)
    requires forall n | n in f :: Pending(fs.code, n)
    requires Disjoint(t, f)
    requires isJmp ==> fs.jpc == []
    requires (t != [] || f != []) && reg != NO_REG
    requires CloseLists(fs, isJmp, t, f, reg).ok
    ensures Shape(fs, isJmp, t, f, reg, CloseLists(fs, isJmp, t, f, reg))
  {
    var need := Need(fs, t, f);
    var tail := Tail(need, isJmp, reg);
    CloseState(fs, isJmp, t, f, reg);
    hide CloseLists, Closed, ShapeAt, Tail, Carries;
    PatchAppendedAll(fs.code, tail, t, f, reg, need);
    var c2 := CloseLists(fs, isJmp, t, f, reg).code;
    assert c2 == Closed(fs.code, tail, t, f, reg, need);
  }

  // ---------- the closed code is well-formed and keeps the old one ----------

  lemma ShapeTest(fs: FS, isJmp: bool, t: seq<int>, f: seq<int>, reg: int, fs': FS, i: int)
    requires Shape(fs, isJmp, t, f, reg, fs') && 0 <= i < |fs'.code|
    requires forall n | n in t :: Pending(fs.code, n)
    requires forall n | n in f :: Pending(fs.code, n)
    ensures IsTest(fs'.code[i]) <==> i < |fs.code| && IsTest(fs.code[i])
    ensures i < |fs.code| && fs.code[i].IJmp? ==> fs'.code[i].IJmp?
    ensures i >= |fs.code| ==> fs'.code[i] == Tail(Need(fs, t, f), isJmp, reg)[i - |fs.code|]
  {
    if i < |fs.code| {
      assert ShapeAt(fs.code, t, f, reg, |fs'.code|, Need(fs, t, f), fs'.code, i);
    } else {
      assert fs'.code[i] == fs'.code[|fs.code|..][i - |fs.code|];
    }
  }

  lemma ShapeInstrOK(fs: FS, isJmp: bool, t: seq<int>, f: seq<int>, reg: int, fs': FS, i: int)
    requires WF(fs) && Shape(fs, isJmp, t, f, reg, fs') && 0 <= i < |fs.code|
    requires forall n | n in t :: Pending(fs.code, n)
    requires forall n | n in f :: Pending(fs.code, n)
    ensures InstrOK(fs'.code, |fs'.code|, i)
  {
    var c1, c2, final := fs.code, fs'.code, |fs'.code|;
    var need := Need(fs, t, f);
    assert ShapeAt(c1, t, f, reg, final, need, c2, i);
    assert InstrOK(c1, fs.lasttarget, i);
    if i in t || i in f {
      assert InstrOK(c1, fs.lasttarget, |c1| - 1);
      ShapeTest(fs, isJmp, t, f, reg, fs', final - 1);
      if need {
        ShapeTest(fs, isJmp, t, f, reg, fs', final - 2);
        ShapeTest(fs, isJmp, t, f, reg, fs', final - 3);
      }
    } else if c1[i].IJmp? {
      if c1[i].sbx >= 0 { ShapeTest(fs, isJmp, t, f, reg, fs', i + c1[i].sbx); }
    } else if i + 1 < |c1| {
      ShapeTest(fs, isJmp, t, f, reg, fs', i + 1);
    }
  }

  lemma ShapeKept(fs: FS, isJmp: bool, t: seq<int>, f: seq<int>, reg: int, fs': FS, i: int)
    requires WF(fs) && Shape(fs, isJmp, t, f, reg, fs') && 0 <= i < |fs.code|
    requires forall n | n in t :: Pending(fs.code, n)
    requires forall n | n in f :: Pending(fs.code, n)
    ensures Kept(fs.code, fs'.code, i)
  {
    var need := Need(fs, t, f);
    assert ShapeAt(fs.code, t, f, reg, |fs'.code|, need, fs'.code, i);
    assert InstrOK(fs.code, fs.lasttarget, i);
    if i + 1 < |fs.code| {
      assert ShapeAt(fs.code, t, f, reg, |fs'.code|, need, fs'.code, i + 1);
    }
  }

  lemma ShapeOK(fs: FS, isJmp: bool, t: seq<int>, f: seq<int>, reg: int, fs': FS)
    requires WF(fs) && Shape(fs, isJmp, t, f, reg, fs')
    requires ListOK(fs, t) && ListOK(fs, f)
    ensures CodeOK(fs'.code, |fs'.code|) && Keeps(fs.code, fs'.code)
    ensures WF(fs')
  {
    var need := Need(fs, t, f);
    forall i | 0 <= i < |fs'.code| ensures InstrOK(fs'.code, |fs'.code|, i) {
      if i < |fs.code| {
        ShapeInstrOK(fs, isJmp, t, f, reg, fs', i);
      } else {
        ShapeTest(fs, isJmp, t, f, reg, fs', i);
        if i + 1 < |fs'.code| { ShapeTest(fs, isJmp, t, f, reg, fs', i + 1); }
      }
    }
    forall i | 0 <= i < |fs.code| ensures Kept(fs.code, fs'.code, i) {
      ShapeKept(fs, isJmp, t, f, reg, fs', i);
    }
    forall n | n in fs'.jpc ensures Pending(fs'.code, n) {
      if n < |fs.code| {
        assert ShapeAt(fs.code, t, f, reg, |fs'.code|, need, fs'.code, n);
      } else {
        ShapeTest(fs, isJmp, t, f, reg, fs', n);
      }
    }
  }

  // ---------- what the closed code does ----------

  /** r' is r with value v in register reg. */
  ghost predicate Stored(r: Regs, r': Regs, reg: int, v: Value) {
    Get(r', reg) == v && forall i | i != reg :: Get(r', i) == Get(r, i)
  }

  /** The value that a jump of the true (or false) list leaves. */
  function Left(w: Option<Value>, sense: bool): Value {
    if w.Some? then w.value else Bool(sense)
  }

  /** Control that comes to the LOADBOOL pair. */
  lemma TailRun(c: Ctx, code: seq<Instr>, n: int, isJmp: bool, reg: int, r: Regs, h: History)
    requires 0 <= n <= |code| && code[n..] == Tail(true, isJmp, reg)
    ensures Run(c.p, c.k, code, |code| - 1, r, h) == Fall(r[reg := Bool(true)], h)
    ensures Run(c.p, c.k, code, |code| - 2, r, h) == Fall(r[reg := Bool(false)], h)
    ensures !isJmp ==> Run(c.p, c.k, code, n, r, h) == Exit(n, r, h, None)
    ensures isJmp ==> n == |code| - 2
  {
    var tail := Tail(true, isJmp, reg);
    assert forall i | n <= i < |code| :: code[i] == code[n..][i - n];
  }

  /** A jump of one of the lists ends up after the expression with its value in the register. */
  lemma ExitClosed(c: Ctx, fs: FS, isJmp: bool, t: seq<int>, f: seq<int>, reg: int, fs': FS, n: int, r: Regs,
                   h: History, w: Option<Value>)
    requires WF(fs) && Shape(fs, isJmp, t, f, reg, fs')
    requires ListOK(fs, t) && ListOK(fs, f) && Disjoint(t, f) && (n in t || n in f)
    requires ExitOK(fs.code, Exit(n, r, h, w))
    ensures var o := After(c.p, c.k, fs.code, fs'.code, Exit(n, r, h, w));
            o.Fall? && o.h == h && Stored(r, o.r, reg, Left(w, n in t))
  {
    var need := Need(fs, t, f);
    var c2, final := fs'.code, |fs'.code|;
    assert ShapeAt(fs.code, t, f, reg, final, need, c2, n);
    ControlClosed(fs, isJmp, t, f, reg, fs', n);
    if Carries(fs.code, n) {
      assert c2[n] == IJmp(final - (n + 1));
    } else {
      assert need;
      TailRun(c, c2, |fs.code|, isJmp, reg, r, h);
    }
  }

  /** The control of a closed jump: it stores the carried value, or the register has it already. */
  lemma ControlClosed(fs: FS, isJmp: bool, t: seq<int>, f: seq<int>, reg: int, fs': FS, n: int)
    requires WF(fs) && Shape(fs, isJmp, t, f, reg, fs')
    requires ListOK(fs, t) && ListOK(fs, f) && (n in t || n in f)
    ensures Pending(fs.code, n)
    ensures if Carries(fs.code, n) && fs.code[n - 1].b != reg then Carries(fs'.code, n) && fs'.code[n - 1].a == reg
            else !Carries(fs'.code, n)
  {
    if n > 0 {
      assert ShapeAt(fs.code, t, f, reg, |fs'.code|, Need(fs, t, f), fs'.code, n - 1);
      assert InstrOK(fs.code, fs.lasttarget, n - 1);
    }
  }

  /** A pending jump of no list stays what it is. */
  lemma ExitUntouched(c: Ctx, fs: FS, isJmp: bool, t: seq<int>, f: seq<int>, reg: int, fs': FS, n: int, r: Regs,
                      h: History, w: Option<Value>)
    requires WF(fs) && Shape(fs, isJmp, t, f, reg, fs')
    requires ListOK(fs, t) && ListOK(fs, f) && n !in t && n !in f
    requires ExitOK(fs.code, Exit(n, r, h, w))
    ensures After(c.p, c.k, fs.code, fs'.code, Exit(n, r, h, w)) == Exit(n, r, h, w)
  {
    var need := Need(fs, t, f);
    assert ShapeAt(fs.code, t, f, reg, |fs'.code|, need, fs'.code, n);
    if n > 0 { assert ShapeAt(fs.code, t, f, reg, |fs'.code|, need, fs'.code, n - 1); }
  }

  lemma CloseView(c: Ctx, fs: FS, isJmp: bool, t: seq<int>, f: seq<int>, reg: int, fs': FS)
    requires WF(fs) && StartOK(fs.code, c.x) && Shape(fs, isJmp, t, f, reg, fs')
    requires ListOK(fs, t) && ListOK(fs, f) && Disjoint(t, f)
    requires isJmp ==> fs.jpc == [] && Need(fs, t, f)
    ensures var v := ViewOf(c, fs); var v' := ViewOf(c, fs');
            match v
            case Here(r, h) => v' == Here(if isJmp then r[reg := Bool(false)] else r, h)
            case Away(n, r, h, w) =>
              if n in t || n in f then v'.Here? && v'.h == h && Stored(r, v'.r, reg, Left(w, n in t))
              else v' == v
            case Crash => false
  {
    var need := Need(fs, t, f);
    ShapeOK(fs, isJmp, t, f, reg, fs');
    ExitFacts(c.p, c.k, fs.code, fs.lasttarget, c.x, c.r, c.h);
    Compose(c.p, c.k, fs.code, fs'.code, c.x, c.r, c.h);
    hide ShapeAt, WF, StartOK, ListOK, Run, Need, Keeps, Carries;
    match Entering(c, fs.code)
    case Fall(r, h) =>
      if need { TailRun(c, fs'.code, |fs.code|, isJmp, reg, r, h); }
    case Exit(n, r, h, w) =>
      if n in t || n in f { ExitClosed(c, fs, isJmp, t, f, reg, fs', n, r, h, w); }
      else { ExitUntouched(c, fs, isJmp, t, f, reg, fs', n, r, h, w); }
    case Bad =>
  }
}
