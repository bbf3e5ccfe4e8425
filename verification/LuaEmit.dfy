/** What emitting instructions and moving jump lists does to the view from an entry point. */
module LuaEmit {
  import opened Wrappers
  import opened LuaValues
  import opened LuaLimits
  import opened LuaOpcodes
  import opened LuaGen
  import opened LuaRun
  import opened LuaInv

  /** The view after the plain instruction i. */
  function Through(c: Ctx, v: View, i: Instr): View {
    match v
    case Here(r, h) =>
      var e := Effect(c.p, c.k, i, r, h);
      Here(e.r, e.h)
    case _ => v
  }

  /** What discharging the held jumps does to instruction j. */
  lemma DischargeInstr(fs: FS, j: int)
    requires WF(fs) && 0 <= j < |fs.code|
    ensures var c1 := fs.code; var c2 := DischargeJpc(fs).code; var n := |c1|;
            && |c2| == n
            && (j in fs.jpc ==> c2[j] == IJmp(n - (j + 1)))
            && (j !in fs.jpc && j + 1 in fs.jpc && c1[j].ITestSet? ==> c2[j] == ITest(c1[j].b, c1[j].cond))
            && (j !in fs.jpc && !(j + 1 in fs.jpc && c1[j].ITestSet?) ==> c2[j] == c1[j])
            && (IsTest(c2[j]) <==> IsTest(c1[j]))
  {}

  lemma DischargeKept(fs: FS, j: int)
    requires WF(fs) && 0 <= j < |fs.code|
    ensures Kept(fs.code, DischargeJpc(fs).code, j)
  {
    DischargeInstr(fs, j);
    assert InstrOK(fs.code, fs.lasttarget, j);
  }

  lemma DischargeInstrOK(fs: FS, j: int)
    requires WF(fs) && 0 <= j < |fs.code|
    ensures InstrOK(DischargeJpc(fs).code, fs.lasttarget, j)
  {
    var c1 := fs.code;
    DischargeInstr(fs, j);
    assert InstrOK(c1, fs.lasttarget, j);
    hide DischargeJpc;
    if j in fs.jpc {
      DischargeInstr(fs, |c1| - 1);
      assert InstrOK(c1, fs.lasttarget, |c1| - 1);
    } else if c1[j].IJmp? && c1[j].sbx >= 0 {
      DischargeInstr(fs, j + c1[j].sbx);
    } else if j + 1 < |c1| {
      DischargeInstr(fs, j + 1);
    }
  }

  /** Discharging the held jumps keeps the code well-formed and leaves them pointing here. */
  lemma DischargeOK(fs: FS)
    requires WF(fs)
    ensures var c2 := DischargeJpc(fs).code;
            && |c2| == |fs.code| && CodeOK(c2, fs.lasttarget) && Keeps(fs.code, c2)
            && (forall n | n in fs.jpc :: c2[n] == IJmp(|c2| - (n + 1)) && (n > 0 ==> !c2[n - 1].ITestSet?))
            && (forall n | Pending(fs.code, n) && n !in fs.jpc ::
                  Pending(c2, n) && Carries(c2, n) == Carries(fs.code, n))
            && (forall j | 0 <= j < |c2| :: IsTest(c2[j]) <==> IsTest(fs.code[j]))
  {
    var c1, c2 := fs.code, DischargeJpc(fs).code;
    forall j | 0 <= j < |c1|
      ensures InstrOK(c2, fs.lasttarget, j) && Kept(c1, c2, j) && (IsTest(c2[j]) <==> IsTest(c1[j]))
      ensures j in fs.jpc ==> c2[j] == IJmp(|c2| - (j + 1))
      ensures Pending(c1, j) && j !in fs.jpc ==> Pending(c2, j)
    {
      DischargeInstr(fs, j);
      DischargeInstrOK(fs, j);
      DischargeKept(fs, j);
    }
    forall n | 0 < n < |c1|
      ensures n in fs.jpc ==> !c2[n - 1].ITestSet?
      ensures Pending(c1, n) && n !in fs.jpc ==> Carries(c2, n) == Carries(c1, n)
    {
      DischargeInstr(fs, n - 1);
    }
  }

  /** Appending to well-formed code. */
  lemma AppendOK(code: seq<Instr>, lt: int, i: Instr)
    requires CodeOK(code, lt) && !IsTest(i) && !i.IReturn?
    requires i.IJmp? ==> i.sbx == NO_JUMP
    requires i.ILoadBool? ==> !i.skip
    ensures CodeOK(code + [i], lt)
  {
    forall j | 0 <= j < |code| ensures InstrOK(code + [i], lt, j) {
      assert InstrOK(code, lt, j);
    }
  }

  lemma AppendTest(code: seq<Instr>, lt: int, i: Instr)
    requires CodeOK(code, lt) && IsTest(i)
    ensures CodeOK(code + [i, IJmp(NO_JUMP)], lt)
  {
    var code' := code + [i, IJmp(NO_JUMP)];
    forall j | 0 <= j < |code'| ensures InstrOK(code', lt, j) {
      if j < |code| { assert InstrOK(code, lt, j); }
    }
  }

  lemma KeepsAppend(c1: seq<Instr>, c2: seq<Instr>, tail: seq<Instr>)
    requires Keeps(c1, c2) && |c1| == |c2|
    ensures Keeps(c1, c2 + tail)
  {
    forall j | 0 <= j < |c1| ensures Kept(c1, c2 + tail, j) {
      assert Kept(c1, c2, j);
    }
  }

  /** A pending jump in the discharged code: it goes to the next position if it was held. */
  lemma DischargedExit(fs: FS, tail: seq<Instr>, n: int)
    requires WF(fs) && Pending(fs.code, n)
    ensures var c2 := DischargeJpc(fs).code + tail;
            && (n in fs.jpc ==> c2[n] == IJmp(|fs.code| - (n + 1)) && |fs.code| > n && !Carries(c2, n))
            && (n !in fs.jpc ==> Pending(c2, n) && Carries(c2, n) == Carries(fs.code, n))
  {
    DischargeOK(fs);
  }

  lemma DischargeKeeps(fs: FS, tail: seq<Instr>)
    requires WF(fs)
    ensures |DischargeJpc(fs).code| == |fs.code| && Keeps(fs.code, DischargeJpc(fs).code + tail)
  {
    DischargeOK(fs);
    KeepsAppend(fs.code, DischargeJpc(fs).code, tail);
  }

  /** The run over the discharged code followed by tail, seen from the old view. */
  lemma DischargedRun(c: Ctx, fs: FS, tail: seq<Instr>)
    requires WF(fs) && StartOK(fs.code, c.x)
    ensures var v := ViewOf(c, fs);
            var o := Entering(c, DischargeJpc(fs).code + tail);
            match v
            case Here(r, h) => o == Run(c.p, c.k, DischargeJpc(fs).code + tail, |fs.code|, r, h)
            case Away(n, r, h, w) => o == Exit(n, r, h, w) && Pending(fs.code, n) && n !in fs.jpc
            case Crash => false
  {
    DischargeKeeps(fs, tail);
    ExitFacts(c.p, c.k, fs.code, fs.lasttarget, c.x, c.r, c.h);
    hide Run, InstrOK, Keeps, DischargeJpc, Carries;
    Compose(c.p, c.k, fs.code, DischargeJpc(fs).code + tail, c.x, c.r, c.h);
    match Entering(c, fs.code)
    case Exit(n, _, _, _) => DischargedExit(fs, tail, n);
    case _ =>
  }

  lemma DischargeExt(fs: FS)
    requires WF(fs)
    ensures Ext(fs, DischargeJpc(fs))
  {
    DischargeOK(fs);
  }

  /** Emitting a plain instruction. */
  lemma EmitPlain(c: Ctx, fs: FS, i: Instr)
    requires WF(fs) && StartOK(fs.code, c.x) && Plain(i)
    requires Code(fs, i).ok
    ensures var fs' := Code(fs, i);
            && WF(fs') && Ext(fs, fs')
            && fs'.jpc == [] && fs'.lasttarget == fs.lasttarget
            && |fs'.code| == |fs.code| + 1 && fs'.code[|fs.code|] == i
            && ViewOf(c, fs') == Through(c, ViewOf(c, fs), i)
  {
    DischargeOK(fs);
    DischargeExt(fs);
    AppendOK(DischargeJpc(fs).code, fs.lasttarget, i);
    DischargedRun(c, fs, [i]);
  }

  /** Taking the last instruction back. */
  lemma StripLast(fs: FS)
    requires WF(fs) && fs.jpc == [] && |fs.code| > 0 && fs.lasttarget < |fs.code|
    requires !fs.code[|fs.code| - 1].IJmp?
    ensures var b := fs.(code := fs.code[..|fs.code| - 1]);
            WF(b) && forall i :: Code(b, i) == b.(code := b.code + [i])
  {
    var b := fs.(code := fs.code[..|fs.code| - 1]);
    forall j | 0 <= j < |b.code| ensures InstrOK(b.code, b.lasttarget, j) {
      assert InstrOK(fs.code, fs.lasttarget, j);
    }
    assert Patch(b.code, [], |b.code|, NO_REG, |b.code|) == b.code;
  }

  /** Taking the last test and its jump back. */
  lemma StripTest(fs: FS)
    requires WF(fs) && fs.jpc == [] && |fs.code| > 1 && fs.lasttarget < |fs.code| - 1
    requires IsTest(fs.code[|fs.code| - 2])
    ensures var b := fs.(code := fs.code[..|fs.code| - 2]);
            && WF(b) && DischargeJpc(b) == b
            && forall i :: CondJump(b, i).fs == b.(code := b.code + [i, IJmp(NO_JUMP)])
  {
    var b := fs.(code := fs.code[..|fs.code| - 2]);
    forall j | 0 <= j < |b.code| ensures InstrOK(b.code, b.lasttarget, j) {
      assert InstrOK(fs.code, fs.lasttarget, j);
    }
    assert Patch(b.code, [], |b.code|, NO_REG, |b.code|) == b.code;
    forall i ensures CondJump(b, i).fs == b.(code := b.code + [i, IJmp(NO_JUMP)]) {
      var c1 := b.code + [i];
      assert Patch(c1, [], |c1|, NO_REG, |c1|) == c1;
      assert c1 + [IJmp(NO_JUMP)] == b.code + [i, IJmp(NO_JUMP)];
    }
  }

  /** Coding a jump whose target is not known: control leaves by it, or by a jump held for here. */
  lemma JumpView(c: Ctx, fs: FS)
    requires WF(fs) && Entry(c, fs) && Jump(fs).fs.ok
    ensures var j := Jump(fs); var v := ViewOf(c, fs); var v' := ViewOf(c, j.fs);
            && WF(j.fs) && Ext(fs, j.fs) && Entry(c, j.fs)
            && j.fs == fs.(code := fs.code + [IJmp(NO_JUMP)], jpc := []) && j.list == [|fs.code|] + fs.jpc
            && (v.Here? ==> v'.Away? && v'.n in j.list && v'.r == v.r && v'.h == v.h
                            && (v'.carried.None? || (Carries(fs.code, v'.n) && v'.n in fs.jpc)))
            && (!v.Here? ==> v' == v)
  {
    var c1 := fs.code;
    var j := Jump(fs);
    var f := fs.(jpc := []);
    assert Patch(c1, [], |c1|, NO_REG, |c1|) == c1;
    assert j.fs.code == c1 + [IJmp(NO_JUMP)];
    AppendOK(c1, fs.lasttarget, IJmp(NO_JUMP));
    forall i | 0 <= i < |c1| ensures Kept(c1, j.fs.code, i) {
      assert InstrOK(c1, fs.lasttarget, i);
    }
    ExitFacts(c.p, c.k, c1, fs.lasttarget, c.x, c.r, c.h);
    Compose(c.p, c.k, c1, j.fs.code, c.x, c.r, c.h);
  }

  /** Coding a test and its jump. */
  lemma CondJumpRun(c: Ctx, fs: FS, i: Instr)
    requires WF(fs) && StartOK(fs.code, c.x) && IsTest(i) && CondJump(fs, i).fs.ok
    ensures var j := CondJump(fs, i); var v := ViewOf(c, fs); var v' := ViewOf(c, j.fs);
            var n := |fs.code| + 1; var d := DischargeJpc(fs);
            && WF(j.fs) && Ext(fs, j.fs) && j.list == [n]
            && j.fs == d.(code := d.code + [i, IJmp(NO_JUMP)])
            && (v.Here? ==>
                  var h' := TestHistory(c.p, c.k, i, v.r, v.h);
                  if Taken(c.p, c.k, i, v.r, v.h)
                  then v' == Away(n, v.r, h', if i.ITestSet? then Some(Get(v.r, i.b)) else None)
                  else v' == Here(v.r, h'))
            && (!v.Here? ==> v' == v)
  {
    var d := DischargeJpc(fs);
    var f := Code(fs, i);
    var j := CondJump(fs, i);
    DischargeOK(fs);
    DischargeExt(fs);
    var c1 := d.code + [i];
    assert Patch(c1, [], |c1|, NO_REG, |c1|) == c1;
    assert j.fs.code == d.code + [i, IJmp(NO_JUMP)];
    AppendTest(d.code, fs.lasttarget, i);
    DischargedRun(c, fs, [i, IJmp(NO_JUMP)]);
  }

  /** Holding a list for the next position. */
  lemma ToHereView(c: Ctx, fs: FS, list: seq<int>)
    requires WF(fs) && Entry(c, fs) && ListOK(fs, list)
    requires PatchToHere(fs, list).ok
    ensures var f := PatchToHere(fs, list); var v := ViewOf(c, fs);
            && WF(f) && Entry(c, f) && f.code == fs.code && f.jpc == fs.jpc + list
            && f == fs.(lasttarget := |fs.code|, jpc := fs.jpc + list)
            && ViewOf(c, f) == (if v.Away? && v.n in list then Here(v.r, v.h) else v)
  {
    var f := PatchToHere(fs, list);
    forall i | 0 <= i < |f.code| ensures InstrOK(f.code, f.lasttarget, i) {
      assert InstrOK(fs.code, fs.lasttarget, i);
    }
  }
}
