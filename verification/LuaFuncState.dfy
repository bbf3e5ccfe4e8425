/** The code generator as lcode.c writes it: a function's state, changed in place, with jump lists
    threaded through the code. Every method is proved against the function of LuaGen of the same
    name. `live` accounts for every list of pending jumps. */
module LuaFuncState {
  import opened LuaValues
  import opened LuaLimits
  import opened LuaOpcodes
  import opened LuaGen
  import opened LuaLists
  import opened LuaDesc

  class FuncState {
    var code: seq<Instr>
    var jpc: int
    var lasttarget: int
    var freereg: int
    var nactvar: int
    var k: seq<Value>
    var h: map<Value, int>
    var maxstacksize: int
    var ok: bool
    ghost var a: FS
    ghost var live: set<seq<int>>

    /** The state is the abstract state a, and every pending list is threaded through the code. */
    ghost predicate Valid()
      reads this
    {
      && SameCode(code, a.code) && Live(code, a.code, live)
      && jpc == Head(a.jpc) && NonEmpty(a.jpc) <= live
      && a.lasttarget == lasttarget && a.freereg == freereg && a.nactvar == nactvar
      && a.k == k && a.maxstack == maxstacksize && a.ok == ok && Indexes(h, k)
    }

    /** A list by its first jump. */
    ghost predicate Holds(l: int, list: seq<int>)
      reads this
    {
      l == Head(list) && NonEmpty(list) <= live
    }

    ghost predicate Desc(e: ExpDesc, ae: Exp)
      reads this
    {
      && e.k == ae.k && e.t == Head(ae.t) && e.f == Head(ae.f)
      && Mine(a.jpc, ae) <= live && Apart(a.jpc, ae) && Rooted(a.code, ae.k)
    }

    constructor (params: nat)
      ensures Valid() && a == FS([], [], -1, params, params, [], if params > 2 then params else 2, true, true, true)
      ensures live == {} && code == []
    {
      code, jpc, lasttarget, freereg, nactvar := [], NO_JUMP, -1, params, params;
      k, h, maxstacksize, ok := [], map[], if params > 2 then params else 2, true;
      a := FS([], [], -1, params, params, [], if params > 2 then params else 2, true, true, true);
      live := {};
    }

    // ---------- jump lists ----------

    method FixJump(pc: int, dest: int)
      requires 0 <= pc < |code|
      modifies `code, `ok
      ensures code == old(code)[pc := IJmp(dest - (pc + 1))] && ok == (old(ok) && InRange(pc, dest))
    {
      var offset := dest - (pc + 1);
      if offset > MAXARG_sBx || -offset > MAXARG_sBx { ok := false; }
      code := code[pc := IJmp(offset)];
    }

    method Concat(l1: int, l2: int, ghost a1: seq<int>, ghost a2: seq<int>) returns (l: int)
      requires Valid() && Holds(l1, a1) && Holds(l2, a2) && (a1 != [] ==> a1 != a2)
      requires a.jpc == [] || (a.jpc != a1 && a.jpc != a2)
      modifies `code, `ok, `a, `live
      ensures Valid() && l == Head(a1 + a2)
      ensures a == Join(old(a), a1, a2).fs && a.jpc == old(a).jpc
      ensures live == old(live) - NonEmpty(a1) - NonEmpty(a2) + NonEmpty(a1 + a2)
      ensures a1 + a2 != [] ==> a1 + a2 !in old(live) - NonEmpty(a1) - NonEmpty(a2)
    {
      if a1 != [] { HeadNone(code, a1); }
      if a2 != [] { HeadNone(code, a2); }
      if l2 == NO_JUMP {
        assert a1 + a2 == a1;
        l := l1;
      } else if l1 == NO_JUMP {
        assert a1 + a2 == a2;
        l := l2;
      } else {
        l := l1;
        var list := LastNode(l1, a1);
        hide Live, SameCode, Indexes;
        FixJump(list, l2);
        a := Join(a, a1, a2).fs;
        live := live - {a1} - {a2} + {a1 + a2};
        JoinLive(old(code), code, a.code, old(live), a1, a2);
      }
    }

    /** The walk of luaK_concat to the end of the first list. */
    method LastNode(l1: int, ghost a1: seq<int>) returns (list: int)
      requires Threaded(code, a1) && a1 != [] && l1 == Head(a1)
      ensures list == a1[|a1| - 1] && 0 <= list < |code|
    {
      list := l1;
      ghost var i := 0;
      GetJumpThreaded(code, a1, 0);
      var next := GetJump(code, list);
      while next != NO_JUMP
        invariant 0 <= i < |a1| && list == a1[i] && next == (if i + 1 < |a1| then a1[i + 1] else NO_JUMP)
        invariant next == NO_JUMP <==> i + 1 == |a1|
        decreases |a1| - i
      {
        list := next;
        i := i + 1;
        GetJumpThreaded(code, a1, i);
        next := GetJump(code, list);
      }
      assert NodeOK(code, a1, i);
    }

    // ---------- patching ----------

    /** getjumpcontrol. */
    function GetJumpControl(pc: int): int
      requires 0 <= pc < |code|
      reads this
    {
      if pc >= 1 && IsTest(code[pc - 1]) then pc - 1 else pc
    }

    method PatchTestReg(node: int, reg: int) returns (patched: bool)
      requires 0 <= node < |code| && code[node].IJmp?
      modifies `code
      ensures patched == Carries(old(code), node)
      ensures code == if patched then old(code)[node - 1 := PatchedControl(old(code)[node - 1], reg)] else old(code)
    {
      var c := GetJumpControl(node);
      var i := code[c];
      if !i.ITestSet? { return false; }
      if reg != NO_REG && reg != i.b {
        code := code[c := ITestSet(reg, i.b, i.cond)];
      } else {
        code := code[c := ITest(i.b, i.cond)];
      }
      return true;
    }

    /** One jump with its control. */
    method PatchJump(l: int, vtarget: int, reg: int, dtarget: int)
      requires 0 <= l < |code| && code[l].IJmp?
      modifies `code, `ok
      ensures code == Patch(old(code), [l], vtarget, reg, dtarget)
      ensures ok == (old(ok) && InRange(l, if Carries(old(code), l) then vtarget else dtarget))
    {
      ghost var c1 := code;
      var patched := PatchTestReg(l, reg);
      if patched { FixJump(l, vtarget); } else { FixJump(l, dtarget); }
      PatchOne(c1, l, vtarget, reg, dtarget, if patched then c1[l - 1 := PatchedControl(c1[l - 1], reg)] else c1);
    }

    /** Every jump of the list goes to vtarget if it carries a value, and to dtarget otherwise. */
    method PatchListAux(list: int, vtarget: int, reg: int, dtarget: int, ghost al: seq<int>)
      requires Threaded(code, al) && list == Head(al)
      modifies `code, `ok
      ensures code == Patch(old(code), al, vtarget, reg, dtarget)
      ensures ok == (old(ok) && PatchInRange(old(code), al, vtarget, dtarget))
    {
      ghost var c0 := code;
      ghost var i := 0;
      var l := list;
      HeadNone(code, al);
      assert Patch(c0, al[..0], vtarget, reg, dtarget) == c0;
      hide Patch, PatchedControl, NodeOK;
      while l != NO_JUMP
        invariant 0 <= i <= |al| && (l == NO_JUMP <==> i == |al|) && (i < |al| ==> l == al[i])
        invariant code == Patch(c0, al[..i], vtarget, reg, dtarget)
        invariant ok == (old(ok) && PatchInRange(c0, al[..i], vtarget, dtarget))
        decreases |al| - i
      {
        PatchNode(c0, al, i, vtarget, reg, dtarget);
        GetJumpThreaded(c0, al, i);
        var next := GetJump(code, l);
        PatchJump(l, vtarget, reg, dtarget);
        PatchStep(c0, al, i, vtarget, reg, dtarget);
        assert al[..i + 1] == al[..i] + [al[i]];
        l := next;
        i := i + 1;
      }
      assert al[..i] == al;
    }

    /** patchlistaux on a list that the state or a descriptor holds. */
    method PatchHeld(list: int, vtarget: int, reg: int, dtarget: int, ghost al: seq<int>)
      requires Valid() && Holds(list, al) && (al != [] ==> al != a.jpc) && Forward(a.code, al, vtarget, dtarget)
      modifies `code, `ok, `a, `live
      ensures Valid() && a == PatchList(old(a), al, vtarget, reg, dtarget) && live == old(live) - NonEmpty(al)
    {
      ghost var c0 := code;
      PatchListAux(list, vtarget, reg, dtarget, al);
      PatchSame(c0, a.code, al, vtarget, reg, dtarget);
      PatchLive(c0, a.code, live, al, vtarget, reg, dtarget);
      a := PatchList(a, al, vtarget, reg, dtarget);
      live := live - NonEmpty(al);
    }

    method DischargeJpc()
      requires Valid()
      modifies `code, `ok, `jpc, `a, `live
      ensures Valid() && a == LuaGen.DischargeJpc(old(a)) && live == old(live) - NonEmpty(old(a).jpc)
      ensures |code| == |old(code)|
    {
      ghost var c0, list := code, a.jpc;
      assert Forward(a.code, list, |code|, |code|) by {
        forall n | n in list ensures n != |code| { assert Pending(a.code, n); }
      }
      assert Threaded(code, list) && (forall n | n in list :: Pending(a.code, n)) && (list == [] || list in live);
      hide Live, SameCode, Indexes, Patch, PatchInRange, Threaded, Forward;
      PatchListAux(jpc, |code|, NO_REG, |code|, list);
      PatchOK(c0, a.code, live, list, |c0|, NO_REG, |c0|);
      jpc := NO_JUMP;
      a := LuaGen.DischargeJpc(a);
      live := live - NonEmpty(list);
    }

    /** luaK_code. */
    method Code(i: Instr) returns (pc: int)
      requires Valid()
      modifies `code, `ok, `jpc, `a, `live
      ensures Valid() && a == LuaGen.Code(old(a), i) && pc == |old(code)| && |code| == pc + 1
      ensures live == old(live) - NonEmpty(old(a).jpc) + (if i == IJmp(NO_JUMP) then {[pc]} else {})
      ensures [pc] !in old(live)
    {
      AppendLive(code, a.code, live, i);
      DischargeJpc();
      pc := |code|;
      AppendLive(code, a.code, live, i);
      code := code + [i];
      a := a.(code := a.code + [i]);
      live := live + (if i == IJmp(NO_JUMP) then {[pc]} else {});
    }

    method GetLabel() returns (pc: int)
      requires Valid()
      modifies `lasttarget, `a
      ensures Valid() && a == LuaGen.GetLabel(old(a)) && pc == |code|
    {
      lasttarget := |code|;
      a := LuaGen.GetLabel(a);
      return |code|;
    }

    method PatchToHere(list: int, ghost al: seq<int>)
      requires Valid() && Holds(list, al) && (al != [] ==> al != a.jpc)
      modifies `lasttarget, `jpc, `code, `ok, `a, `live
      ensures Valid() && a == LuaGen.PatchToHere(old(a), al) && |code| == |old(code)|
      ensures live == old(live) - NonEmpty(old(a).jpc) - NonEmpty(al) + NonEmpty(a.jpc)
      ensures NonEmpty(a.jpc) !! (old(live) - NonEmpty(old(a).jpc) - NonEmpty(al))
    {
      var _ := GetLabel();
      ghost var held := a.jpc;
      var l := jpc;
      jpc := NO_JUMP;
      a := a.(jpc := []);
      l := Concat(l, list, held, al);
      jpc := l;
      a := a.(jpc := held + al);
    }

    method Jump() returns (j: int, ghost list: seq<int>)
      requires Valid()
      modifies `code, `ok, `jpc, `a, `live
      ensures Valid() && FL(a, list) == LuaGen.Jump(old(a)) && j == Head(list) && list != [] && a.jpc == []
      ensures live == old(live) - NonEmpty(old(a).jpc) + {list} && list !in old(live) - NonEmpty(old(a).jpc)
    {
      var held := jpc;
      ghost var aheld := a.jpc;
      jpc := NO_JUMP;
      a := a.(jpc := []);
      var n := Code(IJmp(NO_JUMP));
      list := [n] + aheld;
      j := Concat(n, held, [n], aheld);
    }

    method CondJump(i: Instr) returns (j: int, ghost list: seq<int>)
      requires Valid() && IsTest(i)
      modifies `code, `ok, `jpc, `a, `live
      ensures Valid() && FL(a, list) == LuaGen.CondJump(old(a), i) && j == Head(list) && list == [|old(code)| + 1]
              && a.jpc == []
      ensures live == old(live) - NonEmpty(old(a).jpc) + {list} && list !in old(live) - NonEmpty(old(a).jpc)
      ensures |code| == |old(code)| + 2 && a.code[|old(code)|] == i
    {
      NotYetLive(code, a.code, live, |code| + 1);
      var _ := Code(i);
      j, list := Jump();
    }

    method NeedValue(list: int, ghost al: seq<int>) returns (need: bool)
      requires Valid() && Holds(list, al)
      ensures need == LuaGen.NeedValue(a.code, al)
    {
      ghost var i := 0;
      var l := list;
      if al != [] { HeadNone(code, al); }
      while l != NO_JUMP
        invariant 0 <= i <= |al| && (l == NO_JUMP <==> i == |al|) && (i < |al| ==> l == al[i])
        invariant forall j | 0 <= j < i :: Carries(a.code, al[j])
        decreases |al| - i
      {
        GetJumpThreaded(code, al, i);
        assert NodeOK(code, al, i);
        SameCarries(code, a.code, l);
        if !code[GetJumpControl(l)].ITestSet? {
          assert l in al && !Carries(a.code, l);
          return true;
        }
        l := GetJump(code, l);
        i := i + 1;
      }
      return false;
    }

    method RemoveValues(list: int, ghost al: seq<int>)
      requires Valid() && Holds(list, al)
      modifies `code, `a
      ensures Valid() && a == LuaGen.RemoveValues(old(a), al)
    {
      ghost var i := 0;
      ghost var c0 := code;
      var l := list;
      if al != [] { HeadNone(code, al); }
      while l != NO_JUMP
        invariant 0 <= i <= |al| && (l == NO_JUMP <==> i == |al|) && (i < |al| ==> l == al[i])
        invariant |code| == |c0| && forall j | 0 <= j < |c0| :: code[j] == StripInstr(c0, al[..i], j)
        decreases |al| - i
        modifies `code
      {
        GetJumpThreaded(c0, al, i);
        StripNode(c0, al, i, code);
        var _ := PatchTestReg(l, NO_REG);
        StripStep(c0, al, i);
        l := GetJump(code, l);
        i := i + 1;
      }
      assert al[..i] == al;
      StripLive(c0, code, a.code, live, al);
      a := LuaGen.RemoveValues(a, al);
    }

    // ---------- registers and constants ----------

    /** luaK_checkstack and luaK_reserveregs. */
    method ReserveRegs(n: nat)
      requires Valid()
      modifies `freereg, `maxstacksize, `ok, `a
      ensures Valid() && a == LuaGen.ReserveRegs(old(a), n)
    {
      var newstack := freereg + n;
      if newstack > maxstacksize {
        if newstack >= MAXSTACK { ok := false; }
        maxstacksize := newstack;
      }
      freereg := freereg + n;
      a := LuaGen.ReserveRegs(a, n);
    }

    method FreeReg(reg: int)
      requires Valid()
      modifies `freereg, `a
      ensures Valid() && a == LuaGen.FreeReg(old(a), reg)
    {
      if !IsK(reg) && reg >= nactvar { freereg := freereg - 1; }
      a := LuaGen.FreeReg(a, reg);
    }

    method FreeExp(e: ExpDesc, ghost ae: Exp)
      requires Valid() && e.k == ae.k
      modifies `freereg, `a
      ensures Valid() && a == LuaGen.FreeExp(old(a), ae)
    {
      if e.k.VNonReloc? { FreeReg(e.k.info); }
    }

    method AddK(v: Value) returns (i: int)
      requires Valid()
      modifies `k, `h, `ok, `a
      ensures Valid() && FI(a, i) == LuaGen.AddK(old(a), v)
    {
      AddKIs(a, h, v);
      hide *;
      ghost var g := LuaGen.AddK(a, v);
      if v in h { return h[v]; }
      i := |k|;
      NewK(v);
    }

    /** A new entry in the table of constants. */
    method NewK(v: Value)
      requires Valid() && Indexes(h[v := |k|], k + [v])
      modifies `k, `h, `ok, `a
      ensures Valid() && a == old(a).(k := old(a).k + [v], ok := old(a).ok && |old(a).k| < MAXARG_Bx)
    {
      hide Indexes, Live, SameCode;
      if |k| >= MAXARG_Bx { ok := false; }
      h := h[v := |k|];
      k := k + [v];
      a := a.(k := a.k + [v], ok := a.ok && |a.k| < MAXARG_Bx);
    }

    // ---------- discharging ----------

    /** luaK_nil. */
    method Nils(from: int, n: int)
      requires Valid()
      modifies this
      ensures Valid() && a == LuaGen.Nils(old(a), from, n)
      ensures Moved(old(live), NonEmpty(old(a).jpc), live, NonEmpty(a.jpc)) && |code| >= |old(code)|
    {
      if |code| > lasttarget {
        if |code| == 0 {
          if from >= nactvar { return; }
        } else {
          assert SameAt(code, a.code, |code| - 1);
          var previous := code[|code| - 1];
          if previous.ILoadNil? && previous.a <= from <= previous.b + 1 {
            if from + n - 1 > previous.b {
              ReplaceLive(code, a.code, live, |code| - 1, ILoadNil(previous.a, from + n - 1));
              a := LuaGen.Nils(a, from, n);
              code := code[|code| - 1 := ILoadNil(previous.a, from + n - 1)];
            }
            return;
          }
        }
      }
      var _ := Code(ILoadNil(from, from + n - 1));
    }

    /** An instruction that leaves its result in a register still to be chosen. */
    method Reloc(i: Instr, ghost ae: Exp, e: ExpDesc) returns (e': ExpDesc, ghost ae': Exp)
      requires Valid() && Desc(e, ae) && !i.IJmp? && !ae.k.VJmp?
      modifies this
      ensures Valid() && a == LuaGen.Code(old(a), i) && ae' == ae.(k := VReloc(|old(code)|)) && Desc(e', ae')
      ensures Moved(old(live), Mine(old(a).jpc, ae), live, Mine(a.jpc, ae')) && |code| == |old(code)| + 1
    {
      var pc := Code(i);
      e', ae' := e.(k := VReloc(pc)), ae.(k := VReloc(pc));
    }

    method DischargeVars(e: ExpDesc, ghost ae: Exp) returns (e': ExpDesc, ghost ae': Exp)
      requires Valid() && Desc(e, ae)
      modifies this
      ensures Valid() && FE(a, ae') == LuaGen.DischargeVars(old(a), ae) && Desc(e', ae')
      ensures Moved(old(live), Mine(old(a).jpc, ae), live, Mine(a.jpc, ae'))
    {
      hide Live, SameCode, Indexes;
      match e.k
      case VLocal(r) =>
        e', ae' := e.(k := VNonReloc(r)), ae.(k := VNonReloc(r));
      case VUpval(i) =>
        e', ae' := Reloc(IGetUpval(0, i), ae, e);
      case VGlobal(i) =>
        e', ae' := Reloc(IGetGlobal(0, i), ae, e);
      case VIndexed(t, aux) =>
        FreeReg(aux);
        FreeReg(t);
        e', ae' := Reloc(IGetTable(0, t, aux), ae, e);
      case _ =>
        e', ae' := e, ae;
    }

    method CodeLabel(r: int, b: bool, skip: bool)
      requires Valid()
      modifies this
      ensures Valid() && a == LuaGen.CodeLabel(old(a), r, b, skip) && |code| == |old(code)| + 1
      ensures live == old(live) - NonEmpty(old(a).jpc)
    {
      var _ := GetLabel();
      var _ := Code(ILoadBool(r, b, skip));
    }

    /** Changes an instruction that is not a jump. */
    method SetInstr(pc: int, i: Instr)
      requires Valid() && 0 <= pc < |code| && !a.code[pc].IJmp? && !i.IJmp?
      modifies `code, `a
      ensures Valid() && a == old(a).(code := old(a).code[pc := i])
    {
      ReplaceLive(code, a.code, live, pc, i);
      a := a.(code := a.code[pc := i]);
      code := code[pc := i];
    }

    method DischargeValue(e: ExpDesc, reg: int)
      requires Valid() && Rooted(a.code, e.k)
      modifies this
      ensures Valid() && a == LuaGen.DischargeValue(old(a), e.k, reg)
      ensures Moved(old(live), NonEmpty(old(a).jpc), live, NonEmpty(a.jpc))
    {
      if e.k.VReloc? { assert SameAt(code, a.code, e.k.info); }
      hide Live, SameCode, Indexes, LuaGen.Code, LuaGen.Nils, LuaGen.AddK;
      match e.k
      case VNil => Nils(reg, 1);
      case VFalse => var _ := Code(ILoadBool(reg, false, false));
      case VTrue => var _ := Code(ILoadBool(reg, true, false));
      case VK(i) => var _ := Code(ILoadK(reg, i));
      case VKNum(n) =>
        var i := AddK(Num(n));
        var _ := Code(ILoadK(reg, i));
      case VReloc(pc) =>
        SetInstr(pc, SetA(code[pc], reg));
      case VNonReloc(r) => if reg != r { var _ := Code(IMove(reg, r)); }
      case _ =>
    }

    method Discharge2Reg(e: ExpDesc, ghost ae: Exp, reg: int) returns (e': ExpDesc, ghost ae': Exp)
      requires Valid() && Desc(e, ae)
      modifies this
      ensures Valid() && FE(a, ae') == LuaGen.Discharge2Reg(old(a), ae, reg) && Desc(e', ae')
      ensures Moved(old(live), Mine(old(a).jpc, ae), live, Mine(a.jpc, ae'))
      ensures ae'.k == VNonReloc(reg) || ae'.k.VJmp?
    {
      e', ae' := DischargeVars(e, ae);
      if e'.k.VJmp? { return; }
      ghost var l1, jpc1 := live, a.jpc;
      DischargeValue(e', reg);
      MovedPart(l1, NonEmpty(jpc1), live, NonEmpty(a.jpc), NonEmpty(ae'.t) + NonEmpty(ae'.f));
      e', ae' := e'.(k := VNonReloc(reg)), ae'.(k := VNonReloc(reg));
      MovedTwice(old(live), Mine(old(a).jpc, ae), l1, Mine(jpc1, ae'), live, Mine(a.jpc, ae'));
    }

    method Discharge2AnyReg(e: ExpDesc, ghost ae: Exp) returns (e': ExpDesc, ghost ae': Exp)
      requires Valid() && Desc(e, ae)
      modifies this
      ensures Valid() && FE(a, ae') == LuaGen.Discharge2AnyReg(old(a), ae) && Desc(e', ae')
      ensures Moved(old(live), Mine(old(a).jpc, ae), live, Mine(a.jpc, ae'))
      ensures ae'.k.VNonReloc? || ae'.k.VJmp?
    {
      if e.k.VNonReloc? { return e, ae; }
      ReserveRegs(1);
      e', ae' := Discharge2Reg(e, ae, freereg - 1);
    }

    /** The two LOADBOOLs of exp2reg, jumped over unless the expression is itself a jump. */
    method LoadBools(isJmp: bool, reg: int)
      requires Valid()
      modifies this
      ensures Valid() && a == LuaGen.LoadBools(old(a), isJmp, reg)
      ensures Moved(old(live), NonEmpty(old(a).jpc), live, NonEmpty(a.jpc))
      ensures |code| == |a.code| >= 2 && a.code[|code| - 2].ILoadBool? && a.code[|code| - 1].ILoadBool?
    {
      var fj := NO_JUMP;
      ghost var list: seq<int> := [];
      if !isJmp { fj, list := Jump(); }
      CodeLabel(reg, false, true);
      CodeLabel(reg, true, false);
      PatchToHere(fj, list);
    }

    /** Exits with a value leave for the end of the code, the others for p_f and p_t. */
    method PatchExits(e: ExpDesc, ghost ae: Exp, reg: int, p_f: int, p_t: int)
      requires Valid() && Desc(e, ae) && !ae.k.VJmp?
      requires !Pending(a.code, p_f) && (0 <= p_t ==> p_t < |code| && a.code[p_t].ILoadBool?)
      modifies this
      ensures Valid()
      ensures var g := LuaGen.GetLabel(old(a)); var n := |g.code|;
              a == PatchList(PatchList(g, ae.f, n, reg, p_f), ae.t, n, reg, p_t)
      ensures live == old(live) - NonEmpty(ae.f) - NonEmpty(ae.t)
    {
      var final := GetLabel();
      assert final == |a.code|;
      ForwardLive(code, a.code, live, ae.f, final, p_f);
      PatchHeld(e.f, final, reg, p_f, ae.f);
      ForwardLive(code, a.code, live, ae.t, final, p_t);
      PatchHeld(e.t, final, reg, p_t, ae.t);
    }

    /** Whether exp2reg has to add the LOADBOOLs. */
    method NeedsBools(e: ExpDesc, ghost ae: Exp) returns (need: bool)
      requires Valid() && Desc(e, ae)
      ensures need == (LuaGen.NeedValue(a.code, ae.t) || LuaGen.NeedValue(a.code, ae.f))
      ensures e.t == NO_JUMP <==> ae.t == []
      ensures e.f == NO_JUMP <==> ae.f == []
    {
      HeldNone(code, a.code, live, ae.t);
      HeldNone(code, a.code, live, ae.f);
      need := NeedValue(e.t, ae.t);
      if !need { need := NeedValue(e.f, ae.f); }
    }

    lemma CloseIs(a0: FS, isJmp: bool, t: seq<int>, f: seq<int>, reg: int, need: bool, a1: FS, a2: FS)
      requires (t != [] || f != []) && need == (LuaGen.NeedValue(a0.code, t) || LuaGen.NeedValue(a0.code, f))
      requires a1 == if need then LuaGen.LoadBools(a0, isJmp, reg) else a0
      requires var g := LuaGen.GetLabel(a1); var n := |g.code|;
               a2 == PatchList(PatchList(g, f, n, reg, if need then n - 2 else NO_JUMP), t, n, reg,
                               if need then n - 1 else NO_JUMP)
      ensures a2 == LuaGen.CloseLists(a0, isJmp, t, f, reg)
    {
      hide LuaGen.LoadBools, LuaGen.NeedValue, PatchList;
    }

    /** The LOADBOOLs, if they are needed, and where they are. */
    method AddBools(need: bool, isJmp: bool, e: ExpDesc, ghost ae: Exp, reg: int) returns (p_f: int, p_t: int)
      requires Valid() && Desc(e, ae) && !ae.k.VJmp?
      modifies this
      ensures Valid() && a == (if need then LuaGen.LoadBools(old(a), isJmp, reg) else old(a))
      ensures Desc(e.(k := VNil), ae.(k := VNil))
      ensures p_f == (if need then |a.code| - 2 else NO_JUMP) && p_t == if need then |a.code| - 1 else NO_JUMP
      ensures !Pending(a.code, p_f) && (0 <= p_t ==> p_t < |code| && a.code[p_t].ILoadBool?)
      ensures Moved(old(live), Mine(old(a).jpc, ae), live, Mine(a.jpc, ae))
    {
      hide Live, SameCode, Indexes, LuaGen.LoadBools;
      ghost var l0, jpc0, lists := live, a.jpc, NonEmpty(ae.t) + NonEmpty(ae.f);
      p_f, p_t := NO_JUMP, NO_JUMP;
      if need {
        LoadBools(isJmp, reg);
        p_f, p_t := |code| - 2, |code| - 1;
      }
      MovedPart(l0, NonEmpty(jpc0), live, NonEmpty(a.jpc), lists);
    }

    /** The part of exp2reg that closes the lists. */
    method CloseLists(isJmp: bool, e: ExpDesc, ghost ae: Exp, reg: int)
      requires Valid() && Desc(e, ae) && !ae.k.VJmp?
      modifies this
      ensures Valid() && a == LuaGen.CloseLists(old(a), isJmp, ae.t, ae.f, reg)
      ensures Moved(old(live), Mine(old(a).jpc, ae), live, NonEmpty(a.jpc))
    {
      hide Live, SameCode, Indexes, LuaGen.LoadBools, LuaGen.NeedValue, Moved;
      var need := NeedsBools(e, ae);
      if e.t == NO_JUMP && e.f == NO_JUMP {
        NoLists(ae);
        return;
      }
      hide LuaGen.CloseLists, Desc;
      var p_f, p_t := AddBools(need, isJmp, e, ae, reg);
      ghost var a1, l1 := a, live;
      PatchExits(e.(k := VNil), ae.(k := VNil), reg, p_f, p_t);
      CloseIs(old(a), isJmp, ae.t, ae.f, reg, need, a1, a);
      ListsDone(old(live), Mine(old(a).jpc, ae), l1, a1.jpc, ae, live);
    }

    lemma NoLists(ae: Exp)
      requires Valid() && ae.t == [] && ae.f == [] && !ae.k.VJmp?
      ensures Moved(live, Mine(a.jpc, ae), live, NonEmpty(a.jpc))
    {
      hide Live, SameCode, Indexes;
      assert Mine(a.jpc, ae) == NonEmpty(a.jpc);
      assert live == live - NonEmpty(a.jpc) + NonEmpty(a.jpc);
    }

    lemma ListsDone(l0: set<seq<int>>, m0: set<seq<int>>, l1: set<seq<int>>, held: seq<int>, ae: Exp, l2: set<seq<int>>)
      requires Moved(l0, m0, l1, Mine(held, ae)) && l2 == l1 - NonEmpty(ae.f) - NonEmpty(ae.t) && Apart(held, ae)
               && !ae.k.VJmp?
      ensures Moved(l0, m0, l2, NonEmpty(held))
    {
      assert NonEmpty(held) <= Mine(held, ae) && NonEmpty(ae.t) <= Mine(held, ae) && NonEmpty(ae.f) <= Mine(held, ae);
      assert l2 == l0 - m0 + NonEmpty(held);
    }

    /** The jump of a comparison goes to the list of exits for true. */
    method ListJump(e: ExpDesc, ghost ae: Exp) returns (e': ExpDesc, ghost ae': Exp)
      requires Valid() && Desc(e, ae)
      modifies `code, `ok, `a, `live
      ensures Valid() && Desc(e', ae') && !ae'.k.VJmp? && ae'.f == ae.f
      ensures FL(a, ae'.t) == if ae.k.VJmp? then Join(old(a), ae.t, [ae.k.info]) else FL(old(a), ae.t)
      ensures Moved(old(live), Mine(old(a).jpc, ae), live, Mine(a.jpc, ae'))
    {
      if !e.k.VJmp? { return e, ae; }
      hide Live, SameCode, Indexes;
      ghost var n := [ae.k.info];
      var t := Concat(e.t, e.k.info, ae.t, n);
      e', ae' := ExpDesc(VNil, t, e.f), Exp(VNil, ae.t + n, ae.f);
    }

    method Exp2Reg(e: ExpDesc, ghost ae: Exp, reg: int) returns (e': ExpDesc)
      requires Valid() && Desc(e, ae)
      modifies this
      ensures Valid() && FE(a, Init(VNonReloc(reg))) == LuaGen.Exp2Reg(old(a), ae, reg) && e' == InitExp(VNonReloc(reg))
      ensures Moved(old(live), Mine(old(a).jpc, ae), live, NonEmpty(a.jpc))
    {
      hide Live, SameCode, Indexes, Mine, LuaGen.Discharge2Reg, LuaGen.CloseLists;
      ghost var ae';
      e', ae' := Discharge2Reg(e, ae, reg);
      ghost var l1, m1 := live, Mine(a.jpc, ae');
      var isJmp := e'.k.VJmp?;
      e', ae' := ListJump(e', ae');
      MovedTwice(old(live), Mine(old(a).jpc, ae), l1, m1, live, Mine(a.jpc, ae'));
      ghost var l2, m2 := live, Mine(a.jpc, ae');
      CloseLists(isJmp, e', ae', reg);
      MovedTwice(old(live), Mine(old(a).jpc, ae), l2, m2, live, NonEmpty(a.jpc));
      e' := InitExp(VNonReloc(reg));
    }

    method Exp2NextReg(e: ExpDesc, ghost ae: Exp) returns (e': ExpDesc)
      requires Valid() && Desc(e, ae)
      modifies this
      ensures Valid() && a == LuaGen.Exp2NextReg(old(a), ae).fs && Simple(e', LuaGen.Exp2NextReg(old(a), ae).e)
      ensures e'.k.VNonReloc? && Moved(old(live), Mine(old(a).jpc, ae), live, NonEmpty(a.jpc))
    {
      hide Live, SameCode, Indexes, Mine, LuaGen.Exp2Reg;
      ghost var ae';
      e', ae' := DischargeVars(e, ae);
      ghost var l1, m1 := live, Mine(a.jpc, ae');
      FreeExp(e', ae');
      ReserveRegs(1);
      e' := Exp2Reg(e', ae', freereg - 1);
      MovedTwice(old(live), Mine(old(a).jpc, ae), l1, m1, live, NonEmpty(a.jpc));
    }

    method Exp2AnyReg(e: ExpDesc, ghost ae: Exp) returns (e': ExpDesc)
      requires Valid() && Desc(e, ae)
      modifies this
      ensures Valid() && a == LuaGen.Exp2AnyReg(old(a), ae).fs && Simple(e', LuaGen.Exp2AnyReg(old(a), ae).e)
      ensures e'.k.VNonReloc? && Moved(old(live), Mine(old(a).jpc, ae), live, NonEmpty(a.jpc))
    {
      ghost var ae';
      e', ae' := DischargeVars(e, ae);
      ghost var l1, m1 := live, Mine(a.jpc, ae');
      HeldNone(code, a.code, live, ae'.t);
      HeldNone(code, a.code, live, ae'.f);
      if e'.k.VNonReloc? {
        if e'.t == NO_JUMP && e'.f == NO_JUMP { return; }
        if e'.k.info >= nactvar {
          e' := Exp2Reg(e', ae', e'.k.info);
          MovedTwice(old(live), Mine(old(a).jpc, ae), l1, m1, live, NonEmpty(a.jpc));
          return;
        }
      }
      e' := Exp2NextReg(e', ae');
      MovedTwice(old(live), Mine(old(a).jpc, ae), l1, m1, live, NonEmpty(a.jpc));
    }

    /** luaK_storevar for an active local. */
    method StoreLocal(local: int, e: ExpDesc, ghost ae: Exp)
      requires Valid() && Desc(e, ae)
      modifies this
      ensures Valid() && a == LuaGen.StoreLocal(old(a), local, ae)
      ensures Moved(old(live), Mine(old(a).jpc, ae), live, NonEmpty(a.jpc))
    {
      hide Live, SameCode, Indexes, LuaGen.Exp2Reg;
      FreeExp(e, ae);
      var _ := Exp2Reg(e, ae, local);
    }

    method Exp2Val(e: ExpDesc, ghost ae: Exp) returns (e': ExpDesc, ghost ae': Exp)
      requires Valid() && Desc(e, ae)
      modifies this
      ensures Valid() && FE(a, ae') == LuaGen.Exp2Val(old(a), ae) && Desc(e', ae')
      ensures Moved(old(live), Mine(old(a).jpc, ae), live, Mine(a.jpc, ae'))
      ensures !HasJumps(ae')
    {
      hide Live, SameCode, Indexes;
      HeldNone(code, a.code, live, ae.t);
      HeldNone(code, a.code, live, ae.f);
      if e.t != NO_JUMP || e.f != NO_JUMP {
        ae' := LuaGen.Exp2AnyReg(a, ae).e;
        e' := Exp2AnyReg(e, ae);
      } else {
        e', ae' := DischargeVars(e, ae);
      }
    }

    method Exp2RK(e: ExpDesc, ghost ae: Exp) returns (e': ExpDesc, i: int)
      requires Valid() && Desc(e, ae)
      modifies this
      ensures Valid() && FEI(a, LuaGen.Exp2RK(old(a), ae).e, i) == LuaGen.Exp2RK(old(a), ae)
      ensures Simple(e', LuaGen.Exp2RK(old(a), ae).e) && Settled(e'.k)
      ensures Moved(old(live), Mine(old(a).jpc, ae), live, NonEmpty(a.jpc))
    {
      hide Live, SameCode, Indexes;
      ghost var ae';
      e', ae' := Exp2Val(e, ae);
      var v := ConstOf(e'.k);
      if v.Some? && |k| <= MAXINDEXRK {
        var j := AddK(v.value);
        return e'.(k := VK(j)), j + BITRK;
      } else if e'.k.VK? && e'.k.info <= MAXINDEXRK {
        return e', e'.k.info + BITRK;
      }
      ghost var l1, m1 := live, Mine(a.jpc, ae');
      e' := Exp2AnyReg(e', ae');
      i := e'.k.info;
      MovedTwice(old(live), Mine(old(a).jpc, ae), l1, m1, live, NonEmpty(a.jpc));
    }

    // ---------- conditions ----------

    method InvertJump(e: ExpDesc, ghost ae: Exp)
      requires Valid() && Desc(e, ae) && e.k.VJmp?
      modifies `code, `a
      ensures Valid() && Desc(e, ae) && a == LuaGen.InvertJump(old(a), e.k.info) && a.jpc == old(a).jpc
    {
      var pc := e.k.info - 1;
      assert SameAt(code, a.code, pc);
      var i := code[GetJumpControl(e.k.info)];
      ReplaceLive(code, a.code, live, pc, ICmp(i.cmp, !i.cond, i.b, i.c));
      a := LuaGen.InvertJump(a, e.k.info);
      code := code[pc := ICmp(i.cmp, !i.cond, i.b, i.c)];
    }

    /** jumponcond after a `not`: the NOT is taken back. */
    method TestNot(cond: bool) returns (j: int, ghost list: seq<int>)
      requires Valid() && |code| > 0 && code[|code| - 1].INot?
      modifies this
      ensures Valid() && j == Head(list) && a.jpc == [] && list != []
      ensures var n := |old(a).code|;
              && n > 0 && old(a).code[n - 1].INot?
              && FL(a, list) == LuaGen.CondJump(old(a).(code := old(a).code[..n - 1]),
                  ITest(old(a).code[n - 1].b, !cond))
      ensures Moved(old(live), NonEmpty(old(a).jpc), live, {list})
    {
      var n := |code| - 1;
      var ie := code[n];
      assert SameAt(code, a.code, n);
      ShrinkLive(code, a.code, live);
      code := code[..n];
      a := a.(code := a.code[..n]);
      j, list := CondJump(ITest(ie.b, !cond));
    }

    method JumpOnCond(e: ExpDesc, ghost ae: Exp, cond: bool) returns (j: int, ghost list: seq<int>)
      requires Valid() && Desc(e, ae) && !e.k.VJmp?
      modifies this
      ensures Valid() && FL(a, list) == LuaGen.JumpOnCond(old(a), ae, cond) && j == Head(list) && list != []
              && a.jpc == []
      ensures Moved(old(live), Mine(old(a).jpc, ae), live, NonEmpty(ae.t) + NonEmpty(ae.f) + {list})
      ensures list !in NonEmpty(ae.t) + NonEmpty(ae.f)
    {
      ghost var lists := NonEmpty(ae.t) + NonEmpty(ae.f);
      hide Live, Indexes, LuaGen.CondJump;
      if e.k.VReloc? {
        assert SameAt(code, a.code, e.k.info);
        if code[e.k.info].INot? {
          ghost var l0, jpc0 := live, a.jpc;
          j, list := TestNot(cond);
          MovedPart(l0, NonEmpty(jpc0), live, {list}, lists);
          return;
        }
      }
      hide SameCode;
      j, list := TestValue(e, ae, cond);
    }

    /** jumponcond for a value in a register. */
    method TestValue(e: ExpDesc, ghost ae: Exp, cond: bool) returns (j: int, ghost list: seq<int>)
      requires Valid() && Desc(e, ae) && !e.k.VJmp?
      modifies this
      ensures Valid() && j == Head(list) && list != [] && a.jpc == []
      ensures var d := LuaGen.Discharge2AnyReg(old(a), ae);
              d.e.k.VNonReloc?
              && FL(a, list) == LuaGen.CondJump(LuaGen.FreeExp(d.fs, d.e), ITestSet(NO_REG, d.e.k.info, cond))
      ensures Moved(old(live), Mine(old(a).jpc, ae), live, NonEmpty(ae.t) + NonEmpty(ae.f) + {list})
      ensures list !in NonEmpty(ae.t) + NonEmpty(ae.f)
    {
      ghost var lists := NonEmpty(ae.t) + NonEmpty(ae.f);
      DischargedReg(a, ae);
      hide Live, SameCode, Indexes, LuaGen.CondJump, LuaGen.Discharge2AnyReg;
      var d, ad := Discharge2AnyReg(e, ae);
      assert ad.t == ae.t && ad.f == ae.f;
      ghost var l1, jpc1 := live, a.jpc;
      FreeExp(d, ad);
      j, list := CondJump(ITestSet(NO_REG, d.k.info, cond));
      MovedPart(l1, NonEmpty(jpc1), live, {list}, lists);
      MovedTwice(old(live), Mine(old(a).jpc, ae), l1, Mine(jpc1, ad), live, lists + {list});
    }

    /** The jump for an operand that is a constant. */
    method AlwaysJump() returns (j: int, ghost list: seq<int>)
      requires Valid()
      modifies this
      ensures Valid() && FL(a, list) == LuaGen.AlwaysJump(old(a)) && j == Head(list) && list != [] && a.jpc == []
      ensures Moved(old(live), NonEmpty(old(a).jpc), live, {list})
    {
      a := a.(clean := a.clean && !AnyCarries(a.code, a.jpc));
      j, list := Jump();
    }

    /** The switch of luaK_goiftrue (sense) and luaK_goiffalse (not sense). */
    method Decide(e: ExpDesc, ghost ae: Exp, sense: bool) returns (j: int, ghost list: seq<int>)
      requires Valid() && Desc(e, ae)
      modifies this
      ensures Valid() && FL(a, list) == LuaGen.Decide(old(a), ae, sense) && j == Head(list)
      ensures Moved(old(live), Mine(old(a).jpc, ae), live, Mine(a.jpc, SpentExp(ae)) + NonEmpty(list))
      ensures Apart(a.jpc, SpentExp(ae)) && NonEmpty(list) !! Mine(a.jpc, SpentExp(ae))
    {
      hide Live, SameCode, Indexes, LuaGen.JumpOnCond, LuaGen.AlwaysJump;
      ghost var l0, jpc0, lists := live, a.jpc, NonEmpty(ae.t) + NonEmpty(ae.f);
      if ConstantIs(e.k, sense) {
        j, list := NO_JUMP, [];
      } else if e.k == (if sense then VFalse else VTrue) {
        j, list := AlwaysJump();
        MovedPart(l0, NonEmpty(jpc0), live, {list}, lists);
      } else if e.k.VJmp? {
        if sense { InvertJump(e, ae); }
        j, list := e.k.info, [e.k.info];
      } else {
        j, list := JumpOnCond(e, ae, !sense);
      }
    }

    /** The last jump joins the exits; the other list goes on here. */
    method CloseBranch(e: ExpDesc, ghost ae: Exp, sense: bool, j: int, ghost list: seq<int>)
      returns (e': ExpDesc, ghost ae': Exp)
      requires Valid() && Desc(Spent(e), SpentExp(ae)) && j == Head(list) && e.k == ae.k
      requires NonEmpty(list) <= live && NonEmpty(list) !! Mine(a.jpc, SpentExp(ae))
      modifies this
      ensures Valid() && Desc(Spent(e'), SpentExp(ae')) && e'.k == ae'.k == e.k
      ensures var l := Join(old(a), ExitOf(ae, sense), list);
              && a == LuaGen.PatchToHere(l.fs, StayOf(ae, sense))
              && ExitOf(ae', sense) == l.list && StayOf(ae', sense) == []
      ensures Moved(old(live), Mine(old(a).jpc, SpentExp(ae)) + NonEmpty(list), live, Mine(a.jpc, SpentExp(ae')))
    {
      hide Live, SameCode, Indexes, Join, LuaGen.PatchToHere;
      if sense {
        var f := Link(e.f, j, e.t, ae.f, list, ae.t);
        e', ae' := ExpDesc(e.k, NO_JUMP, f), Exp(ae.k, [], ae.f + list);
      } else {
        var t := Link(e.t, j, e.f, ae.t, list, ae.f);
        e', ae' := ExpDesc(e.k, t, NO_JUMP), Exp(ae.k, ae.t + list, []);
      }
    }

    /** luaK_concat of the exits with a jump, and luaK_patchtohere of the other list. */
    method Link(exit: int, j: int, stay: int, ghost ax: seq<int>, ghost list: seq<int>, ghost ay: seq<int>)
      returns (x: int)
      requires Valid() && Holds(exit, ax) && Holds(j, list) && Holds(stay, ay)
      requires NonEmpty(a.jpc) !! NonEmpty(ax) !! NonEmpty(list) !! NonEmpty(ay)
      modifies this
      ensures Valid() && Holds(x, ax + list) && Join(old(a), ax, list).list == ax + list
      ensures a == LuaGen.PatchToHere(Join(old(a), ax, list).fs, ay)
      ensures NonEmpty(a.jpc) !! NonEmpty(ax + list)
      ensures Moved(old(live), NonEmpty(old(a).jpc) + NonEmpty(ax) + NonEmpty(list) + NonEmpty(ay),
                    live, NonEmpty(a.jpc) + NonEmpty(ax + list))
    {
      hide Live, SameCode, Indexes, LuaGen.PatchToHere;
      x := Concat(exit, j, ax, list);
      assert NonEmpty(ay) <= live && NonEmpty(a.jpc) <= live && NonEmpty(ax + list) !! NonEmpty(a.jpc) + NonEmpty(ay);
      PatchToHere(stay, ay);
    }

    /** luaK_goiftrue (sense) and luaK_goiffalse (not sense). */
    method GoIf(e: ExpDesc, ghost ae: Exp, sense: bool) returns (e': ExpDesc, ghost ae': Exp)
      requires Valid() && Desc(e, ae)
      modifies this
      ensures Valid() && FE(a, ae') == LuaGen.GoIf(old(a), ae, sense) && Desc(Spent(e'), SpentExp(ae'))
      ensures Moved(old(live), Mine(old(a).jpc, ae), live, Mine(a.jpc, SpentExp(ae')))
    {
      ghost var ad, list;
      var d, j;
      GoIfShape(a, ae, sense);
      hide Live, SameCode, Indexes, Mine, LuaGen.Decide, LuaGen.DischargeVars, Join, LuaGen.PatchToHere;
      d, ad := DischargeVars(e, ae);
      ghost var l1, m1 := live, Mine(a.jpc, ad);
      j, list := Decide(d, ad, sense);
      ghost var l2, m2 := live, Mine(a.jpc, SpentExp(ad)) + NonEmpty(list);
      MovedTwice(old(live), Mine(old(a).jpc, ae), l1, m1, live, m2);
      e', ae' := CloseBranch(d, ad, sense, j, list);
      MovedTwice(old(live), Mine(old(a).jpc, ae), l2, m2, live, Mine(a.jpc, SpentExp(ae')));
    }

    /** NOT of a value in a register. */
    method NotValue(e: ExpDesc, ghost ae: Exp) returns (e': ExpDesc, ghost ae': Exp)
      requires Valid() && Desc(e, ae) && !e.k.VJmp?
      modifies this
      ensures Valid() && Desc(e', ae')
      ensures var d := LuaGen.Discharge2AnyReg(old(a), ae); var f := LuaGen.FreeExp(d.fs, d.e);
              && d.e.k.VNonReloc? && a == LuaGen.Code(f, INot(0, d.e.k.info)) && ae' == d.e.(k := VReloc(|f.code|))
      ensures Moved(old(live), Mine(old(a).jpc, ae), live, Mine(a.jpc, ae'))
    {
      DischargedReg(a, ae);
      hide Live, Indexes, Mine, LuaGen.Discharge2AnyReg, LuaGen.Code;
      e', ae' := Discharge2AnyReg(e, ae);
      ghost var l1, m1 := live, Mine(a.jpc, ae');
      FreeExp(e', ae');
      e', ae' := Reloc(INot(0, e'.k.info), ae', e');
      MovedTwice(old(live), Mine(old(a).jpc, ae), l1, m1, live, Mine(a.jpc, ae'));
    }

    /** The switch of codenot. */
    method NotKind(e: ExpDesc, ghost ae: Exp) returns (e': ExpDesc, ghost ae': Exp)
      requires Valid() && Desc(e, ae)
      modifies this
      ensures Valid() && FE(a, ae') == LuaGen.NotKind(old(a), ae) && Desc(e', ae')
      ensures Moved(old(live), Mine(old(a).jpc, ae), live, Mine(a.jpc, ae'))
    {
      hide Live, SameCode, Indexes, LuaGen.Discharge2AnyReg, LuaGen.Code, LuaGen.FreeExp;
      match e.k
      case VNil => e', ae' := e.(k := VTrue), ae.(k := VTrue);
      case VFalse => e', ae' := e.(k := VTrue), ae.(k := VTrue);
      case VK(_) => e', ae' := e.(k := VFalse), ae.(k := VFalse);
      case VKNum(_) => e', ae' := e.(k := VFalse), ae.(k := VFalse);
      case VTrue => e', ae' := e.(k := VFalse), ae.(k := VFalse);
      case VJmp(_) =>
        InvertJump(e, ae);
        e', ae' := e, ae;
      case _ =>
        e', ae' := NotValue(e, ae);
    }

    method CodeNot(e: ExpDesc, ghost ae: Exp) returns (e': ExpDesc, ghost ae': Exp)
      requires Valid() && Desc(e, ae)
      modifies this
      ensures Valid() && FE(a, ae') == LuaGen.CodeNot(old(a), ae) && Desc(e', ae')
      ensures Moved(old(live), Mine(old(a).jpc, ae), live, Mine(a.jpc, ae'))
    {
      hide Live, SameCode, Indexes, LuaGen.DischargeVars, LuaGen.NotKind, Moved, Mine;
      e', ae' := DischargeVars(e, ae);
      ghost var l1, m1 := live, Mine(a.jpc, ae');
      e', ae' := NotKind(e', ae');
      MovedTwice(old(live), Mine(old(a).jpc, ae), l1, m1, live, Mine(a.jpc, ae'));
      e', ae' := Exchange(e', ae');
    }

    /** The end of codenot: the lists change places, and their jumps carry values no more. */
    method Exchange(e: ExpDesc, ghost ae: Exp) returns (e': ExpDesc, ghost ae': Exp)
      requires Valid() && Desc(e, ae)
      modifies `code, `a
      ensures Valid() && Desc(e', ae') && ae' == Exp(ae.k, ae.f, ae.t)
      ensures a == LuaGen.RemoveValues(LuaGen.RemoveValues(old(a), ae.t), ae.f)
      ensures Mine(a.jpc, ae') == Mine(old(a).jpc, ae)
    {
      hide Live, SameCode, Indexes;
      e', ae' := ExpDesc(e.k, e.f, e.t), Exp(ae.k, ae.f, ae.t);
      RemoveValues(e'.f, ae'.f);
      RemoveValues(e'.t, ae'.t);
    }

    // ---------- operators ----------

    /** codearith; the left operand is ready, and holds no jump. */
    method CodeArith(p: Prims, op: CodeOp, e1: ExpDesc, e2: ExpDesc, ghost ae2: Exp) returns (e': ExpDesc)
      requires Valid() && Desc(e2, ae2) && Operand(e1) && (Unary(op) ==> e2 == InitExp(VKNum(Real(0.0))))
      modifies this
      ensures Valid() && e' == InitExp(e'.k) && !e'.k.VJmp? && Rooted(a.code, e'.k)
      ensures FE(a, Init(e'.k)) == LuaGen.CodeArith(p, old(a), op, Init(e1.k), ae2)
      ensures Moved(old(live), Mine(old(a).jpc, ae2), live, NonEmpty(a.jpc))
    {
      HeldNone(code, a.code, live, ae2.t);
      HeldNone(code, a.code, live, ae2.f);
      if Numeral(e1) && Numeral(e2) && FoldConstants(p, op, Init(e1.k), Init(e2.k)).Some? {
        return InitExp(VKNum(FoldConstants(p, op, Init(e1.k), Init(e2.k)).value));
      }
      assert FoldConstants(p, op, Init(e1.k), ae2).None?;
      hide Live, SameCode, Indexes, LuaGen.Exp2RK, FoldConstants;
      ghost var l0, m0 := live, Mine(a.jpc, ae2);
      var d2, o2 := e2, 0;
      if !Unary(op) { d2, o2 := Exp2RK(e2, ae2); }
      e' := CodeOperands(op, e1, d2, o2);
    }

    /** The operand in the higher register is freed first. */
    method FreeOperands(d1: ExpDesc, o1: int, d2: ExpDesc, o2: int)
      requires Valid()
      modifies `freereg, `a
      ensures Valid() && a == FreeExps(old(a), Init(d1.k), o1, Init(d2.k), o2)
      ensures a.jpc == old(a).jpc && a.code == old(a).code
    {
      hide Live, SameCode, Indexes;
      if o1 > o2 {
        FreeExp(d1, Init(d1.k));
        FreeExp(d2, Init(d2.k));
      } else {
        FreeExp(d2, Init(d2.k));
        FreeExp(d1, Init(d1.k));
      }
    }

    /** The rest of codearith, when the right operand is ready. */
    method CodeOperands(op: CodeOp, e1: ExpDesc, d2: ExpDesc, o2: int) returns (e': ExpDesc)
      requires Valid() && Operand(e1)
      modifies this
      ensures Valid() && e' == InitExp(e'.k) && !e'.k.VJmp? && Rooted(a.code, e'.k)
      ensures var d1 := LuaGen.Exp2RK(old(a), Init(e1.k));
              var f := FreeExps(d1.fs, d1.e, d1.i, Init(d2.k), o2);
              a == LuaGen.Code(f, OpInstr(op, d1.i, o2)) && Init(e'.k) == d1.e.(k := VReloc(|f.code|))
      ensures Moved(old(live), NonEmpty(old(a).jpc), live, NonEmpty(a.jpc))
    {
      hide Live, Indexes, LuaGen.Exp2RK, FreeExps;
      var d1, o1 := Exp2RK(e1, Init(e1.k));
      FreeOperands(d1, o1, d2, o2);
      ghost var ae';
      e', ae' := Reloc(OpInstr(op, o1, o2), Init(VNil), InitExp(VNil));
    }

    method CodeComp(op: CmpOp, cond: bool, e1: ExpDesc, e2: ExpDesc, ghost ae2: Exp) returns (e': ExpDesc)
      requires Valid() && Desc(e2, ae2) && Operand(e1) && Settled(e1.k)
      modifies this
      ensures Valid() && Desc(e', Init(e'.k)) && FE(a, Init(e'.k)) == LuaGen.CodeComp(old(a), op, cond, Init(e1.k), ae2)
      ensures Moved(old(live), Mine(old(a).jpc, ae2), live, Mine(a.jpc, Init(e'.k)))
    {
      hide Live, SameCode, Indexes, Mine, Moved, Apart, LuaGen.Exp2RK, LuaGen.CondJump;
      var d1, o1 := ReadyRK(e1);
      var d2, o2 := Exp2RK(e2, ae2);
      ghost var l1, m1 := live, NonEmpty(a.jpc);
      FreeExp(d2, Init(d2.k));
      FreeExp(d1, Init(d1.k));
      e' := CompJump(if !cond && op != Eq then ICmp(op, true, o2, o1) else ICmp(op, cond, o1, o2));
      MovedTwice(old(live), Mine(old(a).jpc, ae2), l1, m1, live, Mine(a.jpc, Init(e'.k)));
    }

    /** luaK_exp2RK of an operand that is ready codes nothing. */
    method ReadyRK(e: ExpDesc) returns (e': ExpDesc, i: int)
      requires Valid() && Operand(e) && Settled(e.k)
      modifies this
      ensures Valid() && a == old(a) && live == old(live) && e' == e
      ensures LuaGen.Exp2RK(a, Init(e.k)) == FEI(a, Init(e.k), i)
    {
      hide Live, SameCode, Indexes, LuaGen.Exp2RK;
      SettledRK(a, e.k);
      SimpleDesc(e);
      e', i := Exp2RK(e, Init(e.k));
    }

    /** The jump of a comparison, as a descriptor. */
    method CompJump(i: Instr) returns (e': ExpDesc)
      requires Valid() && i.ICmp?
      modifies this
      ensures Valid() && Desc(e', Init(e'.k)) && a == LuaGen.CondJump(old(a), i).fs && e'.k == VJmp(|old(a).code| + 1)
      ensures Moved(old(live), NonEmpty(old(a).jpc), live, Mine(a.jpc, Init(e'.k)))
    {
      hide Live, Indexes;
      var j, list := CondJump(i);
      e' := InitExp(VJmp(j));
    }

    method Prefix(p: Prims, op: UnOp, e: ExpDesc, ghost ae: Exp) returns (e': ExpDesc, ghost ae': Exp)
      requires Valid() && Desc(e, ae)
      modifies this
      ensures Valid() && FE(a, ae') == LuaGen.Prefix(p, old(a), op, ae) && Desc(e', ae')
      ensures Moved(old(live), Mine(old(a).jpc, ae), live, Mine(a.jpc, ae'))
    {
      hide Live, SameCode, Indexes, Moved, Mine, Desc, LuaGen.CodeArith, LuaGen.Exp2AnyReg, LuaGen.CodeNot;
      if op == Not {
        e', ae' := CodeNot(e, ae);
      } else {
        e' := PrefixValue(p, op, e, ae);
        ae' := Init(e'.k);
        SimpleDesc(e');
      }
    }

    /** Minus and length. */
    method PrefixValue(p: Prims, op: UnOp, e: ExpDesc, ghost ae: Exp) returns (e': ExpDesc)
      requires Valid() && Desc(e, ae) && op != Not
      modifies this
      ensures Valid() && FE(a, Init(e'.k)) == LuaGen.Prefix(p, old(a), op, ae)
      ensures e' == InitExp(e'.k) && Rooted(a.code, e'.k) && !e'.k.VJmp?
      ensures Moved(old(live), Mine(old(a).jpc, ae), live, NonEmpty(a.jpc))
    {
      NumeralAgrees(code, a.code, live, e, ae);
      var e1 := UnaryOperand(op, e, ae);
      SimpleDesc(InitExp(VKNum(Real(0.0))));
      hide Live, SameCode, Indexes, Moved, Mine, Desc, LuaGen.CodeArith, LuaGen.Exp2AnyReg, LuaGen.CodeNot;
      ghost var l1, m1 := live, NonEmpty(a.jpc);
      e' := CodeArith(p, if op == Minus then CUnm else CLen, e1, InitExp(VKNum(Real(0.0))), Init(VKNum(Real(0.0))));
      MovedTwice(old(live), Mine(old(a).jpc, ae), l1, m1, live, NonEmpty(a.jpc));
    }

    /** The operand of minus stays a numeral; any other goes to a register. */
    method UnaryOperand(op: UnOp, e: ExpDesc, ghost ae: Exp) returns (e': ExpDesc)
      requires Valid() && Desc(e, ae) && op != Not
      modifies this
      ensures Valid() && Operand(e') && Moved(old(live), Mine(old(a).jpc, ae), live, NonEmpty(a.jpc))
      ensures FE(a, Init(e'.k))
              == if op == Minus && IsNumeral(ae) then FE(old(a), ae) else LuaGen.Exp2AnyReg(old(a), ae)
    {
      NumeralAgrees(code, a.code, live, e, ae);
      hide Live, SameCode, Indexes, LuaGen.Exp2AnyReg;
      e' := e;
      if op == Len || !Numeral(e) { e' := Exp2AnyReg(e, ae); }
    }

    method Infix(op: BinOp, e: ExpDesc, ghost ae: Exp) returns (e': ExpDesc, ghost ae': Exp)
      requires Valid() && Desc(e, ae)
      modifies this
      ensures Valid() && FE(a, ae') == LuaGen.Infix(old(a), op, ae) && LeftReady(op, e', ae')
      ensures Desc(Left(op, e'), LeftExp(op, ae'))
      ensures Moved(old(live), Mine(old(a).jpc, ae), live, Mine(a.jpc, LeftExp(op, ae')))
    {
      hide Live, SameCode, Indexes, LuaGen.GoIfTrue, LuaGen.GoIfFalse, LuaGen.Decide, Mine, Moved, Apart;
      if op == AndOp || op == OrOp {
        GoIfShape(a, ae, op == AndOp);
        e', ae' := GoIf(e, ae, op == AndOp);
      } else {
        e' := InfixValue(op, e, ae);
        ae' := Init(e'.k);
      }
    }

    /** The left operand of an operator that is not and/or. */
    method InfixValue(op: BinOp, e: ExpDesc, ghost ae: Exp) returns (e': ExpDesc)
      requires Valid() && Desc(e, ae) && op != AndOp && op != OrOp
      modifies this
      ensures Valid() && FE(a, Init(e'.k)) == LuaGen.Infix(old(a), op, ae) && LeftReady(op, e', Init(e'.k))
      ensures Desc(e', Init(e'.k))
      ensures Moved(old(live), Mine(old(a).jpc, ae), live, Mine(a.jpc, Init(e'.k)))
    {
      NumeralAgrees(code, a.code, live, e, ae);
      hide Live, SameCode, Indexes, LuaGen.Exp2RK, LuaGen.Exp2NextReg, Mine, Moved, Apart;
      if op == ConcatOp {
        e' := Exp2NextReg(e, ae);
        SimpleDesc(e');
      } else if op.ArithOp? && Numeral(e) {
        e' := e;
      } else {
        var i;
        e', i := Exp2RK(e, ae);
        SimpleDesc(e');
      }
    }

    method PosConcat(p: Prims, e1: ExpDesc, e2: ExpDesc, ghost ae2: Exp) returns (e': ExpDesc)
      requires Valid() && Desc(e2, ae2) && Operand(e1) && e1.k.VNonReloc?
      modifies this
      ensures Valid() && e' == InitExp(e'.k) && !e'.k.VJmp? && Rooted(a.code, e'.k)
      ensures FE(a, Init(e'.k)) == LuaGen.PosConcat(p, old(a), Init(e1.k), ae2)
      ensures Moved(old(live), Mine(old(a).jpc, ae2), live, NonEmpty(a.jpc))
    {
      hide Live, Indexes, Moved, LuaGen.Exp2Val, LuaGen.Exp2NextReg, LuaGen.CodeArith;
      var d, ad := Exp2Val(e2, ae2);
      ghost var l1, m1 := live, Mine(a.jpc, ad);
      if d.k.VReloc? {
        assert SameAt(code, a.code, d.k.info);
        if code[d.k.info].IConcat? {
          e' := WidenConcat(e1, d);
          return;
        }
      }
      hide SameCode;
      e' := ConcatTwo(p, e1, d, ad);
      MovedTwice(old(live), Mine(old(a).jpc, ae2), l1, m1, live, NonEmpty(a.jpc));
    }

    /** The CONCAT that ends the code takes one more operand on the left. */
    method WidenConcat(e1: ExpDesc, d: ExpDesc) returns (e': ExpDesc)
      requires Valid() && Operand(e1) && e1.k.VNonReloc? && d.k.VReloc? && Rooted(a.code, d.k)
      requires 0 <= d.k.info < |code| == |a.code| && code[d.k.info] == a.code[d.k.info] && code[d.k.info].IConcat?
      modifies this
      ensures Valid() && e' == InitExp(d.k) && Rooted(a.code, d.k) && live == old(live) && a.jpc == old(a).jpc
      ensures var last := old(a).code[d.k.info];
              var f := LuaGen.FreeExp(old(a).(asserts := old(a).asserts && e1.k == VNonReloc(last.b - 1)), Init(e1.k));
              a == f.(code := f.code[d.k.info := IConcat(last.a, e1.k.info, last.c)])
    {
      hide Live, SameCode, Indexes;
      var last := code[d.k.info];
      a := a.(asserts := a.asserts && e1.k == VNonReloc(last.b - 1));
      FreeExp(e1, Init(e1.k));
      SetInstr(d.k.info, IConcat(last.a, e1.k.info, last.c));
      e' := e1.(k := d.k);
    }

    method ConcatTwo(p: Prims, e1: ExpDesc, d: ExpDesc, ghost ad: Exp) returns (e': ExpDesc)
      requires Valid() && Desc(d, ad) && Operand(e1) && e1.k.VNonReloc?
      modifies this
      ensures Valid() && e' == InitExp(e'.k) && !e'.k.VJmp? && Rooted(a.code, e'.k)
      ensures var x := LuaGen.Exp2NextReg(old(a), ad);
              FE(a, Init(e'.k)) == LuaGen.CodeArith(p, x.fs, CConcat, Init(e1.k), x.e)
      ensures Moved(old(live), Mine(old(a).jpc, ad), live, NonEmpty(a.jpc))
    {
      hide Live, SameCode, Indexes, Moved, LuaGen.Exp2NextReg, LuaGen.CodeArith;
      var x := Exp2NextReg(d, ad);
      ghost var l2, m2 := live, NonEmpty(a.jpc);
      SimpleDesc(x);
      e' := CodeArith(p, CConcat, e1, x, Init(x.k));
      MovedTwice(old(live), Mine(old(a).jpc, ad), l2, m2, live, NonEmpty(a.jpc));
    }

    /** luaK_posfix for and (sense) and or (not sense): both leave by the same list. */
    method PosLogic(sense: bool, e1: ExpDesc, ghost ae1: Exp, e2: ExpDesc, ghost ae2: Exp)
      returns (e': ExpDesc, ghost ae': Exp)
      requires Valid() && Desc(e2, ae2) && Desc(Spent(e1), SpentExp(ae1)) && StayOf(ae1, sense) == []
      requires Mine([], SpentExp(ae1)) !! Mine(a.jpc, ae2)
      modifies this
      ensures Valid() && Desc(e', ae')
      ensures var d := LuaGen.DischargeVars(old(a), ae2); var l := Join(d.fs, ExitOf(d.e, sense), ExitOf(ae1, sense));
              a == l.fs && ae' == WithExits(d.e, sense, l.list)
      ensures Moved(old(live), Mine(old(a).jpc, ae2) + Mine([], SpentExp(ae1)), live, Mine(a.jpc, ae'))
    {
      hide Live, SameCode, Indexes, LuaGen.DischargeVars;
      ghost var l0, jpc0, rest := live, a.jpc, Mine([], SpentExp(ae1));
      e', ae' := DischargeVars(e2, ae2);
      ghost var l1, m1 := live, Mine(a.jpc, ae') + rest;
      MovedPart(l0, Mine(jpc0, ae2), live, Mine(a.jpc, ae'), rest);
      e', ae' := JoinExit(e', ae', sense, if sense then e1.f else e1.t, ExitOf(ae1, sense));
      MovedTwice(l0, Mine(jpc0, ae2) + rest, l1, m1, live, Mine(a.jpc, ae'));
    }

    method JoinExit(e: ExpDesc, ghost ae: Exp, sense: bool, l: int, ghost al: seq<int>)
      returns (e': ExpDesc, ghost ae': Exp)
      requires Valid() && Desc(e, ae) && Holds(l, al) && NonEmpty(al) !! Mine(a.jpc, ae)
      modifies this
      ensures Valid() && Desc(e', ae')
      ensures var j := Join(old(a), ExitOf(ae, sense), al); a == j.fs && ae' == WithExits(ae, sense, j.list)
      ensures Moved(old(live), Mine(old(a).jpc, ae) + NonEmpty(al), live, Mine(a.jpc, ae'))
    {
      ghost var x, jpc0 := ExitOf(ae, sense), a.jpc;
      assert NonEmpty(x) <= Mine(jpc0, ae) && (x != [] ==> x != al && x != jpc0) && (al != [] ==> al != jpc0);
      hide Live, SameCode, Indexes, Mine, Moved;
      var exits := Concat(if sense then e.f else e.t, l, x, al);
      JoinHeld(old(live), live, jpc0, ae, sense, al);
      e', ae' := if sense then e.(f := exits) else e.(t := exits), WithExits(ae, sense, x + al);
    }

    /** A descriptor without jumps. */
    lemma SimpleDesc(e: ExpDesc)
      requires Valid() && e == InitExp(e.k) && Rooted(a.code, e.k) && !e.k.VJmp?
      ensures Desc(e, Init(e.k)) && Mine(a.jpc, Init(e.k)) == NonEmpty(a.jpc)
    {
      hide Live, SameCode, Indexes;
    }

    method Posfix(p: Prims, op: BinOp, e1: ExpDesc, ghost ae1: Exp, e2: ExpDesc, ghost ae2: Exp)
      returns (e': ExpDesc, ghost ae': Exp)
      requires Valid() && Desc(e2, ae2) && LeftReady(op, e1, ae1) && Desc(Left(op, e1), LeftExp(op, ae1))
      requires Mine([], LeftExp(op, ae1)) !! Mine(a.jpc, ae2)
      modifies this
      ensures Valid() && FE(a, ae') == LuaGen.Posfix(p, old(a), op, ae1, ae2) && Desc(e', ae')
      ensures Moved(old(live), Mine(old(a).jpc, ae2) + Mine([], LeftExp(op, ae1)), live, Mine(a.jpc, ae'))
    {
      hide Live, SameCode, Indexes, Moved, LuaGen.DischargeVars, LuaGen.CodeArith, LuaGen.CodeComp, LuaGen.PosConcat;
      if op == AndOp || op == OrOp {
        assert a == a.(asserts := a.asserts && StayOf(ae1, op == AndOp) == []);
        e', ae' := PosLogic(op == AndOp, e1, ae1, e2, ae2);
        return;
      }
      assert Mine(a.jpc, ae2) + Mine([], LeftExp(op, ae1)) == Mine(a.jpc, ae2);
      match op {
        case ConcatOp => e' := PosConcat(p, e1, e2, ae2);
        case ArithOp(o) => e' := CodeArith(p, CArith(o), e1, e2, ae2);
        case EqOp => e' := CodeComp(Eq, true, e1, e2, ae2);
        case NeOp => e' := CodeComp(Eq, false, e1, e2, ae2);
        case LtOp => e' := CodeComp(Lt, true, e1, e2, ae2);
        case LeOp => e' := CodeComp(Le, true, e1, e2, ae2);
        case GtOp => e' := CodeComp(Lt, false, e1, e2, ae2);
        case GeOp => e' := CodeComp(Le, false, e1, e2, ae2);
      }
      ae' := Init(e'.k);
    }
  }
}
