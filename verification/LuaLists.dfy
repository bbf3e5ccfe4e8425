/** Jump lists as lcode.c keeps them: threaded through the sBx fields of the pending jumps. */
module LuaLists {
  import opened LuaLimits
  import opened LuaOpcodes
  import opened LuaGen

  /** getjump: the next node of a list, or NO_JUMP. */
  function GetJump(code: seq<Instr>, pc: int): int {
    if 0 <= pc < |code| && code[pc].IJmp? && code[pc].sbx != NO_JUMP then pc + 1 + code[pc].sbx else NO_JUMP
  }

  function Head(list: seq<int>): int {
    if list == [] then NO_JUMP else list[0]
  }

  /** Node i of the list is a jump that leads to node i + 1, or ends the list. */
  predicate NodeOK(code: seq<Instr>, list: seq<int>, i: int)
    requires 0 <= i < |list|
  {
    && 0 <= list[i] < |code| && code[list[i]].IJmp?
    && code[list[i]].sbx == (if i + 1 < |list| then list[i + 1] - (list[i] + 1) else NO_JUMP)
  }

  /** The nodes reached from Head(list) by getjump are exactly those of list: no cycle, no loss. */
  predicate Threaded(code: seq<Instr>, list: seq<int>) {
    && (forall i | 0 <= i < |list| :: NodeOK(code, list, i))
    && (forall i, j | 0 <= i < j < |list| :: list[i] != list[j])
  }

  /** Following the threads of a list visits its nodes in order and ends after the last one. */
  lemma GetJumpThreaded(code: seq<Instr>, list: seq<int>, i: int)
    requires Threaded(code, list) && 0 <= i < |list|
    ensures GetJump(code, list[i]) == if i + 1 < |list| then list[i + 1] else NO_JUMP
    ensures GetJump(code, list[i]) == NO_JUMP <==> i + 1 == |list|
  {
    assert NodeOK(code, list, i);
    if i + 1 < |list| { assert NodeOK(code, list, i + 1); }
  }

  lemma HeadNone(code: seq<Instr>, list: seq<int>)
    requires Threaded(code, list)
    ensures Head(list) == NO_JUMP <==> list == []
  {
    if list != [] { assert NodeOK(code, list, 0); }
  }

  lemma ThreadedFrame(c1: seq<Instr>, c2: seq<Instr>, list: seq<int>)
    requires Threaded(c1, list) && |c1| <= |c2|
    requires forall n | n in list && 0 <= n < |c1| :: c2[n] == c1[n]
    ensures Threaded(c2, list)
  {
    forall i | 0 <= i < |list| ensures NodeOK(c2, list, i) {
      assert NodeOK(c1, list, i);
    }
  }

  /** Writing the link from the last node of one list to the first of another joins them. */
  lemma ThreadedJoin(c1: seq<Instr>, c2: seq<Instr>, l1: seq<int>, l2: seq<int>)
    requires Threaded(c1, l1) && Threaded(c1, l2) && Disjoint(l1, l2) && l1 != [] && l2 != []
    requires var last := l1[|l1| - 1]; 0 <= last < |c1| && c2 == c1[last := IJmp(l2[0] - (last + 1))]
    ensures Threaded(c2, l1 + l2)
  {
    var l, last := l1 + l2, l1[|l1| - 1];
    forall i | 0 <= i < |l| ensures NodeOK(c2, l, i) {
      if i < |l1| {
        assert NodeOK(c1, l1, i);
      } else {
        var m := i - |l1|;
        assert NodeOK(c1, l2, m) && l[i] == l2[m];
        assert last in l1 && l2[m] in l2;
      }
    }
    forall i, j | 0 <= i < j < |l| ensures l[i] != l[j] {
      if i < |l1| <= j { assert l[i] in l1 && l[j] == l2[j - |l1|]; }
    }
  }

  // ---------- the code and the lists it holds ----------

  /** The concrete code is the abstract one, except for the links in pending jumps. */
  predicate SameCode(c: seq<Instr>, a: seq<Instr>) {
    |c| == |a| && forall i | 0 <= i < |c| :: SameAt(c, a, i)
  }

  predicate SameAt(c: seq<Instr>, a: seq<Instr>, i: int)
    requires 0 <= i < |c| == |a|
  {
    c[i] == a[i] || (a[i] == IJmp(NO_JUMP) && c[i].IJmp?)
  }

  /** Every live list is threaded through pending jumps, no two share a node, and no pending jump
      is lost: each is on some list. */
  ghost predicate Live(c: seq<Instr>, a: seq<Instr>, live: set<seq<int>>) {
    && (forall l | l in live :: l != [] && Threaded(c, l) && (forall n | n in l :: Pending(a, n)))
    && (forall l, m | l in live && m in live && l != m :: Disjoint(l, m))
    && (forall n | Pending(a, n) :: OnSome(live, n))
  }

  ghost predicate OnSome(live: set<seq<int>>, n: int) {
    exists l | l in live :: n in l
  }

  /** With no list left, the code is finished. */
  lemma AllResolved(c: seq<Instr>, a: seq<Instr>)
    requires SameCode(c, a) && Live(c, a, {})
    ensures c == a && forall i :: !Pending(a, i)
  {
    forall i ensures !Pending(a, i) { assert Pending(a, i) ==> OnSome({}, i); }
    forall i | 0 <= i < |c| ensures c[i] == a[i] { assert SameAt(c, a, i) && !Pending(a, i); }
  }

  lemma SameCarries(c: seq<Instr>, a: seq<Instr>, n: int)
    requires SameCode(c, a)
    ensures Carries(c, n) == Carries(a, n)
  {
    if 1 <= n <= |c| { assert SameAt(c, a, n - 1); }
  }

  // ---------- patching ----------

  /** Patching a list node by node, from the front. */
  lemma PatchStep(code: seq<Instr>, list: seq<int>, i: int, vtarget: int, reg: int, dtarget: int)
    requires 0 <= i < |list| && (forall i, j | 0 <= i < j < |list| :: list[i] != list[j])
    requires forall n | n in list :: 0 <= n < |code| && code[n].IJmp?
    ensures Patch(Patch(code, list[..i], vtarget, reg, dtarget), [list[i]], vtarget, reg, dtarget)
              == Patch(code, list[..i + 1], vtarget, reg, dtarget)
  {
    var c1 := Patch(code, list[..i], vtarget, reg, dtarget);
    var c2 := Patch(code, list[..i + 1], vtarget, reg, dtarget);
    var c3 := Patch(c1, [list[i]], vtarget, reg, dtarget);
    assert list[..i + 1] == list[..i] + [list[i]];
    forall j | 0 <= j < |code| ensures c3[j] == c2[j] {
      assert c1[j] == PatchInstr(code, list[..i], vtarget, reg, dtarget, j);
      if j > 0 { assert c1[j - 1] == PatchInstr(code, list[..i], vtarget, reg, dtarget, j - 1); }
      PatchStepAt(code, list, i, vtarget, reg, dtarget, j);
    }
  }

  lemma PatchStepAt(code: seq<Instr>, list: seq<int>, i: int, vtarget: int, reg: int, dtarget: int, j: int)
    requires 0 <= i < |list| && (forall i, j | 0 <= i < j < |list| :: list[i] != list[j])
    requires forall n | n in list :: 0 <= n < |code| && code[n].IJmp?
    requires 0 <= j < |code|
    ensures PatchInstr(Patch(code, list[..i], vtarget, reg, dtarget), [list[i]], vtarget, reg, dtarget, j)
              == PatchInstr(code, list[..i + 1], vtarget, reg, dtarget, j)
  {
    var done := list[..i];
    var c1 := Patch(code, done, vtarget, reg, dtarget);
    assert list[..i + 1] == done + [list[i]];
    assert c1[j] == PatchInstr(code, done, vtarget, reg, dtarget, j);
    if j > 0 { assert c1[j - 1] == PatchInstr(code, done, vtarget, reg, dtarget, j - 1); }
    assert list[i] !in done;
  }

  /** What one turn of patchlistaux finds and writes at node list[i]. */
  lemma PatchNode(code: seq<Instr>, list: seq<int>, i: int, vtarget: int, reg: int, dtarget: int)
    requires Threaded(code, list) && 0 <= i < |list|
    ensures var c1 := Patch(code, list[..i], vtarget, reg, dtarget); var n := list[i];
            && 0 <= n < |code| && c1[n] == code[n] && code[n].IJmp? && Carries(c1, n) == Carries(code, n)
            && GetJump(c1, n) == GetJump(code, n) && |c1| == |code|
            && (Carries(code, n) ==> c1[n - 1] == code[n - 1])
            && n !in list[..i]
            && (forall m | m in list :: 0 <= m < |code| && code[m].IJmp?)
  {
    var done, n := list[..i], list[i];
    var c1 := Patch(code, done, vtarget, reg, dtarget);
    assert NodeOK(code, list, i);
    forall m | m in list ensures 0 <= m < |code| && code[m].IJmp? {
      var j :| 0 <= j < |list| && list[j] == m;
      assert NodeOK(code, list, j);
    }
    assert c1[n] == PatchInstr(code, done, vtarget, reg, dtarget, n);
    if n > 0 { assert c1[n - 1] == PatchInstr(code, done, vtarget, reg, dtarget, n - 1); }
  }

  /** patchtestreg and fixjump at one node are Patch for that node alone. */
  lemma PatchOne(code: seq<Instr>, n: int, vtarget: int, reg: int, dtarget: int, c1: seq<Instr>)
    requires 0 <= n < |code| && code[n].IJmp?
    requires c1 == if Carries(code, n) then code[n - 1 := PatchedControl(code[n - 1], reg)] else code
    ensures c1[n := IJmp((if Carries(code, n) then vtarget else dtarget) - (n + 1))]
            == Patch(code, [n], vtarget, reg, dtarget)
  {}

  function PatchedControl(i: Instr, reg: int): Instr {
    if !i.ITestSet? then i
    else if reg != NO_REG && reg != i.b then ITestSet(reg, i.b, i.cond)
    else ITest(i.b, i.cond)
  }

  /** Patching a live list: the other lists, and the correspondence with the abstract code, stay. */
  lemma PatchSame(c: seq<Instr>, a: seq<Instr>, list: seq<int>, vtarget: int, reg: int, dtarget: int)
    requires SameCode(c, a) && (forall n | n in list :: Pending(a, n))
    ensures SameCode(Patch(c, list, vtarget, reg, dtarget), Patch(a, list, vtarget, reg, dtarget))
    ensures PatchInRange(c, list, vtarget, dtarget) == PatchInRange(a, list, vtarget, dtarget)
  {
    var c2, a2 := Patch(c, list, vtarget, reg, dtarget), Patch(a, list, vtarget, reg, dtarget);
    forall i | 0 <= i < |c| ensures SameAt(c2, a2, i) {
      assert SameAt(c, a, i);
      SameCarries(c, a, i);
    }
    forall n | n in list ensures Carries(c, n) == Carries(a, n) {
      SameCarries(c, a, n);
    }
  }

  /** No node is sent to itself. */
  predicate Forward(code: seq<Instr>, list: seq<int>, vtarget: int, dtarget: int) {
    forall n | n in list :: (if Carries(code, n) then vtarget else dtarget) != n
  }

  lemma PatchLive(c: seq<Instr>, a: seq<Instr>, live: set<seq<int>>, list: seq<int>, vtarget: int, reg: int,
                  dtarget: int)
    requires SameCode(c, a) && Live(c, a, live) && (list == [] || list in live)
    requires Forward(a, list, vtarget, dtarget)
    ensures Live(Patch(c, list, vtarget, reg, dtarget), Patch(a, list, vtarget, reg, dtarget), live - {list})
  {
    var c2, a2 := Patch(c, list, vtarget, reg, dtarget), Patch(a, list, vtarget, reg, dtarget);
    forall l | l in live - {list} ensures Threaded(c2, l) && forall n | n in l :: Pending(a2, n) {
      if list != [] { assert Disjoint(list, l); }
      forall n | n in l ensures Pending(a2, n) && c2[n] == c[n] {
        assert Pending(a, n) && SameAt(c, a, n);
      }
      ThreadedFrame(c, c2, l);
    }
    forall n | Pending(a2, n) ensures OnSome(live - {list}, n) {
      assert a2[n] == PatchInstr(a, list, vtarget, reg, dtarget, n);
      assert Pending(a, n) && OnSome(live, n);
      var l :| l in live && n in l;
      assert l in live - {list};
    }
  }

  /** Emitting an instruction; a pending jump becomes a list by itself. */
  lemma AppendLive(c: seq<Instr>, a: seq<Instr>, live: set<seq<int>>, i: Instr)
    requires SameCode(c, a) && Live(c, a, live)
    ensures var live' := if i == IJmp(NO_JUMP) then live + {[|c|]} else live;
            SameCode(c + [i], a + [i]) && Live(c + [i], a + [i], live')
    ensures forall l | l in live :: |c| !in l
    ensures [|c|] !in live
  {
    var c2, a2, s := c + [i], a + [i], [|c|];
    var live' := if i == IJmp(NO_JUMP) then live + {s} else live;
    forall j | 0 <= j < |c2| ensures SameAt(c2, a2, j) {
      if j < |c| { assert SameAt(c, a, j); }
    }
    forall l | l in live ensures Threaded(c2, l) && |c| !in l && forall n | n in l :: Pending(a2, n) {
      ThreadedFrame(c, c2, l);
      forall n | n in l ensures Pending(a2, n) && n != |c| { assert Pending(a, n); }
    }
    if i == IJmp(NO_JUMP) {
      assert NodeOK(c2, s, 0);
      forall l | l in live ensures Disjoint(l, s) && Disjoint(s, l) {}
    }
    assert |c| in s;
    forall n | Pending(a2, n) ensures OnSome(live', n) {
      if n < |c| {
        assert Pending(a, n) && OnSome(live, n);
        var l :| l in live && n in l;
        assert l in live';
      } else {
        assert s in live' && n in s;
      }
    }
  }

  /** Rewriting an instruction that is not a jump. */
  lemma ReplaceLive(c: seq<Instr>, a: seq<Instr>, live: set<seq<int>>, n: int, i: Instr)
    requires SameCode(c, a) && Live(c, a, live)
    requires 0 <= n < |c| && !a[n].IJmp? && !i.IJmp?
    ensures c[n] == a[n] && SameCode(c[n := i], a[n := i]) && Live(c[n := i], a[n := i], live)
  {
    var c2, a2 := c[n := i], a[n := i];
    assert SameAt(c, a, n);
    forall j | 0 <= j < |c| ensures SameAt(c2, a2, j) && (Pending(a2, j) <==> Pending(a, j)) { assert SameAt(c, a, j); }
    forall l | l in live ensures Threaded(c2, l) && forall m | m in l :: Pending(a2, m) {
      forall m | m in l ensures Pending(a2, m) && m != n { assert Pending(a, m); }
      ThreadedFrame(c, c2, l);
    }
  }

  /** Taking back the last instruction, which is not a jump. */
  lemma ShrinkLive(c: seq<Instr>, a: seq<Instr>, live: set<seq<int>>)
    requires SameCode(c, a) && Live(c, a, live) && |c| > 0 && !a[|a| - 1].IJmp?
    ensures var n := |c| - 1; c[n] == a[n] && SameCode(c[..n], a[..n]) && Live(c[..n], a[..n], live)
  {
    var n := |c| - 1;
    var c2, a2 := c[..n], a[..n];
    assert SameAt(c, a, n);
    forall j | 0 <= j < n ensures SameAt(c2, a2, j) { assert SameAt(c, a, j); }
    forall l | l in live ensures Threaded(c2, l) && forall m | m in l :: Pending(a2, m) {
      forall m | m in l ensures Pending(a2, m) { assert Pending(a, m); }
      forall i | 0 <= i < |l| ensures NodeOK(c2, l, i) { assert NodeOK(c, l, i) && Pending(a2, l[i]); }
    }
    forall m | Pending(a2, m) ensures OnSome(live, m) { assert Pending(a, m); }
  }

  function NonEmpty(l: seq<int>): set<seq<int>> {
    if l == [] then {} else {l}
  }

  lemma HeldNone(c: seq<Instr>, a: seq<Instr>, live: set<seq<int>>, list: seq<int>)
    requires Live(c, a, live) && NonEmpty(list) <= live
    ensures Head(list) == NO_JUMP <==> list == []
  {
    if list != [] { HeadNone(c, list); }
  }

  lemma ForwardLive(c: seq<Instr>, a: seq<Instr>, live: set<seq<int>>, list: seq<int>, vtarget: int, dtarget: int)
    requires Live(c, a, live) && NonEmpty(list) <= live
    requires !Pending(a, vtarget) && !Pending(a, dtarget)
    ensures Forward(a, list, vtarget, dtarget)
  {
    forall n | n in list ensures Pending(a, n) { assert list in live; }
  }

  lemma NotYetLive(c: seq<Instr>, a: seq<Instr>, live: set<seq<int>>, n: int)
    requires Live(c, a, live) && n >= |a|
    ensures [n] !in live
  {
    assert [n] in live ==> n in [n] && Pending(a, n);
  }

  lemma StripNode(c0: seq<Instr>, al: seq<int>, i: int, code: seq<Instr>)
    requires Threaded(c0, al) && 0 <= i < |al|
    requires |code| == |c0| && forall j | 0 <= j < |c0| :: code[j] == StripInstr(c0, al[..i], j)
    ensures var n := al[i];
            && 0 <= n < |code| && code[n] == c0[n] && code[n].IJmp? && Carries(code, n) == Carries(c0, n)
            && GetJump(code, n) == GetJump(c0, n)
  {
    assert NodeOK(c0, al, i);
    assert al[i] !in al[..i];
    if al[i] > 0 { assert code[al[i] - 1] == StripInstr(c0, al[..i], al[i] - 1); }
  }

  lemma StripStep(c0: seq<Instr>, al: seq<int>, i: int)
    requires 0 <= i < |al|
    ensures forall j | 0 <= j < |c0| ::
              StripInstr(c0, al[..i + 1], j)
              == if j + 1 == al[i] && c0[j].ITestSet? then ITest(c0[j].b, c0[j].cond) else StripInstr(c0, al[..i], j)
  {
    assert al[..i + 1] == al[..i] + [al[i]];
  }

  lemma StripLive(c0: seq<Instr>, c2: seq<Instr>, a: seq<Instr>, live: set<seq<int>>, al: seq<int>)
    requires SameCode(c0, a) && Live(c0, a, live)
    requires |c2| == |c0| && forall j | 0 <= j < |c0| :: c2[j] == StripInstr(c0, al, j)
    ensures forall a2: seq<Instr> | |a2| == |a| && (forall j | 0 <= j < |a| :: a2[j] == StripInstr(a, al, j)) ::
              SameCode(c2, a2) && Live(c2, a2, live)
  {
    forall a2: seq<Instr> | |a2| == |a| && (forall j | 0 <= j < |a| :: a2[j] == StripInstr(a, al, j))
      ensures SameCode(c2, a2) && Live(c2, a2, live)
    {
      forall j | 0 <= j < |c2| ensures SameAt(c2, a2, j) { assert SameAt(c0, a, j); }
      forall l | l in live ensures Threaded(c2, l) && forall n | n in l :: Pending(a2, n) {
        forall n | n in l ensures Pending(a2, n) && c2[n] == c0[n] { assert Pending(a, n) && SameAt(c0, a, n); }
        ThreadedFrame(c0, c2, l);
      }
      forall n | Pending(a2, n) ensures OnSome(live, n) { assert a2[n] == StripInstr(a, al, n); assert Pending(a, n); }
    }
  }

  /** Patching a whole list leaves the threaded and the abstract code alike, and the other lists alive. */
  lemma PatchOK(c: seq<Instr>, a: seq<Instr>, live: set<seq<int>>, list: seq<int>, vtarget: int, reg: int, dtarget: int)
    requires SameCode(c, a) && Live(c, a, live) && (list == [] || list in live)
    requires Forward(a, list, vtarget, dtarget) && (forall n | n in list :: Pending(a, n))
    ensures var c2, a2 := Patch(c, list, vtarget, reg, dtarget), Patch(a, list, vtarget, reg, dtarget);
            SameCode(c2, a2) && Live(c2, a2, live - NonEmpty(list))
    ensures PatchInRange(c, list, vtarget, dtarget) == PatchInRange(a, list, vtarget, dtarget)
  {
    PatchSame(c, a, list, vtarget, reg, dtarget);
    PatchLive(c, a, live, list, vtarget, reg, dtarget);
    hide SameCode, Live, Patch, PatchInRange;
    if list == [] { assert live - {list} == live - NonEmpty(list) || list in live; }
  }

  /** Joining two live lists leaves every other one alone. */
  lemma JoinLive(c1: seq<Instr>, c2: seq<Instr>, a: seq<Instr>, live: set<seq<int>>, l1: seq<int>, l2: seq<int>)
    requires SameCode(c1, a) && Live(c1, a, live) && l1 in live && l2 in live && l1 != l2
    requires var last := l1[|l1| - 1]; 0 <= last < |c1| && c2 == c1[last := IJmp(l2[0] - (last + 1))]
    ensures SameCode(c2, a) && Live(c2, a, live - {l1} - {l2} + {l1 + l2})
    ensures l1 + l2 !in live - {l1} - {l2}
  {
    var last := l1[|l1| - 1];
    var live' := live - {l1} - {l2} + {l1 + l2};
    assert Disjoint(l1, l2);
    ThreadedJoin(c1, c2, l1, l2);
    assert last in l1 && Pending(a, last);
    forall i | 0 <= i < |c2| ensures SameAt(c2, a, i) {
      assert SameAt(c1, a, i);
    }
    forall l | l in live - {l1} - {l2} ensures Threaded(c2, l) && l != l1 + l2 {
      assert Disjoint(l1, l);
      assert l1[0] in l1 && l1[0] in l1 + l2;
      ThreadedFrame(c1, c2, l);
    }
    forall n | Pending(a, n) ensures OnSome(live', n) {
      assert OnSome(live, n);
      var l :| l in live && n in l;
      if l == l1 || l == l2 { assert l1 + l2 in live' && n in l1 + l2; } else { assert l in live'; }
    }
    forall l, m | l in live' && m in live' && l != m ensures Disjoint(l, m) {
      if l == l1 + l2 {
        assert Disjoint(l1, m) && Disjoint(l2, m);
      } else if m == l1 + l2 {
        assert Disjoint(l, l1) && Disjoint(l, l2);
      }
    }
  }
}
