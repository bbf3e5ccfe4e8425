/** Expression descriptors whose jump lists are given by their first jump, and what they hold. */
module LuaDesc {
  import opened LuaValues
  import opened LuaOpcodes
  import opened LuaGen
  import opened LuaLists

  /** expdesc: the lists are the positions of their first jumps. */
  datatype ExpDesc = ExpDesc(k: Kind, t: int, f: int)

  function InitExp(k: Kind): ExpDesc { ExpDesc(k, NO_JUMP, NO_JUMP) }

  /** The lists that a state and a descriptor hold. */
  function Mine(jpc: seq<int>, e: Exp): set<seq<int>> {
    NonEmpty(jpc) + NonEmpty(e.t) + NonEmpty(e.f) + (if e.k.VJmp? then {[e.k.info]} else {})
  }

  /** No list is held twice. */
  predicate Apart(jpc: seq<int>, e: Exp) {
    && (jpc != [] ==> jpc != e.t && jpc != e.f && (e.k.VJmp? ==> jpc != [e.k.info]))
    && (e.t != [] ==> e.t != e.f && (e.k.VJmp? ==> e.t != [e.k.info]))
    && (e.f != [] && e.k.VJmp? ==> e.f != [e.k.info])
  }

  /** What a descriptor says about the code: a relocatable instruction is the last one, and a
      comparison precedes the jump of a VJmp. */
  predicate Rooted(code: seq<Instr>, k: Kind) {
    && (k.VReloc? ==> k.info == |code| - 1 >= 0 && !code[k.info].IJmp?)
    && (k.VJmp? ==> 1 <= k.info < |code| && code[k.info - 1].ICmp?)
  }

  /** A descriptor without lists. */
  predicate Simple(e: ExpDesc, ae: Exp) {
    e == InitExp(ae.k) && ae == Init(ae.k)
  }

  /** The left operand of and/or once its code is complete: only its lists matter. */
  function Spent(e: ExpDesc): ExpDesc { e.(k := VNil) }

  function SpentExp(e: Exp): Exp { e.(k := VNil) }

  /** Ready to be an operand of an instruction. */
  predicate Settled(k: Kind) {
    k.VNonReloc? || (k.VK? && k.info <= MAXINDEXRK)
  }

  /** isnumeral. */
  predicate Numeral(e: ExpDesc) { e.k.VKNum? && e.t == NO_JUMP && e.f == NO_JUMP }

  /** What luaK_infix leaves for an arithmetic operator or a comparison. */
  predicate Operand(e: ExpDesc) {
    e == InitExp(e.k) && (Settled(e.k) || e.k.VKNum?)
  }

  /** A left operand after luaK_infix. */
  predicate LeftReady(op: BinOp, e: ExpDesc, ae: Exp) {
    match op
    case AndOp => ae.t == []
    case OrOp => ae.f == []
    case ConcatOp => ae == Init(e.k) && Operand(e) && e.k.VNonReloc?
    case ArithOp(_) => ae == Init(e.k) && Operand(e)
    case _ => ae == Init(e.k) && Operand(e) && Settled(e.k)
  }

  function Left(op: BinOp, e: ExpDesc): ExpDesc { if op == AndOp || op == OrOp then Spent(e) else e }

  function LeftExp(op: BinOp, e: Exp): Exp { if op == AndOp || op == OrOp then SpentExp(e) else e }

  lemma SettledRK(a: FS, k: Kind)
    requires Settled(k)
    ensures LuaGen.Exp2RK(a, Init(k)) == FEI(a, Init(k), if k.VK? then k.info + BITRK else k.info)
  {}

  lemma NumeralAgrees(c: seq<Instr>, a: seq<Instr>, live: set<seq<int>>, e: ExpDesc, ae: Exp)
    requires Live(c, a, live) && NonEmpty(ae.t) <= live && NonEmpty(ae.f) <= live
    requires e.k == ae.k && e.t == Head(ae.t) && e.f == Head(ae.f)
    ensures Numeral(e) == IsNumeral(ae) && (Numeral(e) ==> e == InitExp(e.k) && ae == Init(e.k))
  {
    HeldNone(c, a, live, ae.t);
    HeldNone(c, a, live, ae.f);
  }

  /** The lists of `from`, and no others, have been turned into those of `into`. */
  ghost predicate Moved(live0: set<seq<int>>, from: set<seq<int>>, live1: set<seq<int>>, into: set<seq<int>>) {
    from <= live0 && live1 == live0 - from + into && into !! (live0 - from)
  }

  /** Turning some of the lists that are held leaves the rest where they are. */
  lemma MovedPart(live0: set<seq<int>>, from: set<seq<int>>, live1: set<seq<int>>, into: set<seq<int>>,
                  rest: set<seq<int>>)
    requires Moved(live0, from, live1, into) && rest <= live0 && rest !! from
    ensures Moved(live0, from + rest, live1, into + rest) && rest <= live1 && rest !! into
  {}

  lemma MovedTwice(live0: set<seq<int>>, s0: set<seq<int>>, live1: set<seq<int>>, s1: set<seq<int>>,
                   live2: set<seq<int>>, s2: set<seq<int>>)
    requires Moved(live0, s0, live1, s1) && Moved(live1, s1, live2, s2)
    ensures Moved(live0, s0, live2, s2)
  {}

  /** The lists of a descriptor, apart from those of the state, and put back beside others. */
  lemma SetAside(jpc: seq<int>, e: Exp)
    requires Apart(jpc, e)
    ensures Mine(jpc, e) == NonEmpty(jpc) + Mine([], e) && NonEmpty(jpc) !! Mine([], e) && Apart([], e)
  {}

  lemma TakeBack(jpc: seq<int>, e: Exp)
    requires Apart([], e) && NonEmpty(jpc) !! Mine([], e)
    ensures Mine(jpc, e) == NonEmpty(jpc) + Mine([], e) && Apart(jpc, e)
  {}

  /** A list joined to the exits of a descriptor. */
  function WithExits(e: Exp, sense: bool, l: seq<int>): Exp {
    if sense then e.(f := l) else e.(t := l)
  }

  lemma JoinHeld(live0: set<seq<int>>, live1: set<seq<int>>, jpc: seq<int>, e: Exp, sense: bool, al: seq<int>)
    requires Mine(jpc, e) <= live0 && Apart(jpc, e) && NonEmpty(al) <= live0 && NonEmpty(al) !! Mine(jpc, e)
    requires var x := ExitOf(e, sense);
             && live1 == live0 - NonEmpty(x) - NonEmpty(al) + NonEmpty(x + al)
             && NonEmpty(x + al) !! (live0 - NonEmpty(x) - NonEmpty(al))
    ensures var e' := WithExits(e, sense, ExitOf(e, sense) + al);
            Mine(jpc, e') <= live1 && Apart(jpc, e') && Moved(live0, Mine(jpc, e) + NonEmpty(al), live1, Mine(jpc, e'))
  {}

  /** The table of addk: where each constant is. */
  ghost predicate Indexes(h: map<Value, int>, k: seq<Value>) {
    && (forall v | v in h :: h[v] == IndexOf(k, v) < |k|)
    && (forall i | 0 <= i < |k| :: k[i] in h)
  }

  lemma AddKIs(a: FS, h: map<Value, int>, v: Value)
    requires Indexes(h, a.k)
    ensures v in h ==> LuaGen.AddK(a, v) == FI(a, h[v])
    ensures v !in h ==>
              && LuaGen.AddK(a, v) == FI(a.(k := a.k + [v], ok := a.ok && |a.k| < MAXARG_Bx), |a.k|)
              && Indexes(h[v := |a.k|], a.k + [v])
  {
    if v !in h {
      var h', k' := h[v := |a.k|], a.k + [v];
      forall w | w in h' ensures h'[w] == IndexOf(k', w) < |k'| {
        assert k'[..|a.k|] == a.k;
      }
    }
  }

  lemma DischargedReg(a: FS, e: Exp)
    requires !e.k.VJmp?
    ensures LuaGen.Discharge2AnyReg(a, e).e.k.VNonReloc?
  {}
}
