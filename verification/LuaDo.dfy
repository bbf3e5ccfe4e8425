/** Calls, protected calls and errors (ldo.c). A longjmp is an outcome that every method passes on
    until it reaches the luaD_rawrunprotected that installed its target. */
module LuaDo {
  import opened Wrappers
  import opened LuaEval

  datatype CallInfo = CallInfo(func: int, base: int, top: int, nresults: int)

  datatype Outcome =
    | Done
    | Jump(target: nat, status: int, value: Value)
    | Exit

  // ---------- stretches of the stack ----------

  lemma ExactlyParts(args: seq<Value>, n: nat, numparams: nat)
    requires n == if |args| < numparams then numparams else |args|
    ensures Exactly(args, n)[..numparams] == Exactly(args, numparams)
    ensures Exactly(args, n)[numparams..] == Extra(args, numparams)
  {}

  /** Nil registers after the parameters are as good as nil arguments. */
  lemma FrameContents(params: seq<Value>, args: seq<Value>, n: nat, size: nat)
    requires |params| <= n <= size && Exactly(params, n) == Exactly(args, n)
    ensures Exactly(params, size) == Exactly(Exactly(args, n), size)
  {
    forall j | 0 <= j < size ensures NilIfNone(params, j) == NilIfNone(Exactly(args, n), j) {
      if j < n { assert Exactly(params, n)[j] == NilIfNone(params, j); }
    }
  }

  lemma KeptBelow(s: seq<Value>, t: seq<Value>, keep: int, less: int)
    requires 0 <= less <= keep <= |s| && keep <= |t| && s[..keep] == t[..keep]
    ensures s[..less] == t[..less]
  {
    assert s[..less] == s[..keep][..less] && t[..less] == t[..keep][..less];
  }

  lemma KeptSlice(s: seq<Value>, t: seq<Value>, keep: int, from: int)
    requires 0 <= from <= keep <= |s| && keep <= |t| && s[..keep] == t[..keep]
    ensures s[from..keep] == t[from..keep]
  {
    assert s[from..keep] == s[..keep][from..] && t[from..keep] == t[..keep][from..];
  }

  /** The n slots from base on hold what s holds from first to last, and nil where that ends. */
  predicate Parameters(t: seq<Value>, base: int, n: nat, s: seq<Value>, first: int, last: int) {
    && 0 <= base && base + n <= |t| && 0 <= first <= last <= |s|
    && forall j | base <= j < base + n :: t[j] == if first + j - base < last then s[first + j - base] else Nil
  }

  predicate NilSlots(t: seq<Value>, from: int, to: int) {
    0 <= from <= to <= |t| && forall j | from <= j < to :: t[j] == Nil
  }

  predicate SameSlots(t: seq<Value>, s: seq<Value>, from: int, to: int) {
    forall j | from <= j < to :: 0 <= j < |t| && j < |s| && t[j] == s[j]
  }

  /** The frame of a Lua function at func stands from base to top. */
  predicate FrameStands(t: seq<Value>, base: int, top: int, func: int, f: Fn, args: seq<Value>) {
    && f.LuaFn? && 0 <= func < base <= top <= |t| && top == base + f.numparams + f.extra
    && base == func + 1 + (if !f.vararg then 0 else if |args| < f.numparams then f.numparams else |args|)
    && t[base..top] == FrameOf(f, args)
    && (f.vararg ==> t[func + 1 + f.numparams..base] == Extra(args, f.numparams))
  }

  lemma FrameMade(u: seq<Value>, t: seq<Value>, base: int, top: int, func: int, f: Fn, args: seq<Value>, full: int)
    requires f.LuaFn? && 0 <= func < base <= top <= |t| && base <= full <= |u| && top == base + f.numparams + f.extra
    requires base == func + 1 + (if !f.vararg then 0 else if |args| < f.numparams then f.numparams else |args|)
    requires t[base..top] == Exactly(u[base..full], f.numparams + f.extra) == FrameOf(f, args)
    requires t[..base] == u[..base] && (f.vararg ==> u[func + 1 + f.numparams..base] == Extra(args, f.numparams))
    ensures FrameStands(t, base, top, func, f, args)
  {
    if f.vararg { KeptSlice(u, t, base, func + 1 + f.numparams); }
    hide FrameOf, Exactly, Extra;
  }

  lemma FrameInStack(t: seq<Value>, base: int, top: int, func: int, f: Fn, s: seq<Value>, last: int)
    requires 0 <= func + 1 <= last <= |s| && FrameStands(t, base, top, func, f, s[func + 1..last])
    ensures Parameters(t, base, f.numparams, s, func + 1, last) && NilSlots(t, base + f.numparams, top)
    ensures f.vararg ==> SameSlots(t, s, func + 1 + f.numparams, last)
  {
    var frame, args, first := t[base..top], s[func + 1..last], func + 1 + f.numparams;
    FrameSlots(f, args);
    forall j | base <= j < top ensures t[j] == frame[j - base] {}
    if f.vararg {
      var extra := t[first..base];
      forall j | first <= j < last ensures j < |t| && t[j] == s[j] { assert extra[j - first] == t[j]; }
    }
    hide FrameOf;
  }

  /** All results, or exactly as many as are wanted, with nil for those that are missing. */
  predicate Cut(t: seq<Value>, results: seq<Value>, wanted: int) {
    && (wanted == LUA_MULTRET ==> t == results)
    && (wanted >= 0 ==>
          |t| == wanted && forall i | 0 <= i < wanted :: t[i] == if i < |results| then results[i] else Nil)
  }

  lemma PopSlice(stack: seq<Value>, base: int, top: int)
    requires 0 <= base <= top < |stack|
    ensures stack[base..top] == stack[base..top + 1][..top - base]
  {}

  lemma ReturnedSlice(stack: seq<Value>, base: int, top: int, nret: nat)
    requires 0 <= base <= top <= |stack|
    ensures stack[top - (if nret <= top - base then nret else top - base)..top] == Returned(stack[base..top], nret)
  {}

  // ---------- runs ----------

  datatype Snap = Snap(
    stack: seq<Value>, top: int, ci: seq<CallInfo>, nCcalls: int, allowhook: bool, errfunc: int, errorJmp: seq<nat>)

  /** What any run keeps: the slots below `keep`, the handlers; if it is not left by an error, also
      the frames, the C depth and allowhook. An error goes to the innermost handler. */
  predicate Ran(s: Snap, t: Snap, o: Outcome, keep: int) {
    && |s.stack| <= |t.stack| && 0 <= keep <= |s.stack| && s.stack[..keep] == t.stack[..keep]
    && t.errfunc == s.errfunc && t.errorJmp == s.errorJmp
    && (o.Done? ==> t.ci == s.ci && t.nCcalls == s.nCcalls && t.allowhook == s.allowhook)
    && (o.Exit? ==> s.errorJmp == [])
    && (o.Jump? ==> Thrown(s, t, o))
  }

  /** The errors whose object is the value on the top of the stack. */
  predicate PassesValue(status: int) { status == LUA_ERRRUN || status == LUA_ERRSYNTAX }

  predicate Thrown(s: Snap, t: Snap, o: Outcome)
    requires o.Jump?
  {
    && s.ci <= t.ci && s.nCcalls <= t.nCcalls <= MaxCcalls()
    && s.errorJmp != [] && o.target == s.errorJmp[|s.errorJmp| - 1]
    && LUA_ERRRUN <= o.status <= LUA_ERRERR
    && (PassesValue(o.status) ==> 0 < t.top <= |t.stack| && t.stack[t.top - 1] == o.value)
  }

  /** t is s with the frame of a call at func on top. */
  predicate Framed(s: Snap, t: Snap, func: int) {
    && |s.stack| <= |t.stack| && 0 <= func <= |s.stack| && s.stack[..func] == t.stack[..func]
    && t.errfunc == s.errfunc && t.errorJmp == s.errorJmp && t.nCcalls == s.nCcalls && t.allowhook == s.allowhook
    && |t.ci| == |s.ci| + 1 && t.ci[..|s.ci|] == s.ci && t.ci[|s.ci|].func == func
  }

  /** The run of a called function, seen by its caller. */
  lemma FramedRan(s: Snap, t: Snap, u: Snap, o: Outcome, func: int)
    requires Framed(s, t, func) && Ran(t.(ci := s.ci), u, o, func)
    ensures Ran(s, u, o, func)
  {}

  /** A function has run and its frame is gone. */
  lemma FramePopped(s: Snap, t: Snap, u: Snap, func: int, rest: seq<CallInfo>)
    requires Ran(s, t, Done, func) && |u.stack| == |t.stack| && u.stack[..func] == t.stack[..func]
    requires u == t.(stack := u.stack, top := u.top, ci := rest)
    ensures Ran(s.(ci := rest), u, Done, func)
  {}

  lemma FrameLeft(s: Snap, t: Snap, o: Outcome, func: int, rest: seq<CallInfo>)
    requires Ran(s, t, o, func) && !o.Done? && rest <= s.ci
    ensures Ran(s.(ci := rest), t, o, func)
  {}

  /** A counted run, whose count is taken back unless an error leaves it. */
  lemma RanCounted(s: Snap, t: Snap, o: Outcome, keep: int)
    requires Ran(s.(nCcalls := s.nCcalls + 1), t, o, keep)
    ensures Ran(s, if o.Done? then t.(nCcalls := s.nCcalls) else t, o, keep)
    ensures o.Done? ==> t.nCcalls == s.nCcalls + 1
  {}

  lemma RanSelf(s: Snap, keep: int)
    requires 0 <= keep <= |s.stack|
    ensures Ran(s, s, Done, keep)
  {}

  lemma RanTwice(s: Snap, t: Snap, u: Snap, o: Outcome, keep: int)
    requires Ran(s, t, Done, keep) && Ran(t, u, o, keep)
    ensures Ran(s, u, o, keep)
  {}

  /** The run of a hook, seen by the function that it interrupts. */
  lemma HookRan(s: Snap, t: Snap, u: Snap, o: Outcome, keep: int)
    requires t == s.(stack := t.stack, allowhook := false) && s.allowhook
    requires 0 <= keep <= |s.stack| <= |t.stack| && s.stack[..keep] == t.stack[..keep] && Ran(t, u, o, keep)
    ensures |t.stack| <= |u.stack| && (o.Done? ==> u.ci == s.ci)
    ensures Ran(s, if o.Done? then u.(allowhook := true, top := s.top) else u, o, keep)
  {}

  lemma RanDone(s: Snap, t: Snap, keep: int)
    requires Ran(s, t, Done, keep)
    ensures t.ci == s.ci && t.nCcalls == s.nCcalls && |s.stack| <= |t.stack|
  {}

  lemma RanLess(s: Snap, t: Snap, o: Outcome, keep: int, less: int)
    requires Ran(s, t, o, keep) && 0 <= less <= keep
    ensures Ran(s, t, o, less)
  {
    assert s.stack[..less] == s.stack[..keep][..less] && t.stack[..less] == t.stack[..keep][..less];
  }

  function ErrorObj(errcode: int, message: Value, otherwise: Value): Value {
    if errcode == LUA_ERRMEM then Str("not enough memory")
    else if errcode == LUA_ERRERR then Str("error in error handling")
    else if errcode == LUA_ERRSYNTAX || errcode == LUA_ERRRUN then message
    else otherwise
  }

  // ---------- what a run comes to ----------

  function Slots(stack: seq<Value>, slot: int, top: int): seq<Value> {
    if 0 <= slot <= top <= |stack| then stack[slot..top] else []
  }

  lemma SlotsCut(stack: seq<Value>, slot: int, less: int, top: int)
    requires 0 <= slot <= less <= top <= |stack|
    ensures Slots(stack, slot, less) == Slots(stack, slot, top)[..less - slot]
  {}

  /** What the run that starts here depends on. */
  function EnvOf(s: Snap): Env
    requires 0 <= s.errfunc < |s.stack|
  {
    Env(|s.ci|, s.nCcalls, s.allowhook, if s.errfunc == 0 then None else Some(s.stack[s.errfunc]))
  }

  /** A run has come to the answer: to these values, or to an error that passes this one. */
  predicate Agrees(a: Answer, o: Outcome, size: int, values: seq<Value>) {
    match a
    case Gives(vs, n) => o.Done? && values == vs && size == n
    case Raises(status, v, n) =>
      && !o.Done? && size == n
      && (o.Jump? ==> o.status == status && (PassesValue(status) ==> o.value == v))
    case Rude => true
  }

  /** A protected run has come to the answer: an error is a status, and its value is on the top. */
  predicate Comes(a: Answer, status: int, size: int, values: seq<Value>, obj: Value) {
    match a
    case Gives(vs, n) => status == 0 && values == vs && size == n
    case Raises(st, v, n) => status == st && size == n && (PassesValue(st) ==> obj == v)
    case Rude => true
  }

  lemma RanEnv(s: Snap, t: Snap, keep: int)
    requires Ran(s, t, Done, keep) && 0 <= s.errfunc < keep
    ensures EnvOf(t) == EnvOf(s)
  {
    assert s.stack[..keep][s.errfunc] == t.stack[..keep][s.errfunc];
  }

  lemma FramedEnv(s: Snap, t: Snap, func: int)
    requires Framed(s, t, func) && 0 <= s.errfunc < func
    ensures EnvOf(t) == EnvOf(s).(depth := |s.ci| + 1)
  {
    assert s.stack[..func][s.errfunc] == t.stack[..func][s.errfunc];
  }

  lemma AgreesResults(
    a: Answer, o: Outcome, size: int, frame: seq<Value>, nret: nat, nresults: int, results: seq<Value>)
    requires Agrees(a, o, size, frame) && (o.Done? ==> results == Handed(frame, nret, nresults))
    ensures Agrees(Results(a, nret, nresults), o, size, results)
  {}

  /** What a call comes to, in the frame of its caller. */
  lemma AgreesAbove(a: Answer, o: Outcome, size: int, s: Snap, t: Snap, base: int, func: int, frame: seq<Value>)
    requires Ran(s, t, o, func) && 0 <= base <= func <= |s.stack| && Agrees(a, o, size, Slots(t.stack, func, t.top))
    requires o.Done? ==> func <= t.top <= |t.stack| && frame == Slots(t.stack, base, t.top)
    ensures Agrees(Above(s.stack[base..func], a), o, size, frame)
  {
    assert s.stack[base..func] == s.stack[..func][base..];
    if o.Done? { assert t.stack[base..func] == t.stack[..func][base..]; }
  }

  /** What luaD_pcall leaves is what has been caught. */
  lemma CaughtComes(a: Answer, status: int, size: int, values: seq<Value>, obj: Value, other: Value,
                    depth: int, size': int, values': seq<Value>)
    requires Comes(a, status, size, values, obj) && (a.Raises? ==> LUA_ERRRUN <= a.status <= LUA_ERRERR)
    requires status == 0 ==> size' == size && values' == values
    requires status != 0 ==> size' == Restored(size, depth) && values' == [ErrorObj(status, obj, other)]
    ensures Agrees(Caught(a, depth), Done, size', values')
    ensures (a.Gives? ==> status == 0) && (a.Raises? ==> status == a.status)
  {}

  /** More room, or another flag, and the same handler. */
  lemma KeptEnv(s: Snap, t: Snap, keep: int)
    requires t == s.(stack := t.stack, allowhook := t.allowhook) && 0 <= s.errfunc < keep <= |s.stack| <= |t.stack|
    requires s.stack[..keep] == t.stack[..keep]
    ensures EnvOf(t) == EnvOf(s).(hooks := t.allowhook)
  {
    assert s.stack[..keep][s.errfunc] == t.stack[..keep][s.errfunc];
  }

  /** A frame, taken apart at a function. */
  lemma Pieces(s: seq<Value>, t: seq<Value>, base: int, func: int, top: int)
    requires s <= t && 0 <= base <= func < top <= |s|
    ensures var f := s[base..top]; var k := func - base;
            && t[base..top] == f && t[func] == f[k] && t[func + 1..top] == f[k + 1..] && t[base..func] == f[..k]
  {}

  // ---------- the state ----------

  /** A frame lies above the one that called it, and the stack has room for the results it owes. */
  predicate FrameOK(ci: seq<CallInfo>, size: int, i: int)
    requires 0 <= i < |ci|
  {
    && 0 <= ci[i].func < ci[i].base <= size && ci[i].nresults >= LUA_MULTRET
    && (i > 0 ==> ci[i - 1].base <= ci[i].func && ci[i].func + ci[i].nresults <= size - EXTRA_STACK - 1)
  }

  predicate FramesOK(ci: seq<CallInfo>, size: int) {
    forall i | 0 <= i < |ci| :: FrameOK(ci, size, i)
  }

  lemma FramesPrefix(ci: seq<CallInfo>, size: int, less: seq<CallInfo>, more: int)
    requires FramesOK(ci, size) && less <= ci && size <= more
    ensures FramesOK(less, more)
  {
    forall i | 0 <= i < |less| ensures FrameOK(less, more, i) { assert FrameOK(ci, size, i); }
  }

  lemma FramesPush(ci: seq<CallInfo>, size: int, frame: CallInfo)
    requires FramesOK(ci, size) && |ci| > 0 && LUA_MULTRET <= frame.nresults
    requires 0 <= ci[|ci| - 1].base <= frame.func < frame.base <= size
             && frame.func + frame.nresults <= size - EXTRA_STACK - 1
    ensures FramesOK(ci + [frame], size)
  {
    forall i | 0 <= i <= |ci| ensures FrameOK(ci + [frame], size, i) {
      if i < |ci| { assert FrameOK(ci, size, i); }
    }
  }

  class LuaState {
    var stack: seq<Value>
    var top: int
    var base: int
    var ci: seq<CallInfo>
    var sizeCi: int
    var nCcalls: int
    var allowhook: bool
    var errfunc: int
    var errorJmp: seq<nat>
    var handlers: nat

    function StackLast(): int
      reads this
    {
      |stack| - EXTRA_STACK - 1
    }

    ghost function Now(): Snap
      reads this
    {
      Snap(stack, top, ci, nCcalls, allowhook, errfunc, errorJmp)
    }

    /** The depth limits hold, and every frame lies above the one that called it. */
    ghost predicate Valid()
      reads this
    {
      && 1 <= |ci| <= sizeCi <= 2 * LUAI_MAXCALLS
      && FramesOK(ci, |stack|)
      && 0 <= ci[|ci| - 1].func < base == ci[|ci| - 1].base <= top <= StackLast()
      && 0 <= nCcalls <= MaxCcalls()
      && 0 <= errfunc < |stack|
    }

    /** There is a free frame, or the array of frames may grow. */
    predicate FrameFree()
      reads this
    {
      |ci| < sizeCi || 2 * sizeCi <= LUAI_MAXCALLS
    }

    ghost function Here(): Env
      reads this
      requires 0 <= errfunc < |stack|
    {
      EnvOf(Now())
    }

    /** The values from a slot to the top. */
    function From(slot: int): seq<Value>
      reads this
    {
      Slots(stack, slot, top)
    }

    function Frame(): seq<Value>
      reads this
    {
      From(base)
    }

    constructor ()
      ensures Valid() && |ci| == 1 && nCcalls == 0 && allowhook && errfunc == 0 && errorJmp == [] && top == base == 1
    {
      stack := seq(BASIC_STACK_SIZE + EXTRA_STACK, _ => Nil);
      top, base := 1, 1;
      ci := [CallInfo(0, 1, 1 + LUA_MINSTACK, 0)];
      sizeCi, nCcalls, allowhook, errfunc, errorJmp, handlers := BASIC_CI_SIZE, 0, true, 0, [], 0;
    }

    // ---------- the stack ----------

    /** luaD_checkstack; addresses into the stack are offsets, and survive its growth. */
    method CheckStack(n: nat)
      requires Valid()
      modifies `stack
      ensures Valid() && StackLast() - top > n && old(stack) <= stack
    {
      if StackLast() - top <= n {
        var newsize := if n <= |stack| then 2 * |stack| else |stack| + n;
        var junk: Value := *;
        stack := stack + seq(newsize + 1 + EXTRA_STACK - |stack|, _ => junk);
        FramesPrefix(ci, |old(stack)|, ci, |stack|);
      }
    }

    method PushValue(v: Value)
      requires Valid()
      modifies `stack, `top
      ensures Valid() && Ran(old(Now()), Now(), Done, old(top)) && top == old(top) + 1 && stack[top - 1] == v
    {
      CheckStack(1);
      stack := stack[top := v];
      top := top + 1;
    }

    /** luaD_seterrorobj. */
    method SetErrorObj(errcode: int, oldtop: int)
      requires 0 <= oldtop < |stack| && 0 < top <= |stack|
      modifies `stack, `top
      ensures top == oldtop + 1
      ensures stack == old(stack)[oldtop := ErrorObj(errcode, old(stack)[old(top) - 1], old(stack)[oldtop])]
    {
      if errcode == LUA_ERRMEM {
        stack := stack[oldtop := Str("not enough memory")];
      } else if errcode == LUA_ERRERR {
        stack := stack[oldtop := Str("error in error handling")];
      } else if errcode == LUA_ERRSYNTAX || errcode == LUA_ERRRUN {
        stack := stack[oldtop := stack[top - 1]];
      }
      top := oldtop + 1;
    }

    // ---------- parameters and results ----------

    /** The missing arguments are nil. */
    method PadArgs(numparams: nat, actual0: nat) returns (actual: nat)
      requires 0 <= top - actual0 && top + numparams <= |stack|
      modifies `stack, `top
      ensures var first := old(top) - actual0; var args := old(stack)[first..old(top)];
              && actual == (if actual0 < numparams then numparams else actual0) && top == first + actual
              && |stack| == |old(stack)| && stack[..first] == old(stack)[..first]
              && stack[first..top] == Exactly(args, actual)
    {
      actual := actual0;
      ghost var first, args, s0 := top - actual, stack[top - actual..top], stack;
      while actual < numparams
        invariant actual0 <= actual && (actual > actual0 ==> actual <= numparams)
        invariant top == first + actual && |stack| == |s0|
        invariant stack[..first] == s0[..first] && stack[first..top] == Exactly(args, actual)
      {
        stack := stack[top := Nil];
        top := top + 1;
        actual := actual + 1;
        assert stack[first..top] == Exactly(args, actual - 1) + [Nil] == Exactly(args, actual);
      }
    }

    /** The fixed parameters move to the top. */
    method MoveFixed(fixed: int, numparams: nat)
      requires 0 <= fixed && fixed + numparams <= top && top + numparams <= |stack|
      modifies `stack, `top
      ensures top == old(top) + numparams && |stack| == |old(stack)|
      ensures stack[old(top)..top] == old(stack)[fixed..fixed + numparams]
      ensures forall j | fixed <= j < fixed + numparams :: stack[j] == Nil
      ensures forall j | 0 <= j < old(top) && !(fixed <= j < fixed + numparams) :: stack[j] == old(stack)[j]
    {
      ghost var t0, s0 := top, stack;
      var i := 0;
      while i < numparams
        invariant 0 <= i <= numparams && top == t0 + i && |stack| == |s0|
        invariant forall j | t0 <= j < t0 + i :: stack[j] == s0[j - t0 + fixed]
        invariant forall j | fixed <= j < fixed + i :: stack[j] == Nil
        invariant forall j | 0 <= j < t0 && !(fixed <= j < fixed + i) :: stack[j] == s0[j]
      {
        stack := stack[top := stack[fixed + i]];
        top := top + 1;
        stack := stack[fixed + i := Nil];
        i := i + 1;
      }
    }

    /** adjust_varargs: the fixed parameters move above the extra arguments. */
    method AdjustVarargs(numparams: nat, actual0: nat) returns (newbase: int)
      requires 0 <= top - actual0 && top + 2 * numparams <= |stack|
      modifies `stack, `top
      ensures var first := old(top) - actual0; var args := old(stack)[first..old(top)];
              && newbase == first + (if actual0 < numparams then numparams else actual0)
              && top == newbase + numparams && |stack| == |old(stack)|
              && stack[..first] == old(stack)[..first]
              && stack[newbase..top] == Exactly(args, numparams)
              && stack[first + numparams..newbase] == Extra(args, numparams)
              && (forall i | first <= i < first + numparams :: stack[i] == Nil)
    {
      ghost var first, args := top - actual0, stack[top - actual0..top];
      var actual := PadArgs(numparams, actual0);
      ghost var s1 := stack;
      var fixed := top - actual;
      newbase := top;
      MoveFixed(fixed, numparams);
      ExactlyParts(args, actual, numparams);
      assert stack[newbase..top] == s1[first..newbase][..numparams];
      assert stack[first + numparams..newbase] == s1[first..newbase][numparams..];
    }

    /** Results move down to where the function is, no more than wanted; they are copied upwards from a
        place that may overlap their destination. */
    method CopyResults(func: int, first: int, wanted: int) returns (n: nat)
      requires 0 <= func < first <= top <= |stack| && LUA_MULTRET <= wanted
      modifies `stack
      ensures |stack| == |old(stack)| && stack[..func] == old(stack)[..func]
      ensures n == (if 0 <= wanted < top - first then wanted else top - first)
      ensures stack[func..func + n] == old(stack)[first..first + n]
    {
      ghost var s0 := stack;
      var res, firstResult, i := func, first, wanted;
      while i != 0 && firstResult < top
        invariant first <= firstResult <= top && res - func == firstResult - first == wanted - i
        invariant wanted >= 0 ==> i >= 0
        invariant |stack| == |s0| && stack[..func] == s0[..func]
        invariant forall j | func <= j < res :: stack[j] == s0[j - func + first]
        invariant forall j | firstResult <= j < top :: stack[j] == s0[j]
        decreases top - firstResult
      {
        stack := stack[res := stack[firstResult]];
        res, firstResult := res + 1, firstResult + 1;
        i := i - 1;
      }
      n := res - func;
    }

    /** The results that are missing are nil. */
    method PadResults(func: int, n: nat, wanted: int) returns (res: int)
      requires 0 <= func && func + n <= |stack| && func + wanted <= |stack|
      modifies `stack
      ensures |stack| == |old(stack)| && stack[..func] == old(stack)[..func]
      ensures res == func + (if n < wanted then wanted else n)
      ensures stack[func..res] == Exactly(old(stack)[func..func + n], res - func)
    {
      ghost var results := stack[func..func + n];
      res := func + n;
      assert Exactly(results, n) == results;
      var i := wanted - n;
      while i > 0
        invariant func + n <= res <= |stack| == |old(stack)|
        invariant (if n < wanted then res + i == func + wanted && i >= 0 else res == func + n && i <= 0)
        invariant stack[..func] == old(stack)[..func]
        invariant stack[func..res] == Exactly(results, res - func)
      {
        stack := stack[res := Nil];
        res := res + 1;
        i := i - 1;
        assert stack[func..res] == Exactly(results, res - 1 - func) + [Nil] == Exactly(results, res - func);
      }
    }

    method MoveResults(func: int, first: int, wanted: int) returns (res: int)
      requires 0 <= func < first <= top <= |stack| && LUA_MULTRET <= wanted && func + wanted <= |stack|
      modifies `stack
      ensures |stack| == |old(stack)| && stack[..func] == old(stack)[..func]
      ensures var w := Wanted(old(stack)[first..top], wanted); res == func + |w| <= |stack| && stack[func..res] == w
    {
      ghost var results := stack[first..top];
      var n := CopyResults(func, first, wanted);
      assert stack[func..func + n] == results[..n];
      res := PadResults(func, n, wanted);
      assert Wanted(results, wanted) == Exactly(results[..n], res - func);
    }

    /** luaD_poscall: the results replace the function and all that is above it. */
    method PosCall(firstResult: int)
      requires Valid() && |ci| >= 2 && base <= firstResult <= top
      modifies `stack, `top, `base, `ci
      ensures Valid() && ci == old(ci)[..|old(ci)| - 1] && |stack| == |old(stack)|
      ensures var frame := old(ci)[|old(ci)| - 1]; var results := old(stack)[firstResult..old(top)];
              && stack[..frame.func] == old(stack)[..frame.func]
              && top == frame.func + |Wanted(results, frame.nresults)|
              && From(frame.func) == Wanted(results, frame.nresults)
              && Cut(From(frame.func), results, frame.nresults)
    {
      var frame := ci[|ci| - 1];
      assert FrameOK(ci, |stack|, |ci| - 1) && FrameOK(ci, |stack|, |ci| - 2);
      FramesPrefix(ci, |stack|, ci[..|ci| - 1], |stack|);
      ci := ci[..|ci| - 1];
      base := ci[|ci| - 1].base;
      top := MoveResults(frame.func, firstResult, frame.nresults);
    }

    // ---------- errors ----------

    /** luaD_throw: a jump to the innermost handler, or the end of the program. */
    method Throw(status: int) returns (o: Outcome)
      requires Valid() && LUA_ERRRUN <= status <= LUA_ERRERR
      ensures !o.Done? && Ran(Now(), Now(), o, |stack|)
      ensures o.Jump? ==> o.status == status && o.value == stack[top - 1]
    {
      if errorJmp == [] { return Exit; }
      return Jump(errorJmp[|errorJmp| - 1], status, stack[top - 1]);
    }

    /** luaG_errormsg: the message is on the top; the handler, if any, may replace it. */
    method ErrorMsg() returns (o: Outcome)
      requires Valid() && top > base && nCcalls < MaxCcalls()
      modifies this
      ensures Valid() && !o.Done? && Ran(old(Now()), Now(), o, old(top) - 1)
      ensures old(errfunc < top - 1) ==> Agrees(old(EvalError(Here(), sizeCi, stack[top - 1])), o, sizeCi, [])
      decreases 2 * LUAI_MAXCALLS - |ci|, MaxCcalls() - nCcalls, 2
    {
      ghost var s0 := Now();
      RanSelf(s0, s0.top - 1);
      hide Ran, FramesOK, EvalCall;
      if errfunc != 0 {
        var handler := stack[errfunc];
        if !handler.Func? {
          o := Throw(LUA_ERRERR);
          RanLess(s0, Now(), o, |stack|, top - 1);
          return;
        }
        ghost var a := EvalCall(Here(), sizeCi, handler, [stack[top - 1]], 1);
        assert EvalError(Here(), sizeCi, stack[top - 1])
            == if a.Gives? then Raises(LUA_ERRRUN, a.values[0], a.size) else a;
        o := CallHandler(handler);
        if !o.Done? { return; }
        if old(errfunc < top - 1) { assert a.Gives? ==> a.values[0] == stack[top - 1]; }
      }
      ghost var s2 := Now();
      o := Throw(LUA_ERRRUN);
      assert s0.top == s2.top;
      RanLess(s2, Now(), o, |stack|, s0.top - 1);
      RanTwice(s0, s2, Now(), o, s0.top - 1);
    }

    /** The handler is called with the message on the top, which its result replaces. */
    method CallHandler(handler: Value) returns (o: Outcome)
      requires Valid() && top > base && nCcalls < MaxCcalls() && handler == stack[errfunc]
      modifies this
      ensures Valid() && Ran(old(Now()), Now(), o, old(top) - 1)
      ensures o.Done? ==> top == old(top)
      ensures old(errfunc < top - 1) ==>
                Agrees(old(EvalCall(Here(), sizeCi, handler, [stack[top - 1]], 1)), o, sizeCi, From(old(top) - 1))
      decreases 2 * LUAI_MAXCALLS - |ci|, MaxCcalls() - nCcalls, 1, 1
    {
      ghost var s0, message := Now(), stack[top - 1];
      PushValue(stack[top - 1]);
      stack := stack[top - 2 := handler];
      ghost var s1 := Now();
      assert Ran(s0, s1, Done, s0.top - 1);
      assert stack[top - 1..top] == [message];
      if errfunc < s0.top - 1 { RanEnv(s0, s1, s0.top - 1); }
      hide EvalCall, FramesOK;
      o := Call(top - 2, 1);
      RanTwice(s0, s1, Now(), o, s0.top - 1);
    }

    /** luaG_runerror. */
    method RunError(message: string) returns (o: Outcome)
      requires Valid() && nCcalls < MaxCcalls()
      modifies this
      ensures Valid() && !o.Done? && Ran(old(Now()), Now(), o, old(top))
      ensures old(errfunc < top) ==> Agrees(old(EvalError(Here(), sizeCi, Str(message))), o, sizeCi, [])
      decreases 2 * LUAI_MAXCALLS - |ci|, MaxCcalls() - nCcalls, 3
    {
      ghost var s0 := Now();
      PushValue(Str(message));
      ghost var s1 := Now();
      hide EvalError, FramesOK;
      if errfunc < s0.top { RanEnv(s0, s1, s0.top); }
      o := ErrorMsg();
      RanTwice(s0, s1, Now(), o, s0.top);
    }

    // ---------- calls ----------

    /** inc_ci, but for the increment: room for one more frame, or an error. The first overflow doubles the
        array once more, which leaves room for error handlers; the next one is an error in error handling. */
    method IncCI() returns (o: Outcome)
      requires Valid() && nCcalls < MaxCcalls()
      modifies this
      ensures Valid() && Ran(old(Now()), Now(), o, old(top))
      ensures o.Done? ==> |ci| < sizeCi && Now() == old(Now()) && base == old(base)
      ensures o.Done? <==> old(FrameFree())
      ensures old(errfunc < top) ==> Agrees(old(EvalFrame(Here(), sizeCi)), o, sizeCi, [])
      decreases 2 * LUAI_MAXCALLS - |ci|, MaxCcalls() - nCcalls, 4, 0
    {
      hide EvalError;
      if |ci| == sizeCi {
        if sizeCi > LUAI_MAXCALLS {
          o := Throw(LUA_ERRERR);
          RanLess(Now(), Now(), o, |stack|, top);
          return;
        }
        sizeCi := 2 * sizeCi;
        if sizeCi > LUAI_MAXCALLS {
          o := RunError("stack overflow");
          return;
        }
      }
      o := Done;
    }

    /** Nil in every slot from the top to the end of the frame. */
    method NilTo(limit: int)
      requires 0 <= top <= limit <= |stack|
      modifies `stack, `top
      ensures top == limit && |stack| == |old(stack)| && stack[..old(top)] == old(stack)[..old(top)]
      ensures forall j | old(top) <= j < top :: stack[j] == Nil
    {
      ghost var s0 := stack;
      var st := top;
      while st < limit
        invariant top <= st <= limit && |stack| == |s0| && stack[..top] == s0[..top]
        invariant forall j | top <= j < st :: stack[j] == Nil
        modifies `stack
      {
        stack := stack[st := Nil];
        st := st + 1;
      }
      top := limit;
    }

    /** The arguments become parameters: too many are dropped, or go below the frame of a vararg. */
    method SetParams(func: int, numparams: nat, vararg: bool) returns (newbase: int)
      requires 0 <= func < top <= |stack| && (vararg ==> top + 2 * numparams <= |stack|)
      modifies `stack, `top
      ensures var args := old(stack)[func + 1..old(top)]; var n := numparams;
              && newbase == func + 1 + (if !vararg then 0 else if |args| < n then n else |args|)
              && newbase <= top <= newbase + n && top <= |stack| == |old(stack)|
              && stack[..func + 1] == old(stack)[..func + 1]
              && Exactly(stack[newbase..top], n) == Exactly(args, n)
              && (vararg ==> stack[func + 1 + n..newbase] == Extra(args, n))
    {
      ghost var args := stack[func + 1..top];
      newbase := func + 1;
      if !vararg {
        if top > newbase + numparams { top := newbase + numparams; }
        assert stack[newbase..top] == args[..top - newbase];
      } else {
        newbase := AdjustVarargs(numparams, top - func - 1);
        assert Exactly(Exactly(args, numparams), numparams) == Exactly(args, numparams);
      }
    }

    /** luaD_precall for a Lua function, before there is a frame. */
    method PrepareLua(func: int, f: Fn) returns (newbase: int)
      requires Valid() && base <= func < top && f.LuaFn?
      modifies `stack, `top
      ensures Valid() && newbase <= top <= newbase + f.numparams && newbase + f.numparams + f.extra <= StackLast()
      ensures |old(stack)| <= |stack| && stack[..func + 1] == old(stack)[..func + 1]
      ensures var args := old(stack)[func + 1..old(top)]; var n := f.numparams;
              && newbase == func + 1 + (if !f.vararg then 0 else if |args| < n then n else |args|)
              && Exactly(stack[newbase..top], n + f.extra) == FrameOf(f, args)
              && (f.vararg ==> stack[func + 1 + n..newbase] == Extra(args, n))
    {
      ghost var s0, args := stack, stack[func + 1..top];
      CheckStack(f.numparams + f.extra + (if f.vararg then f.numparams else 0));
      assert stack[func + 1..top] == args && stack[..func + 1] == s0[..func + 1];
      newbase := SetParams(func, f.numparams, f.vararg);
      FrameContents(stack[newbase..top], args, f.numparams, f.numparams + f.extra);
      hide Exactly, Extra;
    }

    /** Room for the frame of a call at func that began in s0, or an error that leaves it. */
    method FrameRoom(func: int, ghost s0: Snap) returns (o: Outcome)
      requires Valid() && nCcalls < MaxCcalls() && Ran(s0, Now(), Done, func) && func < top
      modifies this
      ensures Valid() && Ran(s0, Now(), o, func)
      ensures o.Done? ==> |ci| < sizeCi && Now() == old(Now()) && base == old(base)
      ensures o.Done? <==> old(FrameFree())
      ensures 0 <= s0.errfunc < func ==> Agrees(old(EvalFrame(EnvOf(s0), sizeCi)), o, sizeCi, [])
      decreases 2 * LUAI_MAXCALLS - |ci|, MaxCcalls() - nCcalls, 4, 1
    {
      ghost var s1 := Now();
      if 0 <= s0.errfunc < func { RanEnv(s0, s1, func); }
      hide FramesOK, EvalFrame, EnvOf;
      o := IncCI();
      RanLess(s1, Now(), o, s1.top, func);
      RanTwice(s0, s1, Now(), o, func);
    }

    /** The new frame; the registers that are not parameters are nil. */
    method OpenFrame(func: int, newbase: int, size: nat, nresults: int)
      requires Valid() && |ci| < sizeCi && base <= func < newbase <= top <= newbase + size <= StackLast()
      requires LUA_MULTRET <= nresults && func + nresults <= StackLast()
      modifies `ci, `base, `stack, `top
      ensures Valid() && Framed(old(Now()), Now(), func) && ci[|ci| - 1].nresults == nresults
      ensures base == newbase && top == newbase + size && stack[..newbase] == old(stack)[..newbase]
      ensures stack[base..top] == Exactly(old(stack)[newbase..old(top)], size)
    {
      ghost var t0, s0 := top, stack;
      FramesPush(ci, |stack|, CallInfo(func, newbase, newbase + size, nresults));
      ci := ci + [CallInfo(func, newbase, newbase + size, nresults)];
      base := newbase;
      NilTo(newbase + size);
      ghost var kept := s0[..t0];
      assert stack[..newbase] == kept[..newbase] == s0[..newbase];
      assert stack[..func] == kept[..func] == s0[..func];
      assert stack[newbase..t0] == kept[newbase..t0] == s0[newbase..t0];
    }

    /** A Lua function gets its frame, or there is no room for it. */
    method PushLuaFrame(func: int, f: Fn, nresults: int) returns (o: Outcome)
      requires Valid() && base <= func < top && f.LuaFn? && LUA_MULTRET <= nresults && func + nresults <= StackLast()
      requires nCcalls < MaxCcalls()
      modifies this
      ensures Valid() && (!o.Done? ==> Ran(old(Now()), Now(), o, func))
      ensures o.Done? ==> Framed(old(Now()), Now(), func) && ci[|ci| - 1].nresults == nresults
      ensures o.Done? ==> FrameStands(stack, base, top, func, f, old(stack)[func + 1..old(top)])
      ensures o.Done? <==> old(FrameFree())
      ensures old(errfunc) < func ==> Agrees(old(EvalFrame(Here(), sizeCi)), o, sizeCi, [])
      decreases 2 * LUAI_MAXCALLS - |ci|, MaxCcalls() - nCcalls, 5, 0
    {
      ghost var s0, args := Now(), stack[func + 1..top];
      var newbase := PrepareLua(func, f);
      ghost var s1 := Now();
      KeptBelow(s0.stack, stack, func + 1, func);
      hide Extra, Exactly, EvalFrame, FrameOf, FramesOK, EnvOf, FrameStands;
      o := FrameRoom(func, s0);
      if !o.Done? { return; }
      OpenFrame(func, newbase, f.numparams + f.extra, nresults);
      FrameMade(s1.stack, stack, base, top, func, f, args, s1.top);
    }

    /** The frame of a Lua function: its parameters, nil in every other register, and below it the arguments that a
        vararg function got besides. */
    method EnterLua(func: int, f: Fn, nresults: int) returns (o: Outcome)
      requires Valid() && base <= func < top && f.LuaFn? && LUA_MULTRET <= nresults && func + nresults <= StackLast()
      requires nCcalls < MaxCcalls()
      modifies this
      ensures Valid() && (!o.Done? ==> Ran(old(Now()), Now(), o, func))
      ensures o.Done? ==> Framed(old(Now()), Now(), func) && ci[|ci| - 1].nresults == nresults
      ensures o.Done? ==> FrameStands(stack, base, top, func, f, old(stack)[func + 1..old(top)])
      ensures o.Done? ==>
                && Parameters(stack, base, f.numparams, old(stack), func + 1, old(top))
                && NilSlots(stack, base + f.numparams, top)
                && (f.vararg ==> SameSlots(stack, old(stack), func + 1 + f.numparams, old(top)))
      ensures o.Done? <==> old(FrameFree())
      ensures old(errfunc) < func ==> Agrees(old(EvalFrame(Here(), sizeCi)), o, sizeCi, [])
      decreases 2 * LUAI_MAXCALLS - |ci|, MaxCcalls() - nCcalls, 5, 1
    {
      ghost var s0 := Now();
      hide EvalFrame, FramesOK, EnvOf, FrameStands, Parameters, NilSlots, SameSlots, Ran, Framed, Agrees;
      o := PushLuaFrame(func, f, nresults);
      if o.Done? { FrameInStack(stack, base, top, func, f, s0.stack, s0.top); }
    }

    /** The frame of a C function. */
    method EnterC(func: int, nresults: int) returns (o: Outcome)
      requires Valid() && base <= func < top && LUA_MULTRET <= nresults && func + nresults <= StackLast()
      requires nCcalls < MaxCcalls()
      modifies this
      ensures Valid() && (!o.Done? ==> Ran(old(Now()), Now(), o, func))
      ensures o.Done? ==>
                && Framed(old(Now()), Now(), func) && ci[|ci| - 1].nresults == nresults
                && base == func + 1 && top == old(top) && old(stack) <= stack
      ensures o.Done? <==> old(FrameFree())
      ensures old(errfunc) < func ==> Agrees(old(EvalFrame(Here(), sizeCi)), o, sizeCi, [])
      decreases 2 * LUAI_MAXCALLS - |ci|, MaxCcalls() - nCcalls, 5, 0
    {
      ghost var s0 := Now();
      CheckStack(LUA_MINSTACK);
      ghost var s1 := Now();
      assert stack[..func] == s0.stack[..func];
      hide EvalFrame, EnvOf;
      o := FrameRoom(func, s0);
      if !o.Done? { return; }
      FramesPush(ci, |stack|, CallInfo(func, func + 1, top + LUA_MINSTACK, nresults));
      ci := ci + [CallInfo(func, func + 1, top + LUA_MINSTACK, nresults)];
      base := func + 1;
    }

    /** luaD_precall for a function: its frame, with its arguments in place, or an error. */
    method EnterCall(func: int, f: Fn, nresults: int) returns (o: Outcome)
      requires Valid() && base <= func < top && LUA_MULTRET <= nresults && func + nresults <= StackLast()
      requires nCcalls < MaxCcalls()
      modifies this
      ensures Valid() && (!o.Done? ==> Ran(old(Now()), Now(), o, func))
      ensures o.Done? ==> Framed(old(Now()), Now(), func) && ci[|ci| - 1].nresults == nresults
      ensures o.Done? ==> stack[base..top] == FrameOf(f, old(stack)[func + 1..old(top)])
      ensures o.Done? <==> old(FrameFree())
      ensures old(errfunc) < func ==> Agrees(old(EvalFrame(Here(), sizeCi)), o, sizeCi, [])
      decreases 2 * LUAI_MAXCALLS - |ci|, MaxCcalls() - nCcalls, 5, 2
    {
      ghost var s0 := stack;
      hide EvalFrame, Parameters, NilSlots, SameSlots;
      if f.LuaFn? {
        o := EnterLua(func, f, nresults);
      } else {
        o := EnterC(func, nresults);
        assert o.Done? ==> stack[base..top] == s0[func + 1..top];
      }
    }

    /** The function returns the values on its top. */
    method Return(nret: nat, ghost rest: seq<CallInfo>, ghost frame: CallInfo)
      requires Valid() && rest != [] && ci == rest + [frame]
      modifies `stack, `top, `base, `ci
      ensures Valid() && ci == rest && |stack| == |old(stack)| && stack[..frame.func] == old(stack)[..frame.func]
      ensures frame.func <= top && (frame.nresults >= 0 ==> top == frame.func + frame.nresults)
      ensures From(frame.func) == Handed(old(Frame()), nret, frame.nresults)
    {
      assert FrameOK(ci, |stack|, |ci| - 1) && ci[..|rest|] == rest && ci[|rest|] == frame;
      var first := top - (if nret <= top - base then nret else top - base);
      ReturnedSlice(stack, base, top, nret);
      ghost var results := stack[first..top];
      assert Handed(Frame(), nret, frame.nresults) == Wanted(results, frame.nresults);
      hide Handed, Returned, Wanted, FrameOK, FramesOK, From, Cut;
      PosCall(first);
    }

    /** The run of the function on top of the frames. */
    method ExecFrame(body: seq<Act>) returns (o: Outcome)
      requires Valid() && nCcalls < MaxCcalls()
      modifies this
      ensures Valid() && Ran(old(Now()), Now(), o, old(ci)[|old(ci)| - 1].func)
      ensures o.Done? ==> ci == old(ci)
      ensures old(errfunc < base) ==> Agrees(old(EvalBody(Here(), sizeCi, Frame(), 0, body)), o, sizeCi, Frame())
      decreases 2 * LUAI_MAXCALLS - |ci|, MaxCcalls() - nCcalls, 10, SizeOf(body), 2
    {
      ghost var s1, b1, func := Now(), base, ci[|ci| - 1].func;
      assert FrameOK(ci, |stack|, |ci| - 1);
      assert 0 <= func < b1;
      hide Ran, FramesOK, FrameOK, EvalBody, Agrees;
      o := Exec(body);
      RanLess(s1, Now(), o, b1, func);
      if o.Done? { RanDone(s1, Now(), func); }
    }

    /** The return of a function whose run began in s0. */
    method EndFrame(nret: nat, ghost s0: Snap, ghost rest: seq<CallInfo>, ghost frame: CallInfo)
      requires Valid() && rest != [] && ci == rest + [frame] && Ran(s0, Now(), Done, frame.func)
      modifies `stack, `top, `base, `ci
      ensures Valid() && Ran(s0.(ci := rest), Now(), Done, frame.func)
      ensures base == rest[|rest| - 1].base && frame.func <= top
      ensures frame.nresults >= 0 ==> top == frame.func + frame.nresults
      ensures From(frame.func) == Handed(old(Frame()), nret, frame.nresults)
    {
      ghost var s1 := Now();
      hide Ran, FramesOK, FrameOK, Handed, From;
      Return(nret, rest, frame);
      FramePopped(s0, s1, Now(), frame.func, rest);
    }

    /** A run of the function on top of the frames, and its return. */
    method RunFrame(body: seq<Act>, nret: nat, ghost rest: seq<CallInfo>, ghost frame: CallInfo)
      returns (o: Outcome)
      requires Valid() && rest != [] && ci == rest + [frame] && nCcalls < MaxCcalls()
      modifies this
      ensures Valid() && Ran(old(Now()).(ci := rest), Now(), o, frame.func)
      ensures o.Done? ==> base == rest[|rest| - 1].base && frame.func <= top
      ensures o.Done? ==> (frame.nresults >= 0 ==> top == frame.func + frame.nresults)
      ensures old(errfunc < base) ==>
                Agrees(Results(old(EvalBody(Here(), sizeCi, Frame(), 0, body)), nret, frame.nresults),
                       o, sizeCi, From(frame.func))
      decreases 2 * LUAI_MAXCALLS - |ci|, MaxCcalls() - nCcalls, 10, SizeOf(body), 3
    {
      ghost var s0, a := Now(), EvalBody(Here(), sizeCi, Frame(), 0, body);
      hide Valid, Ran, EvalBody, Handed, From, Frame, Here, Agrees, Results, EnvOf, AnswerOK;
      o := ExecFrame(body);
      ghost var s1, f1 := Now(), Frame();
      if o.Done? { EndFrame(nret, s0, rest, frame); } else { FrameLeft(s0, s1, o, frame.func, rest); }
      if old(errfunc < base) { AgreesResults(a, o, sizeCi, f1, nret, frame.nresults, From(frame.func)); }
    }

    /** luaD_precall of a function, and its run. */
    method RunFn(func: int, f: Fn, nresults: int) returns (o: Outcome)
      requires Valid() && base <= func < top && LUA_MULTRET <= nresults && func + nresults <= StackLast()
      requires nCcalls < MaxCcalls()
      modifies this
      ensures Valid() && Ran(old(Now()), Now(), o, func)
      ensures o.Done? ==> base == old(base) && func <= top && (nresults >= 0 ==> top == func + nresults)
      ensures old(errfunc) < func ==>
                Agrees(old(EvalFn(Here(), sizeCi, f, stack[func + 1..top], nresults)), o, sizeCi, From(func))
      decreases 2 * LUAI_MAXCALLS - |ci|, MaxCcalls() - nCcalls, 5, 3
    {
      ghost var s0 := Now();
      hide Ran, FramesOK, EvalFrame, EvalBody, FrameOf, Wanted, Returned;
      o := EnterCall(func, f, nresults);
      if !o.Done? { return; }
      ghost var s1 := Now();
      if errfunc < func { FramedEnv(s0, s1, func); }
      assert ci == s0.ci + [ci[|s0.ci|]];
      o := RunFrame(f.body, f.nret, s0.ci, ci[|s0.ci|]);
      FramedRan(s0, s1, Now(), o, func);
    }

    /** tryfuncTM: a hole is opened at the object, for the function of its __call. */
    method OpenHole(func: int, tm: Value)
      requires Valid() && base <= func < top
      modifies `stack, `top
      ensures Valid() && top == old(top) + 1 && |old(stack)| <= |stack| && stack[..func] == old(stack)[..func]
      ensures stack[func] == tm && stack[func + 1..top] == old(stack)[func..old(top)]
    {
      ShiftUp(func);
      ghost var s1 := stack;
      hide FramesOK;
      CheckStack(1);
      top := top + 1;
      assert stack[func + 1..top] == s1[func + 1..top] && stack[..func] == s1[..func];
      stack := stack[func := tm];
    }

    /** The values from func to the top, one slot higher. */
    method ShiftUp(func: int)
      requires Valid() && base <= func < top
      modifies `stack
      ensures Valid() && |stack| == |old(stack)| && stack[..func] == old(stack)[..func]
      ensures stack[func + 1..top + 1] == old(stack)[func..top]
    {
      ghost var s0 := stack;
      var p := top;
      while p > func
        invariant func <= p <= top && |stack| == |s0|
        invariant stack[..p] == s0[..p] && forall j | p < j <= top :: stack[j] == s0[j - 1]
        modifies `stack
      {
        stack := stack[p := stack[p - 1]];
        p := p - 1;
      }
    }

    /** luaD_precall, and the run of the function; a callable object becomes the first argument of its
        __call function. */
    method RunCall(func: int, nresults: int) returns (o: Outcome)
      requires Valid() && base <= func < top && LUA_MULTRET <= nresults && func + nresults <= StackLast()
      requires nCcalls < MaxCcalls()
      modifies this
      ensures Valid() && Ran(old(Now()), Now(), o, func)
      ensures o.Done? ==> base == old(base) && func <= top && (nresults >= 0 ==> top == func + nresults)
      ensures old(errfunc) < func ==>
                Agrees(old(EvalEnter(Here(), sizeCi, stack[func], stack[func + 1..top], nresults)),
                       o, sizeCi, From(func))
      decreases 2 * LUAI_MAXCALLS - |ci|, MaxCcalls() - nCcalls, 6
    {
      ghost var s0 := Now();
      var f := stack[func];
      hide FramesOK, EvalFn, EvalError;
      if f.Func? {
        o := RunFn(func, f.f, nresults);
      } else if f.Object? && f.call.Func? {
        OpenHole(func, f.call);
        ghost var s1 := Now();
        assert stack[func + 1..top] == [f] + s0.stack[func + 1..s0.top];
        if errfunc < func { RanEnv(s0, s1, func); }
        o := RunFn(func, f.call.f, nresults);
        RanTwice(s0, s1, Now(), o, func);
      } else {
        o := RunError("attempt to call");
        RanLess(s0, Now(), o, s0.top, func);
      }
    }

    /** The depth guard of luaD_call: the call that reaches the limit is an error whose handler has an eighth
        of the limit left; the call that uses that up is an error in error handling. */
    method CountCall() returns (o: Outcome)
      requires Valid() && nCcalls < MaxCcalls()
      modifies this
      ensures Valid() && Ran(old(Now()).(nCcalls := old(nCcalls) + 1), Now(), o, old(top))
      ensures o.Done? ==>
                Now() == old(Now()).(nCcalls := old(nCcalls) + 1) && base == old(base) && sizeCi == old(sizeCi)
      ensures o.Done? <==> old(nCcalls) + 1 != LUAI_MAXCCALLS && old(nCcalls) + 1 < MaxCcalls()
      ensures old(errfunc < top) && !o.Done? ==>
                Agrees(EvalGuard(old(Here()), old(sizeCi)), o, sizeCi, [])
      decreases 2 * LUAI_MAXCALLS - |ci|, MaxCcalls() - nCcalls, 0
    {
      nCcalls := nCcalls + 1;
      ghost var s1 := Now();
      if nCcalls >= LUAI_MAXCCALLS {
        if nCcalls == LUAI_MAXCCALLS {
          o := RunError("C stack overflow");
          return;
        } else if nCcalls >= MaxCcalls() {
          o := Throw(LUA_ERRERR);
          RanLess(s1, Now(), o, |stack|, top);
          return;
        }
      }
      o := Done;
    }

    /** luaD_call. */
    method Call(func: int, nresults: int) returns (o: Outcome)
      requires Valid() && base <= func < top && LUA_MULTRET <= nresults && func + nresults <= StackLast()
      requires nCcalls < MaxCcalls()
      modifies this
      ensures Valid() && Ran(old(Now()), Now(), o, func)
      ensures o.Done? ==> base == old(base) && func <= top && (nresults >= 0 ==> top == func + nresults)
      ensures o.Done? ==> old(nCcalls) + 1 != LUAI_MAXCCALLS && old(nCcalls) + 1 < MaxCcalls()
      ensures old(errfunc) < func ==>
                Agrees(old(EvalCall(Here(), sizeCi, stack[func], stack[func + 1..top], nresults)),
                       o, sizeCi, From(func))
      decreases 2 * LUAI_MAXCALLS - |ci|, MaxCcalls() - nCcalls, 1, 0
    {
      ghost var s0 := Now();
      hide Ran, FramesOK, EvalError, EvalEnter;
      o := CountCall();
      if !o.Done? {
        RanLess(s0.(nCcalls := s0.nCcalls + 1), Now(), o, s0.top, func);
        RanCounted(s0, Now(), o, func);
        return;
      }
      o := RunCall(func, nresults);
      RanCounted(s0, Now(), o, func);
      if o.Done? { nCcalls := nCcalls - 1; }
    }

    // ---------- protected calls ----------

    /** luaD_rawrunprotected, running luaD_call: it catches exactly what is thrown to it. */
    method RawRunProtected(func: int, nresults: int) returns (status: int)
      requires Valid() && base <= func < top && LUA_MULTRET <= nresults && func + nresults <= StackLast()
      requires nCcalls < MaxCcalls()
      modifies this
      ensures Valid() && errorJmp == old(errorJmp)
      ensures var s := old(Now()).(errorJmp := []); var t := Now().(errorJmp := []);
              && (status == 0 ==>
                    && Ran(s, t, Done, func) && base == old(base) && func <= top
                    && (nresults >= 0 ==> top == func + nresults))
              && (status != 0 ==> LUA_ERRRUN <= status <= LUA_ERRERR && old(ci) <= ci && errfunc == old(errfunc)
                                  && |old(stack)| <= |stack| && stack[..func] == old(stack)[..func])
      ensures old(errfunc) < func ==>
                Comes(old(EvalCall(Here(), sizeCi, stack[func], stack[func + 1..top], nresults)),
                      status, sizeCi, From(func), stack[top - 1])
      decreases 2 * LUAI_MAXCALLS - |ci|, MaxCcalls() - nCcalls, 7
    {
      hide EvalCall;
      var previous := errorJmp;
      var lj := handlers;
      handlers := handlers + 1;
      errorJmp := previous + [lj];
      var o := Call(func, nresults);
      assert o.Jump? ==> o.target == lj;
      status := if o.Jump? then o.status else 0;
      errorJmp := previous;
    }

    /** restore_stack_limit: an array of frames that has overflowed shrinks when enough are free. */
    method RestoreStackLimit()
      requires Valid()
      modifies `sizeCi
      ensures Valid() && sizeCi == Restored(old(sizeCi), |ci|)
      ensures old(sizeCi) > LUAI_MAXCALLS > |ci| ==> sizeCi == LUAI_MAXCALLS
      ensures old(sizeCi) <= LUAI_MAXCALLS || |ci| >= LUAI_MAXCALLS ==> sizeCi == old(sizeCi)
    {
      if sizeCi > LUAI_MAXCALLS {
        var inuse := |ci| - 1;
        if inuse + 1 < LUAI_MAXCALLS { sizeCi := LUAI_MAXCALLS; }
      }
    }

    /** luaD_pcall is a transaction: whatever happens in the call, the handlers, errfunc, the frames,
        base, allowhook and the C depth are those before it; after an error, the error object alone
        takes the place of the function and its arguments. What is left is what the call comes to. */
    method PCall(func: int, nresults: int, ef: int) returns (status: int)
      requires Valid() && base <= func < top && LUA_MULTRET <= nresults && func + nresults <= StackLast()
      requires nCcalls < MaxCcalls() && 0 <= ef < |stack|
      modifies this
      ensures Valid() && Ran(old(Now()), Now(), Done, func) && base == old(base)
      ensures status == 0 || LUA_ERRRUN <= status <= LUA_ERRERR
      ensures status == 0 ==> func <= top && (nresults >= 0 ==> top == func + nresults)
      ensures status != 0 ==> top == func + 1
      ensures status == LUA_ERRMEM ==> stack[func] == Str("not enough memory")
      ensures status == LUA_ERRERR ==> stack[func] == Str("error in error handling")
      ensures ef < func ==>
                var h := if ef == 0 then None else Some(old(stack)[ef]);
                var a := old(EvalCall(Here().(handler := h), sizeCi, stack[func], stack[func + 1..top], nresults));
                && Agrees(Caught(a, |ci|), Done, sizeCi, From(func))
                && (a.Gives? ==> status == 0) && (a.Raises? ==> status == a.status)
      decreases 2 * LUAI_MAXCALLS - |ci|, MaxCcalls() - nCcalls, 8
    {
      var oldnCcalls, oldci, oldallowhook, olderrfunc := nCcalls, ci, allowhook, errfunc;
      ghost var s0 := Now();
      FuncFits(func);
      errfunc := ef;
      ghost var a := EvalCall(Here(), sizeCi, stack[func], stack[func + 1..top], nresults);
      hide EvalCall, Comes, Agrees, Caught, EnvOf;
      status := RawRunProtected(func, nresults);
      ghost var n1, v1, obj, other := sizeCi, From(func), stack[top - 1], stack[func];
      if status != 0 {
        hide Ran, FramesOK;
        Recover(status, func, oldnCcalls, oldci, oldallowhook);
        assert stack[..func] == s0.stack[..func] && From(func) == [stack[func]];
      }
      if ef < func { CaughtComes(a, status, n1, v1, obj, other, |ci|, sizeCi, From(func)); }
      errfunc := olderrfunc;
    }

    /** The frames below a call do not reach above the function's slot. */
    lemma FuncFits(func: int)
      requires Valid() && base <= func < top
      ensures ci[|ci| - 1].base <= func && func + 1 <= StackLast()
    {}

    /** What luaD_pcall does about an error: the error object replaces the function and its arguments, and
        frames, base, depth and allowhook are those before the call. */
    method Recover(status: int, func: int, oldnCcalls: int, oldci: seq<CallInfo>, oldallowhook: bool)
      requires Valid() && 1 <= |oldci| && oldci <= ci && 0 <= oldnCcalls <= MaxCcalls()
      requires oldci[|oldci| - 1].base <= func && func + 1 <= StackLast()
      modifies this
      ensures Valid() && top == func + 1 && base == oldci[|oldci| - 1].base
      ensures stack == old(stack)[func := ErrorObj(status, old(stack)[old(top) - 1], old(stack)[func])]
      ensures Now() == old(Now()).(stack := stack, top := top, ci := oldci, nCcalls := oldnCcalls,
              allowhook := oldallowhook)
      ensures sizeCi == Restored(old(sizeCi), |oldci|)
    {
      FramesPrefix(ci, |stack|, oldci, |stack|);
      assert FrameOK(oldci, |stack|, |oldci| - 1);
      SetErrorObj(status, func);
      nCcalls := oldnCcalls;
      ci := oldci;
      base := ci[|ci| - 1].base;
      allowhook := oldallowhook;
      RestoreStackLimit();
    }

    // ---------- running a function ----------

    /** luaD_callhook: no hook runs inside a hook. */
    method CallHook(hook: seq<Act>) returns (o: Outcome)
      requires Valid() && nCcalls < MaxCcalls()
      modifies this
      ensures Valid() && Ran(old(Now()), Now(), o, old(base))
      ensures o.Done? ==> base == old(base) && top == old(top)
      ensures !old(allowhook) ==> o.Done? && Now() == old(Now())
      ensures old(errfunc < base) ==>
                Agrees(old(EvalAct(Here(), sizeCi, Frame(), 0, Hook(hook))), o, sizeCi, Frame())
      decreases 2 * LUAI_MAXCALLS - |ci|, MaxCcalls() - nCcalls, 10, SizeOf(hook), 3
    {
      hide EvalBody;
      if allowhook {
        o := RunHook(hook);
      } else {
        o := Done;
      }
    }

    /** Room for the hook, in which no other hook runs. */
    method EnterHook()
      requires Valid()
      modifies `stack, `allowhook
      ensures Valid() && !allowhook && |old(stack)| <= |stack| && stack[..top] == old(stack)[..top]
    {
      CheckStack(LUA_MINSTACK);
      allowhook := false;
    }

    method RunHook(hook: seq<Act>) returns (o: Outcome)
      requires Valid() && nCcalls < MaxCcalls() && allowhook
      modifies this
      ensures Valid() && Ran(old(Now()), Now(), o, old(base))
      ensures o.Done? ==> base == old(base) && top == old(top)
      ensures old(errfunc < base) ==>
                var a := old(EvalBody(Here().(hooks := false), sizeCi, Frame(), |Frame()|, hook));
                Agrees(if a.Gives? then Gives(old(Frame()), a.size) else a, o, sizeCi, Frame())
      decreases 2 * LUAI_MAXCALLS - |ci|, MaxCcalls() - nCcalls, 10, SizeOf(hook), 2
    {
      var oldtop := top;
      ghost var s0, b0, f0, n0 := Now(), base, Frame(), sizeCi;
      EnterHook();
      ghost var s1 := Now();
      KeptBelow(s0.stack, stack, top, base);
      KeptSlice(s0.stack, stack, top, base);
      hide Ran, FramesOK, EvalBody;
      o := Exec(hook);
      HookRan(s0, s1, Now(), o, b0);
      if s0.errfunc < b0 {
        KeptEnv(s0, s1, b0);
        FloorBody(EnvOf(s1), n0, f0, |f0|, hook);
      }
      if o.Done? {
        ghost var t1 := top;
        allowhook := true;
        top := oldtop;
        if top <= t1 { SlotsCut(stack, base, top, t1); }
      }
    }

    /** Pushing a value or a copy of one in the frame, or popping one. */
    method Move(act: Act)
      requires Valid() && Moves(act)
      modifies `stack, `top
      ensures Valid() && Ran(old(Now()), Now(), Done, base)
      ensures Frame() == AfterAct(old(Frame()), act)
    {
      ghost var s0, frame := Now(), Frame();
      match act
      case Push(v) => PushFrame(v);
      case Pop =>
        if top > base {
          top := top - 1;
          PopSlice(stack, base, top);
        }
      case Copy(i) =>
        assert NilIfNone(frame, i) == if base + i < top then stack[base + i] else Nil;
        PushFrame(if base + i < top then stack[base + i] else Nil);
      case _ =>
    }

    method PushFrame(v: Value)
      requires Valid()
      modifies `stack, `top
      ensures Valid() && Ran(old(Now()), Now(), Done, base)
      ensures Frame() == old(Frame()) + [v]
    {
      ghost var s0 := Now();
      PushValue(v);
      KeptSlice(s0.stack, stack, s0.top, base);
      assert stack[base..top] == stack[base..s0.top] + [v];
      RanLess(s0, Now(), Done, s0.top, base);
    }

    /** One thing that a function does; what the interface forbids its callers to ask is not done. */
    method Do(act: Act) returns (o: Outcome)
      requires Valid() && nCcalls < MaxCcalls()
      modifies this
      ensures Valid() && Ran(old(Now()), Now(), o, old(base))
      ensures o.Done? ==> base == old(base)
      ensures old(errfunc < base) ==> Agrees(old(EvalAct(Here(), sizeCi, Frame(), 0, act)), o, sizeCi, Frame())
      decreases 2 * LUAI_MAXCALLS - |ci|, MaxCcalls() - nCcalls, 10, 1 + Inner(act), 0
    {
      RanSelf(Now(), base);
      hide Ran, FramesOK, EvalBody, EvalTop, EvalProtected, EvalError, AfterAct;
      o := Done;
      match act
      case Push(_) => Move(act);
      case Pop => Move(act);
      case Copy(_) => Move(act);
      case Call(nargs, nresults) =>
        if Callable(Frame(), nargs, nresults) { o := DoCall(nargs, nresults, true); }
      case Enter(nargs, nresults) =>
        if Callable(Frame(), nargs, nresults) { o := DoCall(nargs, nresults, false); }
      case PCall(nargs, nresults, handler, failed) =>
        if Callable(Frame(), nargs, nresults) && base + handler < top - (nargs + 1) {
          o := DoProtected(nargs, nresults, handler, failed);
        }
      case Error =>
        if top > base { o := DoError(); }
      case Throw(memory) =>
        if top > base || memory { o := DoThrow(memory); }
      case Hook(hook) =>
        o := CallHook(hook);
      case Branch(test, absent, present) =>
        o := Exec(if NilIfNone(Frame(), test).Nil? then absent else present);
    }

    /** lua_error. */
    method DoError() returns (o: Outcome)
      requires Valid() && nCcalls < MaxCcalls() && base < top
      modifies this
      ensures Valid() && !o.Done? && Ran(old(Now()), Now(), o, old(base))
      ensures old(errfunc < base) ==> Agrees(old(EvalError(Here(), sizeCi, stack[top - 1])), o, sizeCi, [])
      decreases 2 * LUAI_MAXCALLS - |ci|, MaxCcalls() - nCcalls, 9
    {
      hide EvalError, FramesOK;
      ghost var s0, b0 := Now(), base;
      o := ErrorMsg();
      RanLess(s0, Now(), o, s0.top - 1, b0);
    }

    /** luaD_throw for an error of the compiler, whose message is on the top, or of the memory. */
    method DoThrow(memory: bool) returns (o: Outcome)
      requires Valid() && (base < top || memory)
      ensures !o.Done? && Ran(Now(), Now(), o, base)
      ensures o.Jump? ==> o.status == (if memory then LUA_ERRMEM else LUA_ERRSYNTAX) && o.value == stack[top - 1]
    {
      o := Throw(if memory then LUA_ERRMEM else LUA_ERRSYNTAX);
      RanLess(Now(), Now(), o, |stack|, base);
    }

    /** Room for the results of a call. */
    method MakeRoom(nargs: nat, nresults: int) returns (func: int)
      requires Valid() && Callable(Frame(), nargs, nresults)
      modifies `stack
      ensures Valid() && base <= func == top - (nargs + 1) && func + nresults <= StackLast()
      ensures Ran(old(Now()), Now(), Done, func) && Here() == old(Here()) && old(stack) <= stack
      ensures var f := old(Frame()); var k := |f| - (nargs + 1);
              && Frame() == f && stack[func] == f[k] && stack[func + 1..top] == f[k + 1..]
              && stack[base..func] == f[..k]
    {
      ghost var s0 := Now();
      CheckStack(if nresults >= 0 then nresults else 0);
      func := top - (nargs + 1);
      Pieces(s0.stack, stack, base, func, top);
      assert stack[..func] == s0.stack[..func];
    }

    /** luaD_call, or luaD_precall for OP_CALL. */
    method CallAt(func: int, nresults: int, counted: bool) returns (o: Outcome)
      requires Valid() && base <= func < top && LUA_MULTRET <= nresults && func + nresults <= StackLast()
      requires nCcalls < MaxCcalls()
      modifies this
      ensures Valid() && Ran(old(Now()), Now(), o, func)
      ensures o.Done? ==> base == old(base) && func <= top
      ensures old(errfunc) < func ==>
                Agrees(old(EvalAt(Here(), sizeCi, stack[func], stack[func + 1..top], nresults, counted)),
                       o, sizeCi, From(func))
      decreases 2 * LUAI_MAXCALLS - |ci|, MaxCcalls() - nCcalls, 7
    {
      hide Ran, FramesOK, EvalCall, EvalEnter, Agrees, EnvOf;
      if counted { o := Call(func, nresults); } else { o := RunCall(func, nresults); }
    }

    /** lua_call, or OP_CALL; the caller has made room for the results. */
    method DoCall(nargs: nat, nresults: int, counted: bool) returns (o: Outcome)
      requires Valid() && nCcalls < MaxCcalls() && Callable(Frame(), nargs, nresults)
      modifies this
      ensures Valid() && Ran(old(Now()), Now(), o, old(base))
      ensures o.Done? ==> base == old(base)
      ensures old(errfunc < base) ==>
                Agrees(old(EvalTop(Here(), sizeCi, Frame(), 0, nargs, nresults, counted)), o, sizeCi, Frame())
      decreases 2 * LUAI_MAXCALLS - |ci|, MaxCcalls() - nCcalls, 9
    {
      ghost var s0, b0, f, n0, e, called := Now(), base, Frame(), sizeCi, Here(), errfunc < base;
      var func := MakeRoom(nargs, nresults);
      ghost var s1, k := Now(), func - base;
      ghost var a := EvalAt(e, n0, f[k], f[k + 1..], nresults, counted);
      assert EvalTop(e, n0, f, 0, nargs, nresults, counted) == Above(f[..k], a);
      hide Ran, FramesOK, EvalTop, EvalAt, Agrees, Above, EnvOf;
      o := CallAt(func, nresults, counted);
      if called { AgreesAbove(a, o, sizeCi, s1, Now(), b0, func, Frame()); }
      RanTwice(s0, s1, Now(), o, func);
      RanLess(s0, Now(), o, func, b0);
    }

    /** lua_pcall. */
    method DoPCall(nargs: nat, nresults: int, handler: int) returns (status: int)
      requires Valid() && nCcalls < MaxCcalls() && Callable(Frame(), nargs, nresults)
      requires base + handler < top - (nargs + 1)
      modifies this
      ensures Valid() && Ran(old(Now()), Now(), Done, old(base)) && base == old(base)
      ensures var f := old(Frame()); var k := |f| - (nargs + 1);
              var h := if handler < 0 then None else Some(f[handler]);
              var a := old(EvalCall(Here().(handler := h), sizeCi, f[k], f[k + 1..], nresults));
              && Agrees(Above(f[..k], Caught(a, |ci|)), Done, sizeCi, Frame())
              && (!a.Rude? ==> (status != 0 <==> a.Raises?))
      decreases 2 * LUAI_MAXCALLS - |ci|, MaxCcalls() - nCcalls, 9
    {
      ghost var s0, b0, f, n0 := Now(), base, Frame(), sizeCi;
      var func := MakeRoom(nargs, nresults);
      var ef := if handler < 0 then 0 else base + handler;
      ghost var s1, k := Now(), func - base;
      assert handler >= 0 ==> stack[ef] == f[handler];
      ghost var h := if handler < 0 then None else Some(f[handler]);
      ghost var a := EvalCall(Here().(handler := h), n0, f[k], f[k + 1..], nresults);
      hide Ran, FramesOK, EvalCall, EnvOf, Agrees, Above, Caught;
      status := PCall(func, nresults, ef);
      RanDone(s1, Now(), func);
      AgreesAbove(Caught(a, |ci|), Done, sizeCi, s1, Now(), b0, func, Frame());
      RanTwice(s0, s1, Now(), Done, func);
      RanLess(s0, Now(), Done, func, b0);
    }

    /** lua_pcall, and what its caller does about an error. */
    method DoProtected(nargs: nat, nresults: int, handler: int, failed: seq<Act>) returns (o: Outcome)
      requires Valid() && nCcalls < MaxCcalls() && Callable(Frame(), nargs, nresults)
      requires base + handler < top - (nargs + 1)
      modifies this
      ensures Valid() && Ran(old(Now()), Now(), o, old(base))
      ensures o.Done? ==> base == old(base)
      ensures old(errfunc < base) ==>
                Agrees(old(EvalProtected(Here(), sizeCi, Frame(), 0, nargs, nresults, handler, failed)),
                       o, sizeCi, Frame())
      decreases 2 * LUAI_MAXCALLS - |ci|, MaxCcalls() - nCcalls, 10, SizeOf(failed), 2
    {
      ghost var s0, f, n0 := Now(), Frame(), sizeCi;
      ghost var k, e := |f| - (nargs + 1), Here();
      ghost var h := if handler < 0 then None else Some(f[handler]);
      ghost var a := EvalCall(e.(handler := h), n0, f[k], f[k + 1..], nresults);
      ghost var c := Above(f[..k], Caught(a, e.depth));
      ghost var p := EvalProtected(e, n0, f, 0, nargs, nresults, handler, failed);
      assert p == if a.Raises? then EvalBody(e, c.size, c.values, 0, failed) else c;
      hide Ran, FramesOK, EvalCall, EvalBody;
      var status := DoPCall(nargs, nresults, handler);
      assert Agrees(c, Done, sizeCi, Frame());
      ghost var s1 := Now();
      RanDone(s0, s1, base);
      if s0.errfunc < base { RanEnv(s0, s1, base); }
      o := Done;
      if status != 0 {
        o := Exec(failed);
        RanTwice(s0, s1, Now(), o, old(base));
      }
    }

    method Exec(body: seq<Act>) returns (o: Outcome)
      requires Valid() && nCcalls < MaxCcalls()
      modifies this
      ensures Valid() && Ran(old(Now()), Now(), o, old(base))
      ensures o.Done? ==> base == old(base)
      ensures old(errfunc < base) ==> Agrees(old(EvalBody(Here(), sizeCi, Frame(), 0, body)), o, sizeCi, Frame())
      decreases 2 * LUAI_MAXCALLS - |ci|, MaxCcalls() - nCcalls, 10, SizeOf(body), 1
    {
      ghost var s0 := Now();
      if body == [] {
        RanSelf(s0, base);
        return Done;
      }
      hide Ran, FramesOK, EvalAct;
      o := Do(body[0]);
      if !o.Done? { return; }
      ghost var s1 := Now();
      if errfunc < base { RanEnv(s0, s1, base); }
      o := Exec(body[1..]);
      RanTwice(s0, s1, Now(), o, old(base));
    }
  }
}
