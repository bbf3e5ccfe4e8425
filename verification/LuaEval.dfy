/** What calls, protected calls and errors come to, without a stack: a function of the values in a frame, with
    an error as an answer. The machine of ldo.c is proved against it. */
module LuaEval {
  import opened Wrappers

  const LUA_MULTRET: int := -1
  const LUA_ERRRUN := 2
  const LUA_ERRSYNTAX := 3
  const LUA_ERRMEM := 4
  const LUA_ERRERR := 5
  const LUA_MINSTACK := 20
  const BASIC_STACK_SIZE := 40
  const BASIC_CI_SIZE := 8
  const EXTRA_STACK := 5
  const LUAI_MAXCALLS := 20000
  const LUAI_MAXCCALLS := 200

  /** A callable object carries the __call field of its metatable. */
  datatype Value = Nil | Num(n: int) | Str(s: string) | Func(f: Fn) | Object(call: Value)

  /** A function is what one run of it does. A Lua function has a frame of numparams + extra slots. */
  datatype Fn =
    | CFn(body: seq<Act>, nret: nat)
    | LuaFn(numparams: nat, vararg: bool, extra: nat, body: seq<Act>, nret: nat)

  /** Call goes through luaD_call, Enter straight to luaD_precall, as OP_CALL does; PCall is lua_pcall, after
      which `failed` is done if it does not return 0; Error is lua_error, Throw an error raised without a
      handler, Hook a run of the debug hook; Branch tests a value for nil. */
  datatype Act =
    | Push(v: Value)
    | Pop
    | Copy(index: nat)
    | Call(nargs: nat, nresults: int)
    | Enter(nargs: nat, nresults: int)
    | PCall(nargs: nat, nresults: int, handler: int, failed: seq<Act>)
    | Error
    | Throw(memory: bool)
    | Hook(hook: seq<Act>)
    | Branch(test: nat, absent: seq<Act>, present: seq<Act>)

  // ---------- what arguments and results become ----------

  function NilIfNone(s: seq<Value>, i: int): Value {
    if 0 <= i < |s| then s[i] else Nil
  }

  /** The first n values, with nil for those that are missing. */
  function Exactly(s: seq<Value>, n: nat): (r: seq<Value>)
    ensures |r| == n && forall i | 0 <= i < n :: r[i] == NilIfNone(s, i)
  {
    seq(n, i => NilIfNone(s, i))
  }

  /** What is left of the arguments after the fixed parameters. */
  function Extra(args: seq<Value>, numparams: nat): seq<Value> {
    if |args| <= numparams then [] else args[numparams..]
  }

  /** Results cut or padded to the wanted count. */
  function Wanted(results: seq<Value>, wanted: int): (r: seq<Value>)
    ensures wanted >= 0 ==> |r| == wanted && forall i | 0 <= i < wanted :: r[i] == NilIfNone(results, i)
    ensures wanted < 0 ==> r == results
  {
    if wanted < 0 then results else Exactly(results, wanted)
  }

  // ---------- straight-line functions ----------

  /** A body that only moves values within its own frame. */
  predicate Straight(body: seq<Act>) {
    forall i | 0 <= i < |body| :: Moves(body[i])
  }

  predicate Moves(act: Act) { act.Push? || act.Pop? || act.Copy? }

  function AfterAct(frame: seq<Value>, act: Act): seq<Value> {
    match act
    case Push(v) => frame + [v]
    case Copy(i) => frame + [NilIfNone(frame, i)]
    case Pop => if frame == [] then frame else frame[..|frame| - 1]
    case _ => frame
  }

  function AfterBody(frame: seq<Value>, body: seq<Act>): seq<Value>
    decreases |body|
  {
    if body == [] then frame else AfterBody(AfterAct(frame, body[0]), body[1..])
  }

  /** The values in the frame of a function when it begins. */
  function FrameOf(f: Fn, args: seq<Value>): seq<Value> {
    if f.CFn? then args else Exactly(Exactly(args, f.numparams), f.numparams + f.extra)
  }

  /** The parameters come first, nil for those that were not passed, and the other registers are nil. */
  lemma FrameSlots(f: Fn, args: seq<Value>)
    requires f.LuaFn?
    ensures var frame := FrameOf(f, args);
            && |frame| == f.numparams + f.extra
            && (forall j | 0 <= j < f.numparams :: frame[j] == if j < |args| then args[j] else Nil)
            && (forall j | f.numparams <= j < |frame| :: frame[j] == Nil)
  {}

  /** The last nret values of a frame. */
  function Returned(frame: seq<Value>, nret: nat): seq<Value> {
    if nret <= |frame| then frame[|frame| - nret..] else frame
  }

  lemma ReturnedLast(frame: seq<Value>, nret: nat)
    ensures var r := Returned(frame, nret);
            && (|r| == nret || (|r| < nret && r == frame))
            && |r| <= |frame| && forall i | 0 <= i < |r| :: r[i] == frame[|frame| - |r| + i]
  {}

  function ResultsOf(f: Fn, args: seq<Value>): seq<Value> {
    Returned(AfterBody(FrameOf(f, args), f.body), f.nret)
  }

  /** A function whose run is straight-line code. */
  predicate Simple(v: Value) { v.Func? && Straight(v.f.body) }

  // ---------- what a run comes to ----------

  /** How much work a body is, not counting calls. */
  function SizeOf(body: seq<Act>): nat {
    if body == [] then 0 else 1 + Inner(body[0]) + SizeOf(body[1..])
  }

  function Inner(act: Act): nat {
    match act
    case PCall(_, _, _, failed) => SizeOf(failed)
    case Hook(hook) => SizeOf(hook)
    case Branch(_, absent, present) => SizeOf(absent) + SizeOf(present)
    case _ => 0
  }

  /** LUAI_MAXCCALLS + (LUAI_MAXCCALLS>>3). */
  function MaxCcalls(): int { LUAI_MAXCCALLS + LUAI_MAXCCALLS / 8 }

  /** What a run depends on besides its values: how many frames and C calls are in use, whether hooks may run,
      and the error handler. */
  datatype Env = Env(depth: int, ccalls: int, hooks: bool, handler: Option<Value>)

  /** A run ends with values or with an error, and with a size of the array of frames. Nothing is said of a
      run in which a hook has reached for what was there before it. */
  datatype Answer =
    | Gives(values: seq<Value>, size: int)
    | Raises(status: int, value: Value, size: int)
    | Rude

  predicate EnvOK(e: Env, size: int) {
    1 <= e.depth <= size <= 2 * LUAI_MAXCALLS && 0 <= e.ccalls < MaxCcalls()
  }

  predicate AnswerOK(e: Env, a: Answer) {
    a.Rude? || (e.depth <= a.size <= 2 * LUAI_MAXCALLS && (a.Raises? ==> LUA_ERRRUN <= a.status <= LUA_ERRERR))
  }

  /** luaG_errormsg. */
  function EvalError(e: Env, size: int, message: Value): (a: Answer)
    requires EnvOK(e, size)
    ensures !a.Gives? && AnswerOK(e, a)
    decreases 2 * LUAI_MAXCALLS - e.depth, MaxCcalls() - e.ccalls, 2
  {
    if e.handler.None? then Raises(LUA_ERRRUN, message, size)
    else if !e.handler.value.Func? then Raises(LUA_ERRERR, Nil, size)
    else
      var a := EvalCall(e, size, e.handler.value, [message], 1);
      if a.Gives? then Raises(LUA_ERRRUN, a.values[0], a.size) else a
  }

  /** inc_ci: a full array of frames is doubled. */
  function EvalFrame(e: Env, size: int): (a: Answer)
    requires EnvOK(e, size)
    ensures AnswerOK(e, a) && (a.Gives? ==> e.depth < a.size && a.values == [])
    decreases 2 * LUAI_MAXCALLS - e.depth, MaxCcalls() - e.ccalls, 4
  {
    if e.depth < size then Gives([], size)
    else if size > LUAI_MAXCALLS then Raises(LUA_ERRERR, Nil, size)
    else if 2 * size > LUAI_MAXCALLS then EvalError(e, 2 * size, Str("stack overflow"))
    else Gives([], 2 * size)
  }

  /** A frame that has been run to its end returns its last values, as many as are wanted. */
  function Results(a: Answer, nret: nat, nresults: int): Answer {
    if a.Gives? then Gives(Handed(a.values, nret, nresults), a.size) else a
  }

  function Handed(frame: seq<Value>, nret: nat, nresults: int): seq<Value> { Wanted(Returned(frame, nret), nresults) }

  function EvalFn(e: Env, size: int, f: Fn, args: seq<Value>, nresults: int): (a: Answer)
    requires EnvOK(e, size)
    ensures AnswerOK(e, a) && (a.Gives? && nresults >= 0 ==> |a.values| == nresults)
    decreases 2 * LUAI_MAXCALLS - e.depth, MaxCcalls() - e.ccalls, 5
  {
    var a := EvalFrame(e, size);
    if !a.Gives? then a
    else
      Results(EvalBody(e.(depth := e.depth + 1), a.size, FrameOf(f, args), 0, f.body), f.nret, nresults)
  }

  /** luaD_precall and what follows; a callable object is the first argument of its __call function. */
  function EvalEnter(e: Env, size: int, f: Value, args: seq<Value>, nresults: int): (a: Answer)
    requires EnvOK(e, size)
    ensures AnswerOK(e, a) && (a.Gives? && nresults >= 0 ==> |a.values| == nresults)
    decreases 2 * LUAI_MAXCALLS - e.depth, MaxCcalls() - e.ccalls, 6
  {
    if f.Func? then EvalFn(e, size, f.f, args, nresults)
    else if f.Object? && f.call.Func? then EvalFn(e, size, f.call.f, [f] + args, nresults)
    else EvalError(e, size, Str("attempt to call"))
  }

  /** The depth guard of luaD_call: the call that reaches the limit is an error whose handler has an eighth of
      the limit left; the call that uses that up is an error in error handling. */
  function EvalGuard(e: Env, size: int): (a: Answer)
    requires EnvOK(e, size)
    ensures AnswerOK(e, a) && (a.Gives? ==> e.ccalls + 1 < MaxCcalls() && a.size == size)
    decreases 2 * LUAI_MAXCALLS - e.depth, MaxCcalls() - e.ccalls, 1, 0
  {
    var ccalls := e.ccalls + 1;
    if ccalls == LUAI_MAXCCALLS then EvalError(e.(ccalls := ccalls), size, Str("C stack overflow"))
    else if ccalls >= MaxCcalls() then Raises(LUA_ERRERR, Nil, size)
    else Gives([], size)
  }

  /** luaD_call. */
  function EvalCall(e: Env, size: int, f: Value, args: seq<Value>, nresults: int): (a: Answer)
    requires EnvOK(e, size)
    ensures AnswerOK(e, a) && (a.Gives? && nresults >= 0 ==> |a.values| == nresults)
    decreases 2 * LUAI_MAXCALLS - e.depth, MaxCcalls() - e.ccalls, 1, 1
  {
    var a := EvalGuard(e, size);
    if a.Gives? then EvalEnter(e.(ccalls := e.ccalls + 1), size, f, args, nresults) else a
  }

  /** The object that an error leaves. */
  function ErrorValue(status: int, value: Value): Value {
    if status == LUA_ERRMEM then Str("not enough memory")
    else if status == LUA_ERRERR then Str("error in error handling")
    else value
  }

  /** restore_stack_limit. */
  function Restored(size: int, depth: int): int {
    if size > LUAI_MAXCALLS > depth then LUAI_MAXCALLS else size
  }

  /** What luaD_pcall makes of the call: an error ends in its object. */
  function Caught(a: Answer, depth: int): Answer {
    if a.Raises? then Gives([ErrorValue(a.status, a.value)], Restored(a.size, depth)) else a
  }

  /** The place of the function that is called with the last values of a frame. */
  predicate Callable(frame: seq<Value>, nargs: nat, nresults: int) { nargs + 1 <= |frame| && LUA_MULTRET <= nresults }

  function Above(below: seq<Value>, a: Answer): Answer {
    if a.Gives? then Gives(below + a.values, a.size) else a
  }

  /** One act in a frame of whose values the first `floor` are not to be touched. */
  function EvalAct(e: Env, size: int, frame: seq<Value>, floor: nat, act: Act): (a: Answer)
    requires EnvOK(e, size)
    ensures AnswerOK(e, a)
    decreases 2 * LUAI_MAXCALLS - e.depth, MaxCcalls() - e.ccalls, 10, 1 + Inner(act), 0
  {
    var same := Gives(frame, size);
    match act
    case Push(_) => Gives(AfterAct(frame, act), size)
    case Copy(_) => Gives(AfterAct(frame, act), size)
    case Pop => if 0 < |frame| <= floor then Rude else Gives(AfterAct(frame, act), size)
    case Call(nargs, nresults) =>
      if !Callable(frame, nargs, nresults) then same
      else EvalTop(e, size, frame, floor, nargs, nresults, true)
    case Enter(nargs, nresults) =>
      if !Callable(frame, nargs, nresults) then same
      else EvalTop(e, size, frame, floor, nargs, nresults, false)
    case PCall(nargs, nresults, handler, failed) =>
      if !Callable(frame, nargs, nresults) || handler >= |frame| - (nargs + 1) then same
      else EvalProtected(e, size, frame, floor, nargs, nresults, handler, failed)
    case Error => if frame == [] then same else EvalError(e, size, frame[|frame| - 1])
    case Throw(memory) =>
      if memory then Raises(LUA_ERRMEM, Nil, size)
      else if frame == [] then same
      else Raises(LUA_ERRSYNTAX, frame[|frame| - 1], size)
    case Hook(hook) =>
      if !e.hooks then same
      else
        var a := EvalBody(e.(hooks := false), size, frame, |frame|, hook);
        if a.Gives? then Gives(frame, a.size) else a
    case Branch(test, absent, present) =>
      EvalBody(e, size, frame, floor, if NilIfNone(frame, test).Nil? then absent else present)
  }

  function EvalAt(e: Env, size: int, f: Value, args: seq<Value>, nresults: int, counted: bool): (a: Answer)
    requires EnvOK(e, size)
    ensures AnswerOK(e, a)
    decreases 2 * LUAI_MAXCALLS - e.depth, MaxCcalls() - e.ccalls, 7
  {
    if counted then EvalCall(e, size, f, args, nresults) else EvalEnter(e, size, f, args, nresults)
  }

  /** A call of the function in the frame with the values above it. */
  function EvalTop(e: Env, size: int, frame: seq<Value>, floor: nat, nargs: nat, nresults: int, counted: bool)
    : (a: Answer)
    requires EnvOK(e, size) && Callable(frame, nargs, nresults)
    ensures AnswerOK(e, a)
    decreases 2 * LUAI_MAXCALLS - e.depth, MaxCcalls() - e.ccalls, 9
  {
    var k := |frame| - (nargs + 1);
    if k < floor then Rude
    else
      Above(frame[..k], EvalAt(e, size, frame[k], frame[k + 1..], nresults, counted))
  }

  /** lua_pcall, with the handler at the given place of the frame, or none. */
  function EvalProtected(
    e: Env, size: int, frame: seq<Value>, floor: nat, nargs: nat, nresults: int, handler: int, failed: seq<Act>)
    : (a: Answer)
    requires EnvOK(e, size) && Callable(frame, nargs, nresults) && handler < |frame| - (nargs + 1)
    ensures AnswerOK(e, a)
    decreases 2 * LUAI_MAXCALLS - e.depth, MaxCcalls() - e.ccalls, 10, SizeOf(failed), 2
  {
    var k := |frame| - (nargs + 1);
    if k < floor then Rude
    else
      var h := if handler < 0 then None else Some(frame[handler]);
      var a := EvalCall(e.(handler := h), size, frame[k], frame[k + 1..], nresults);
      var c := Above(frame[..k], Caught(a, e.depth));
      if a.Raises? then EvalBody(e, c.size, c.values, floor, failed) else c
  }

  function EvalBody(e: Env, size: int, frame: seq<Value>, floor: nat, body: seq<Act>): (a: Answer)
    requires EnvOK(e, size)
    ensures AnswerOK(e, a)
    decreases 2 * LUAI_MAXCALLS - e.depth, MaxCcalls() - e.ccalls, 10, SizeOf(body), 1
  {
    if body == [] then Gives(frame, size)
    else
      var a := EvalAct(e, size, frame, floor, body[0]);
      if a.Gives? then EvalBody(e, a.size, a.values, floor, body[1..]) else a
  }

  // ---------- what is below the floor ----------

  predicate Floored(a: Answer, b: Answer, frame: seq<Value>, floor: nat)
    requires floor <= |frame|
  {
    !a.Rude? ==> a == b && (a.Gives? ==> floor <= |a.values| && a.values[..floor] == frame[..floor])
  }

  /** What a run may not touch does not change, and a run that does not touch it is the same run. */
  lemma {:induction false} FloorBody(e: Env, size: int, frame: seq<Value>, floor: nat, body: seq<Act>)
    requires EnvOK(e, size) && floor <= |frame|
    ensures Floored(EvalBody(e, size, frame, floor, body), EvalBody(e, size, frame, 0, body), frame, floor)
    decreases SizeOf(body), 1
  {
    if body != [] {
      FloorAct(e, size, frame, floor, body[0]);
      hide EvalAct;
      var a := EvalAct(e, size, frame, floor, body[0]);
      if a.Gives? { FloorBody(e, a.size, a.values, floor, body[1..]); }
    }
  }

  lemma {:induction false} FloorAct(e: Env, size: int, frame: seq<Value>, floor: nat, act: Act)
    requires EnvOK(e, size) && floor <= |frame|
    ensures Floored(EvalAct(e, size, frame, floor, act), EvalAct(e, size, frame, 0, act), frame, floor)
    decreases 1 + Inner(act), 0
  {
    hide EvalBody, EvalCall, EvalEnter;
    match act
    case PCall(nargs, nresults, handler, failed) =>
      var k := |frame| - (nargs + 1);
      if Callable(frame, nargs, nresults) && handler < k && floor <= k {
        var h := if handler < 0 then None else Some(frame[handler]);
        var a := EvalCall(e.(handler := h), size, frame[k], frame[k + 1..], nresults);
        var c := Above(frame[..k], Caught(a, e.depth));
        if a.Raises? { FloorBody(e, c.size, c.values, floor, failed); }
      }
    case Branch(test, absent, present) =>
      FloorBody(e, size, frame, floor, if NilIfNone(frame, test).Nil? then absent else present);
    case _ =>
  }
}
