/** Laws of errors, handlers and limits: what calls come to in the evaluator, and so on the machine. */
module LuaErrors {
  import opened Wrappers
  import opened LuaEval

  // ---------- straight-line functions ----------

  lemma {:induction false} StraightBody(e: Env, size: int, frame: seq<Value>, body: seq<Act>, rest: seq<Act>)
    requires EnvOK(e, size) && Straight(body)
    ensures EvalBody(e, size, frame, 0, body + rest) == EvalBody(e, size, AfterBody(frame, body), 0, rest)
    decreases |body|
  {
    if body == [] {
      assert body + rest == rest;
    } else {
      assert Moves(body[0]) && (body + rest)[1..] == body[1..] + rest;
      StraightBody(e, size, AfterAct(frame, body[0]), body[1..], rest);
    }
  }

  /** There is a free frame, or the array of frames may grow. */
  predicate FrameFree(e: Env, size: int) { e.depth < size || 2 * size <= LUAI_MAXCALLS }

  /** luaD_call can run a function. */
  predicate CallFree(e: Env, size: int) {
    e.ccalls + 1 != LUAI_MAXCCALLS && e.ccalls + 1 < MaxCcalls() && FrameFree(e, size)
  }

  lemma SimpleFn(e: Env, size: int, f: Fn, args: seq<Value>, nresults: int)
    requires EnvOK(e, size) && Straight(f.body)
    ensures var a := EvalFrame(e, size);
            EvalFn(e, size, f, args, nresults)
              == if a.Gives? then Gives(Wanted(ResultsOf(f, args), nresults), a.size) else a
  {
    var a := EvalFrame(e, size);
    if a.Gives? {
      assert f.body + [] == f.body;
      StraightBody(e.(depth := e.depth + 1), a.size, FrameOf(f, args), f.body, []);
    }
    hide EvalFrame;
  }

  /** A counted call of a function, seen through the guard. */
  lemma CallIsFn(e: Env, size: int, f: Fn, args: seq<Value>, nresults: int)
    requires EnvOK(e, size) && e.ccalls + 1 < MaxCcalls()
    ensures var e1 := e.(ccalls := e.ccalls + 1);
            EvalCall(e, size, Func(f), args, nresults)
              == if e1.ccalls == LUAI_MAXCCALLS then EvalError(e1, size, Str("C stack overflow"))
                 else EvalFn(e1, size, f, args, nresults)
  {
    var e1 := e.(ccalls := e.ccalls + 1);
    hide EvalFn, EvalError;
    assert EvalEnter(e1, size, Func(f), args, nresults) == EvalFn(e1, size, f, args, nresults);
  }

  /** A straight-line function returns its results exactly if the depth guard and the frames allow the call. */
  lemma SimpleCall(e: Env, size: int, f: Value, args: seq<Value>, nresults: int)
    requires EnvOK(e, size) && Simple(f)
    ensures var a := EvalCall(e, size, f, args, nresults);
            && (a.Gives? <==> CallFree(e, size))
            && (a.Gives? ==> a.values == Wanted(ResultsOf(f.f, args), nresults))
  {
    var e1 := e.(ccalls := e.ccalls + 1);
    if e1.ccalls < MaxCcalls() {
      CallIsFn(e, size, f.f, args, nresults);
      SimpleFn(e1, size, f.f, args, nresults);
    }
    hide EvalFn, Wanted, ResultsOf, EvalError, Straight;
  }

  // ---------- handlers ----------

  /** A simple error handler that is called now can finish. If the array of frames has to overflow for it,
      it is the handler of that overflow that does. */
  predicate HandlerRuns(e: Env, size: int) {
    e.ccalls + 1 < MaxCcalls() && (FrameFree(e, size) || (size <= LUAI_MAXCALLS && e.ccalls + 2 < MaxCcalls()))
  }

  /** An error reaches a simple handler exactly if there is room for it; else it is an error in error handling.
      What the handler makes of the message is thrown. */
  lemma {:induction false} HandlerOutcome(e: Env, size: int, message: Value)
    requires EnvOK(e, size) && e.handler.Some? && Simple(e.handler.value)
    ensures var a := EvalError(e, size, message);
            && a.Raises? && (a.status == LUA_ERRRUN || a.status == LUA_ERRERR)
            && (a.status == LUA_ERRRUN <==> HandlerRuns(e, size))
            && (CallFree(e, size) ==> a.value == NilIfNone(ResultsOf(e.handler.value.f, [message]), 0))
    decreases 2 * LUAI_MAXCALLS - e.depth, MaxCcalls() - e.ccalls
  {
    var h := e.handler.value;
    SimpleCall(e, size, h, [message], 1);
    var e1 := e.(ccalls := e.ccalls + 1);
    if e1.ccalls == LUAI_MAXCCALLS {
      HandlerOutcome(e1, size, Str("C stack overflow"));
    } else if e1.ccalls < MaxCcalls() {
      SimpleFn(e1, size, h.f, [message], 1);
      if !FrameFree(e1, size) && size <= LUAI_MAXCALLS {
        HandlerOutcome(e1, 2 * size, Str("stack overflow"));
      }
    }
    hide EvalFn, Wanted, ResultsOf, Straight;
  }

  /** The overflow of the frames: the first leaves room for its handler, the second does not. */
  lemma FrameOverflow(e: Env, size: int)
    requires EnvOK(e, size) && e.handler.Some? && Simple(e.handler.value)
    ensures var a := EvalFrame(e, size);
            && (a.Gives? <==> FrameFree(e, size))
            && (!a.Gives? ==> a.Raises? && (a.status == LUA_ERRRUN || a.status == LUA_ERRERR))
            && (!a.Gives? ==> (a.status == LUA_ERRRUN <==> size <= LUAI_MAXCALLS && e.ccalls + 1 < MaxCcalls()))
  {
    if !FrameFree(e, size) && size <= LUAI_MAXCALLS { HandlerOutcome(e, 2 * size, Str("stack overflow")); }
    hide EvalError;
  }

  /** The depth guard: LUAI_MAXCCALLS leaves room for a handler, the upper limit does not. */
  lemma GuardOverflow(e: Env, size: int)
    requires EnvOK(e, size) && e.handler.Some? && Simple(e.handler.value)
    ensures var a := EvalGuard(e, size);
            && (a.Gives? <==> e.ccalls + 1 != LUAI_MAXCCALLS && e.ccalls + 1 < MaxCcalls())
            && (!a.Gives? ==> a.Raises? && (a.status == LUA_ERRRUN || a.status == LUA_ERRERR))
            && (!a.Gives? ==>
                  (a.status == LUA_ERRRUN <==>
                     e.ccalls + 1 == LUAI_MAXCCALLS && (FrameFree(e, size) || size <= LUAI_MAXCALLS)))
  {
    if e.ccalls + 1 == LUAI_MAXCCALLS {
      HandlerOutcome(e.(ccalls := e.ccalls + 1), size, Str("C stack overflow"));
    }
    hide EvalError;
  }

  // ---------- what an error leaves ----------

  /** Straight-line code and then an error, with something on the top for its message. */
  predicate RaisesIn(frame: seq<Value>, body: seq<Act>, n: nat) {
    n < |body| && Straight(body[..n]) && body[n] == Error && AfterBody(frame, body[..n]) != []
  }

  function Top(frame: seq<Value>): Value
    requires frame != []
  {
    frame[|frame| - 1]
  }

  lemma ErrorOf(e: Env, size: int, frame: seq<Value>, body: seq<Act>, n: nat)
    requires EnvOK(e, size) && RaisesIn(frame, body, n)
    ensures AfterBody(frame, body[..n]) != []
    ensures EvalBody(e, size, frame, 0, body) == EvalError(e, size, Top(AfterBody(frame, body[..n])))
  {
    assert body == body[..n] + body[n..];
    StraightBody(e, size, frame, body[..n], body[n..]);
    assert body[n..][0] == Error;
    hide AfterBody, Straight, EvalError;
  }

  /** A function that raises an error, protected without a handler, leaves the very value that it has on its
      top, and the array of frames as it was, or doubled if it was full. */
  lemma ProtectedError(e: Env, size: int, f: Fn, args: seq<Value>, nresults: int, n: nat)
    requires EnvOK(e, size) && e.handler.None? && CallFree(e, size) && RaisesIn(FrameOf(f, args), f.body, n)
    ensures var a := EvalCall(e, size, Func(f), args, nresults);
            && a.Raises? && a.status == LUA_ERRRUN && a.value == Top(AfterBody(FrameOf(f, args), f.body[..n]))
            && a.size == (if e.depth < size then size else 2 * size)
            && Caught(a, e.depth).values == [Top(AfterBody(FrameOf(f, args), f.body[..n]))]
  {
    var e1 := e.(ccalls := e.ccalls + 1);
    var a := EvalFrame(e1, size);
    CallIsFn(e, size, f, args, nresults);
    ErrorOf(e1.(depth := e1.depth + 1), a.size, FrameOf(f, args), f.body, n);
    hide FrameOf, AfterBody, Straight;
  }

  /** The same for errors that no handler sees: that of the compiler leaves its message, that of the memory its
      own. */
  lemma ProtectedThrow(e: Env, size: int, f: Fn, args: seq<Value>, nresults: int, n: nat, memory: bool)
    requires EnvOK(e, size) && CallFree(e, size)
    requires n < |f.body| && Straight(f.body[..n]) && f.body[n] == Throw(memory)
    requires AfterBody(FrameOf(f, args), f.body[..n]) != []
    ensures var a := EvalCall(e, size, Func(f), args, nresults);
            && a.Raises? && a.status == (if memory then LUA_ERRMEM else LUA_ERRSYNTAX)
            && Caught(a, e.depth).values
                 == [if memory then Str("not enough memory") else Top(AfterBody(FrameOf(f, args), f.body[..n]))]
  {
    var e1 := e.(ccalls := e.ccalls + 1);
    var a := EvalFrame(e1, size);
    CallIsFn(e, size, f, args, nresults);
    var body, frame := f.body, FrameOf(f, args);
    assert body == body[..n] + body[n..];
    StraightBody(e1.(depth := e1.depth + 1), a.size, frame, body[..n], body[n..]);
    assert body[n..][0] == Throw(memory);
    hide FrameOf, AfterBody, Straight;
  }

  /** A callable object is the first argument of its __call function. */
  lemma CallableObject(e: Env, size: int, f: Fn, args: seq<Value>, nresults: int)
    requires EnvOK(e, size) && FrameFree(e, size) && Straight(f.body)
    ensures var obj := Object(Func(f));
            var a := EvalEnter(e, size, obj, args, nresults);
            && a.Gives?
            && a.values == Wanted(Returned(AfterBody(FrameOf(f, [obj] + args), f.body), f.nret), nresults)
  {
    SimpleFn(e, size, f, [Object(Func(f))] + args, nresults);
    hide EvalFn, EvalError, Wanted, Returned, AfterBody, FrameOf, Straight;
  }

  /** After an overflow has been caught with less than LUAI_MAXCALLS frames in use, the array is back at
      LUAI_MAXCALLS, so the handler of the next overflow has its room again. */
  lemma RoomRestored(e: Env, size: int, f: Value, args: seq<Value>, nresults: int, e2: Env)
    requires EnvOK(e, size) && e.depth < 20000
    requires var a := EvalCall(e, size, f, args, nresults); a.Raises? && a.size > 20000
    requires e2.depth == 20000 && 0 <= e2.ccalls && e2.ccalls + 1 < MaxCcalls()
    requires e2.handler.Some? && Simple(e2.handler.value)
    ensures var n := Caught(EvalCall(e, size, f, args, nresults), e.depth).size;
            && n == 20000
            && var b := EvalFrame(e2, n); b.Raises? && b.status == LUA_ERRRUN
  {
    FrameOverflow(e2, 20000);
    hide EvalCall, EvalFrame, Straight;
  }

  // ---------- run errors are handled ----------

  /** v is what the handler has returned for some message. */
  ghost predicate SaidBy(h: Value, v: Value) {
    exists e: Env, size: int, message: Value :: Said(h, e, size, message, v)
  }

  predicate Said(h: Value, e: Env, size: int, message: Value, v: Value) {
    && EnvOK(e, size) && e.handler == Some(h)
    && var a := EvalCall(e, size, h, [message], 1); a.Gives? && a.values[0] == v
  }

  /** A run error has gone through the handler, if there is one, and only hooks are rude. */
  ghost predicate Handled(e: Env, floor: nat, a: Answer) {
    && (a.Raises? && a.status == LUA_ERRRUN && e.handler.Some? ==> SaidBy(e.handler.value, a.value))
    && (!e.hooks && floor == 0 ==> !a.Rude?)
  }

  lemma {:induction false} ErrorHandled(e: Env, size: int, message: Value)
    requires EnvOK(e, size)
    ensures Handled(e, 0, EvalError(e, size, message))
    decreases 2 * LUAI_MAXCALLS - e.depth, MaxCcalls() - e.ccalls, 2
  {
    if e.handler.Some? && e.handler.value.Func? {
      var h := e.handler.value;
      CallHandled(e, size, h, [message], 1);
      hide EvalCall;
      var a := EvalCall(e, size, h, [message], 1);
      if a.Gives? { assert Said(h, e, size, message, a.values[0]); }
    }
  }

  lemma {:induction false} FrameHandled(e: Env, size: int)
    requires EnvOK(e, size)
    ensures Handled(e, 0, EvalFrame(e, size))
    decreases 2 * LUAI_MAXCALLS - e.depth, MaxCcalls() - e.ccalls, 4
  {
    if e.depth >= size && size <= LUAI_MAXCALLS < 2 * size { ErrorHandled(e, 2 * size, Str("stack overflow")); }
    hide EvalError;
  }

  lemma {:induction false} FnHandled(e: Env, size: int, f: Fn, args: seq<Value>, nresults: int)
    requires EnvOK(e, size)
    ensures Handled(e, 0, EvalFn(e, size, f, args, nresults))
    decreases 2 * LUAI_MAXCALLS - e.depth, MaxCcalls() - e.ccalls, 5
  {
    FrameHandled(e, size);
    hide EvalFrame, EvalBody;
    var a := EvalFrame(e, size);
    if a.Gives? { BodyHandled(e.(depth := e.depth + 1), a.size, FrameOf(f, args), 0, f.body); }
  }

  lemma {:induction false} EnterHandled(e: Env, size: int, f: Value, args: seq<Value>, nresults: int)
    requires EnvOK(e, size)
    ensures Handled(e, 0, EvalEnter(e, size, f, args, nresults))
    decreases 2 * LUAI_MAXCALLS - e.depth, MaxCcalls() - e.ccalls, 6
  {
    if f.Func? {
      FnHandled(e, size, f.f, args, nresults);
    } else if f.Object? && f.call.Func? {
      FnHandled(e, size, f.call.f, [f] + args, nresults);
    } else {
      ErrorHandled(e, size, Str("attempt to call"));
    }
    hide EvalFn, EvalError;
  }

  lemma {:induction false} CallHandled(e: Env, size: int, f: Value, args: seq<Value>, nresults: int)
    requires EnvOK(e, size)
    ensures Handled(e, 0, EvalCall(e, size, f, args, nresults))
    decreases 2 * LUAI_MAXCALLS - e.depth, MaxCcalls() - e.ccalls, 1
  {
    var e1 := e.(ccalls := e.ccalls + 1);
    if e1.ccalls == LUAI_MAXCCALLS {
      ErrorHandled(e1, size, Str("C stack overflow"));
    } else if e1.ccalls < MaxCcalls() {
      EnterHandled(e1, size, f, args, nresults);
    }
    hide EvalEnter, EvalError;
  }

  lemma {:induction false} ActHandled(e: Env, size: int, frame: seq<Value>, floor: nat, act: Act)
    requires EnvOK(e, size)
    ensures Handled(e, floor, EvalAct(e, size, frame, floor, act))
    decreases 2 * LUAI_MAXCALLS - e.depth, MaxCcalls() - e.ccalls, 10, 1 + Inner(act), 0
  {
    hide EvalBody, EvalCall, EvalEnter, EvalError;
    match act
    case Call(nargs, nresults) =>
      var k := |frame| - (nargs + 1);
      if k >= 0 {
        CallHandled(e, size, frame[k], frame[k + 1..], nresults);
        assert EvalAt(e, size, frame[k], frame[k + 1..], nresults, true)
            == EvalCall(e, size, frame[k], frame[k + 1..], nresults);
      }
    case Enter(nargs, nresults) =>
      var k := |frame| - (nargs + 1);
      if k >= 0 {
        EnterHandled(e, size, frame[k], frame[k + 1..], nresults);
        assert EvalAt(e, size, frame[k], frame[k + 1..], nresults, false)
            == EvalEnter(e, size, frame[k], frame[k + 1..], nresults);
      }
    case PCall(nargs, nresults, handler, failed) =>
      var k := |frame| - (nargs + 1);
      if Callable(frame, nargs, nresults) && handler < k {
        var h := if handler < 0 then None else Some(frame[handler]);
        var a := EvalCall(e.(handler := h), size, frame[k], frame[k + 1..], nresults);
        var c := Above(frame[..k], Caught(a, e.depth));
        CallHandled(e.(handler := h), size, frame[k], frame[k + 1..], nresults);
        if a.Raises? { BodyHandled(e, c.size, c.values, floor, failed); }
      }
    case Error => if frame != [] { ErrorHandled(e, size, frame[|frame| - 1]); }
    case Hook(hook) => BodyHandled(e.(hooks := false), size, frame, |frame|, hook);
    case Branch(test, absent, present) =>
      BodyHandled(e, size, frame, floor, if NilIfNone(frame, test).Nil? then absent else present);
    case _ =>
  }

  /** Whatever a function does, calls or protects: a run error that leaves it carries what the handler in force
      has returned; and while no hook runs there is always an answer. */
  lemma {:induction false} BodyHandled(e: Env, size: int, frame: seq<Value>, floor: nat, body: seq<Act>)
    requires EnvOK(e, size)
    ensures Handled(e, floor, EvalBody(e, size, frame, floor, body))
    decreases 2 * LUAI_MAXCALLS - e.depth, MaxCcalls() - e.ccalls, 10, SizeOf(body), 1
  {
    if body != [] {
      ActHandled(e, size, frame, floor, body[0]);
      hide EvalAct;
      var a := EvalAct(e, size, frame, floor, body[0]);
      if a.Gives? { BodyHandled(e, a.size, a.values, floor, body[1..]); }
    }
  }

  /** A handler that raises an error itself, whatever the message. */
  predicate Failing(h: Option<Value>, n: nat, message: Value) {
    h.Some? && h.value.Func? && RaisesIn(FrameOf(h.value.f, [message]), h.value.f.body, n)
  }

  predicate IsErrErr(a: Answer) { a.Raises? && a.status == LUA_ERRERR }

  lemma {:induction false} FailingFn(e: Env, size: int, message: Value, n: nat)
    requires EnvOK(e, size) && forall m :: Failing(e.handler, n, m)
    ensures Failing(e.handler, n, message) && IsErrErr(EvalFn(e, size, e.handler.value.f, [message], 1))
    decreases 2 * LUAI_MAXCALLS - e.depth, MaxCcalls() - e.ccalls, 3
  {
    assert Failing(e.handler, n, message);
    var f, a := e.handler.value.f, EvalFrame(e, size);
    if a.Gives? {
      var e1, frame := e.(depth := e.depth + 1), FrameOf(f, [message]);
      ErrorOf(e1, a.size, frame, f.body, n);
      FailingHandler(e1, a.size, Top(AfterBody(frame, f.body[..n])), n);
    } else if size <= LUAI_MAXCALLS {
      FailingHandler(e, 2 * size, Str("stack overflow"), n);
    }
    hide EvalError, Failing, FrameOf, AfterBody;
  }

  /** A handler that always fails is called again for its own errors until a limit is reached, so every error
      that it is to handle becomes an error in error handling. */
  lemma {:induction false} FailingHandler(e: Env, size: int, message: Value, n: nat)
    requires EnvOK(e, size) && forall m :: Failing(e.handler, n, m)
    ensures IsErrErr(EvalError(e, size, message))
    decreases 2 * LUAI_MAXCALLS - e.depth, MaxCcalls() - e.ccalls, 2
  {
    assert Failing(e.handler, n, message);
    var f, e1 := e.handler.value.f, e.(ccalls := e.ccalls + 1);
    hide Failing, EvalFn;
    if e1.ccalls < MaxCcalls() {
      CallIsFn(e, size, f, [message], 1);
      if e1.ccalls == LUAI_MAXCCALLS {
        FailingHandler(e1, size, Str("C stack overflow"), n);
      } else {
        FailingFn(e1, size, message, n);
      }
    } else {
      assert EvalGuard(e, size) == Raises(LUA_ERRERR, Nil, size);
    }
  }
}
