# Verified models of a game server's core

This project models, in Dafny 4.11, the parts of the repository with the most intricate logic, and proves
what they are for. Everything is stated for all inputs, runs or reachable states; nothing was executed.

- **The Lua 5.1.4 code generator** (`common/lua/src/lcode.c`). `LuaValues` gives expressions their meaning
  (section 2.5 of the Lua 5.1 Reference Manual), including the order of every operation that may run a
  metamethod; `LuaOpcodes` the instructions and the machine (`lvm.c`). `LuaGen` is the generator on values,
  with a jump list as a sequence of nodes. `LuaRun` to `LuaCorrect` prove that what it generates means what
  the expression means: unfinished code is run up to its pending exits, and every generator function is
  related to what it does to these runs. `LuaProgram` turns this into theorems about the machine.
  `LuaFuncState` is the generator as the source writes it, a state changed in place with lists threaded
  through the offsets of the pending jumps; each method is proved against the function of `LuaGen`, and a
  set of all pending lists is accounted for, so that none is lost, shared or cyclic. `LuaParser` drives it
  over whole expressions. One branch of the source is wrong: an always-taken jump for a constant operand
  joins held-back jumps that carry values. `LuaAlways` gives the exact condition for runs through that
  branch, and expressions whose code is wrong, with the exact inputs. `LuaHeld` follows on the text of an
  expression which jumps carry values and where they are held back, and `LuaClean` proves that this text
  analysis says exactly when generation meets the wrong case; `LuaHarmless` shows that a lost constant need
  not be missed. `LuaStack` follows the registers that instructions name and the limits of the source: they lie
  below the stack size of the emitted function, and generation fails only at a limit. `LuaFold` is constant
  folding on whole expressions.
- **The bytecode checker** (`ldebug.c`): `LuaBytecode` decodes 32-bit instructions and says where the machine
  may go next, `LuaDebug` is the checker, `LuaSafety` what acceptance guarantees. LOADBOOL is checked for
  skip flag 1 while the machine skips for any flag but 0; the gap is characterised exactly. `LuaFrame` relates
  the operands that are checked to those that the machine uses: TFORLOOP copies three values above its control
  variables, for which the checker does not ask room. `LuaAccept` says exactly which functions are accepted, in
  terms of what the machine does with them.
- **The call machinery** (`ldo.c`): `LuaEval` says what nested calls, protected calls, errors, error handlers,
  callable objects and hooks come to: a function of the values in a frame, without stack and jumps, where an
  error is an answer. `LuaDo` is the machine of the source over one stack, on which a longjmp is an outcome that
  every method passes on to the handler that installed its target; each method is proved to come to the answer
  of `LuaEval`, values, errors and limits included. Functions are values on the stack and may call themselves
  through it; all runs terminate because the depth limits hold. `LuaErrors` proves on the answers what error
  handlers and limits are for.
- **The Mersenne Twister** (`common/Random.cpp`): `Random`, with its word operations in `MersenneBits`. The
  recurrence is the mersenne_twister_engine of section 26.5.3.2 of ISO/IEC 14882:2011 with the parameters of
  mt19937; the operations are described bit by bit, and known terms are proved.
- **References and string buffers** (`lauxlib.c`): `LuaRefs`, `LuaBuffer`.
- **CRC16** (`common/tool.cpp`): `Crc16`, with division of polynomials over two elements as the reference
  (Appendix A of the Redis Cluster Specification).
- **The cluster client** (`my_cluster/`): `RedisClient` is the command queue, `RedisSlots` the printer of
  replies and the parser of the slot table.

`dafny verify dfyconfig.toml` checks everything.

## Model

Paths are relative to the repository's root.

| member | source | states |
|---|---|---|
| LuaRun.Compose | common/lua/src/lvm.c:537-581 | unfinished code extended or patched at its end runs as the old code does, and goes on in the new from every point where the old fell off or had a pending jump patched; expression code never loops |
| LuaEmit.DischargedRun | common/lua/src/lcode.c:163-166 | when the held-back jumps are sent to the next position, every run that had left by one of them goes on there, and all others are as before |
| LuaEmit.JumpView | common/lua/src/lcode.c:59-66 | an always-taken jump takes over the jumps that were held: control leaves by the new list from here, and by the old exits as before |
| LuaEmit.ToHereView | common/lua/src/lcode.c:179-182 | luaK_patchtohere: whoever left by the list is here again, with the same registers; whoever left by another exit is where he was |
| LuaDischarge.NilsView | common/lua/src/lcode.c:35-56 | LOADNIL skipped at function start, merged into the previous one, or coded: on every path the n registers hold nil, all others what they held, and no other exit changes |
| LuaDischarge.DischargeVarsRep | common/lua/src/lcode.c:304-334 | discharging a variable keeps the descriptor standing for its expression, frees index registers from the top, and keeps both jump lists |
| LuaClose.CloseView | common/lua/src/lcode.c:397-407 | closing the lists of exits: fall-through keeps the value, every exit with a value stores it, every other exit gets false or true from the LOADBOOL pair, all in the target register |
| LuaToReg.Exp2RegRep | common/lua/src/lcode.c:390-411 | exp2reg leaves in the given register exactly the value of the expression, whatever mixture of exits it had, and changes no other register in use |
| LuaToReg.Exp2NextRegRep | common/lua/src/lcode.c:414-419 | the value goes to the first free register, and exactly that one register is taken |
| LuaToReg.Exp2AnyRegRep | common/lua/src/lcode.c:422-433 | some register holds the value: the one it is already in when no jump is pending, a temporary of its own, or a new one |
| LuaToReg.Exp2RKRep | common/lua/src/lcode.c:444-469 | an operand: a constant index below the limit, or a register, standing for the expression |
| LuaCond.DecideBranch | common/lua/src/lcode.c:542-560 | going on only if an operand is true (or false): here its truth is as asked, the exits carry its value or none |
| LuaCond.GoIfRep | common/lua/src/lcode.c:539-591 | luaK_goiftrue and luaK_goiffalse as a whole, with the other list patched to here |
| LuaNot.CodeNotRep | common/lua/src/lcode.c:594-626 | codenot: the negated expression, with the two lists exchanged and no exit carrying a value any more |
| LuaBinary.FoldRep | common/lua/src/lcode.c:635-658 | two numerals are folded to what the machine would compute from them; a division by zero and an operation that gives NaN are not folded |
| LuaFold.NumberFolds | common/lua/src/lcode.c:635-658 | an expression of numerals, arithmetic, minus and parentheses is folded to its number without code, in every generator state |
| LuaFold.NotFolded | common/lua/src/lcode.c:645-655 | a division or modulo by zero, and an operation that gives NaN, is left to the machine |
| LuaBinary.CodeArithRep | common/lua/src/lcode.c:661-678 | codearith evaluates left then right and frees both operands in stack order |
| LuaOperators.CodeCompRep | common/lua/src/lcode.c:681-694 | codecomp: the jump is taken exactly when the comparison holds, with operands exchanged for > and >= |
| LuaOperators.LogicRep | common/lua/src/lcode.c:747-759 | and/or: the exits of the left operand join those of the right one, and the result is the left value or the right one |
| LuaOperators.PosConcatRep | common/lua/src/lcode.c:760-773 | a chain of .. is one CONCAT over consecutive registers; widening it keeps right-to-left evaluation and meaning |
| LuaOperators.PrefixRep | common/lua/src/lcode.c:697-715 | unary minus, not, and length |
| LuaCorrect.CompileRep | common/lua/src/lparser.c:828-853 | for every expression, generator state and entry point: registers, jump lists and pending code are in order and no pending jump of others is touched; if generation is clean, descriptor and code stand for the expression: same value, same events in the same order, no active local changed |
| LuaProgram.ReturnCorrect | common/lua/src/lparser.c:1238-1268 | the machine run from pc 0 reaches the RETURN with the value of the expression in the returned register, after the same events, all locals unchanged |
| LuaProgram.StoreLocalCorrect | common/lua/src/lcode.c:472-479 | storing into a local: it gets the value the expression had before the assignment, every other register in use keeps its own |
| LuaRegisters.NextRegisterOnly | common/lua/src/lcode.c:215-226 | for every expression and generator state, clean or not, registers are a stack: the assertion of freereg never fails, no active local is freed, and compiling to the next register takes exactly one |
| LuaAlways.AlwaysJumpExact | common/lua/src/lcode.c:547-550 | on every run from every entry point, control leaves by the jump coded for a constant operand with that constant, registers unchanged, if and only if no held-back jump carries a value |
| LuaHeld.BranchFits | common/lua/src/lcode.c:539-591 | from what is known of an operand without its code, luaK_goiftrue and luaK_goiffalse leave the list that is foreseen and hold back a jump with a value exactly if foreseen |
| LuaClean.CompileFits | common/lua/src/lparser.c:828-853 | from every generator state, what an expression leaves (kind of descriptor, which lists have jumps with values, what is held back) is what the analysis of its text says, as long as nothing is lost |
| LuaClean.CleanExact | common/lua/src/lcode.c:539-591 | generation loses no constant if the text analysis says so, and, when all constants fit in operands, only then |
| LuaClean.ReturnsIfLosesNothing | common/lua/src/lcode.c:539-591 | a condition on the source text alone under which `return x` returns the value of x in every world |
| LuaAlways.LostLocalWrong | common/lua/src/lcode.c:545-561 | for all locals x, y, z the code of ((x or y) and true) or z returns x where x is true; its result is right if and only if x is false, nil or `true` |
| LuaAlways.LostConstantWrong | common/lua/src/lcode.c:545-561 | ((1 or false) and true) or false: generation succeeds, the value is true, and the code returns 1 |
| LuaHarmless.LostConstantHarmless | common/lua/src/lcode.c:594-626 | for all locals x, y and z the code of `return not (((x or y) and true) or z)` is right, although the constant is lost there too: codenot drops the values that the jumps carry |
| LuaLists.GetJumpThreaded | common/lua/src/lcode.c:100-106 | following the threads of a list visits its nodes in order; -1 marks only its end |
| LuaLists.ThreadedJoin | common/lua/src/lcode.c:185-196 | writing one link makes one list of two disjoint ones |
| LuaLists.PatchLive | common/lua/src/lcode.c:150-160 | patching a list leaves every other list threaded, disjoint and pending, and no pending jump without a list |
| LuaLists.AllResolved | common/lua/src/lcode.c:150-160 | when no list is left, the code with threads in it is the code without |
| LuaFuncState.FuncState.FixJump | common/lua/src/lcode.c:80-87 | the offset is relative to the next instruction; out of range is the error |
| LuaFuncState.FuncState.Concat | common/lua/src/lcode.c:185-196 | the joined list is the first followed by the second, found by walking the first to its end; all other lists stay |
| LuaFuncState.FuncState.PatchTestReg | common/lua/src/lcode.c:131-141 | a TESTSET before the jump gets the register, or becomes a TEST when there is nothing to store; nothing else changes |
| LuaFuncState.FuncState.PatchListAux | common/lua/src/lcode.c:150-160 | every node goes to the value target if its control was TESTSET and to the default target otherwise; every other instruction is unchanged |
| LuaFuncState.FuncState.DischargeJpc | common/lua/src/lcode.c:163-166 | the held-back list is patched to the next position and is empty |
| LuaFuncState.FuncState.Code | common/lua/src/lcode.c:797-809 | the held-back jumps go to the new instruction, which is added at the end |
| LuaFuncState.FuncState.PatchToHere | common/lua/src/lcode.c:179-182 | the list joins the held-back one and the position is marked as a target |
| LuaFuncState.FuncState.Jump | common/lua/src/lcode.c:59-66 | a new pending jump, followed by the jumps that were held back |
| LuaFuncState.FuncState.CondJump | common/lua/src/lcode.c:74-77 | a test and the pending jump after it |
| LuaFuncState.FuncState.NeedValue | common/lua/src/lcode.c:122-128 | whether some jump of the list carries no value, by walking it |
| LuaFuncState.FuncState.RemoveValues | common/lua/src/lcode.c:144-147 | every TESTSET that controls a jump of the list becomes a TEST; links and lists stay |
| LuaFuncState.FuncState.ReserveRegs | common/lua/src/lcode.c:199-212 | the register count, the highest count so far, and the limit, as the value-level function has them |
| LuaStack.HighMark | common/lua/src/lcode.c:199-212 | the stack size never falls, is at least the new register count, and is no larger than it or the old one |
| LuaStack.CompileNext | common/lua/src/lparser.c:828-853 | for every expression and generator state: the stack size never falls, every register named so far lies below it, no constant is in the table twice, and generation fails only at a limit |
| LuaStack.StackFits | common/lua/src/lcode.c:199-206 | unless generation failed, the stack size of a function `return x` is from 2, or the number of parameters, to 249, and above every register that its instructions name |
| LuaStack.SucceedsIff | common/lua/src/lcode.c:199-247 | for code of at most 131070 instructions generation succeeds if and only if fewer than 250 registers and at most 262143 constants are needed |
| LuaFuncState.FuncState.AddK | common/lua/src/lcode.c:229-247 | the index of the constant, added at the end if it was not in the table |
| LuaFuncState.FuncState.Nils | common/lua/src/lcode.c:35-56 | the skipping and widening of LOADNIL, in place |
| LuaFuncState.FuncState.DischargeVars | common/lua/src/lcode.c:304-334 | a variable becomes a register or a relocatable instruction; its lists stay |
| LuaFuncState.FuncState.Discharge2Reg | common/lua/src/lcode.c:343-379 | the value goes to the register, unless it is a jump |
| LuaFuncState.FuncState.CloseLists | common/lua/src/lcode.c:394-407 | the LOADBOOL pair only if some exit has no value; both lists are patched and gone |
| LuaFuncState.FuncState.Exp2Reg | common/lua/src/lcode.c:390-411 | as the value-level function does it; the descriptor holds no list any more |
| LuaFuncState.FuncState.Exp2NextReg | common/lua/src/lcode.c:414-419 | discharge, free, reserve one, close |
| LuaFuncState.FuncState.Exp2AnyReg | common/lua/src/lcode.c:422-433 | the three ways to a register |
| LuaFuncState.FuncState.Exp2RK | common/lua/src/lcode.c:444-469 | the operand, with constants added to the table while there is room |
| LuaFuncState.FuncState.StoreLocal | common/lua/src/lcode.c:472-479 | free the temporary, close into the local |
| LuaFuncState.FuncState.InvertJump | common/lua/src/lcode.c:516-521 | the comparison before the jump is inverted, nothing else |
| LuaFuncState.FuncState.JumpOnCond | common/lua/src/lcode.c:524-536 | a NOT is taken back and tested the other way; otherwise TESTSET without a register |
| LuaFuncState.FuncState.GoIf | common/lua/src/lcode.c:539-591 | luaK_goiftrue and luaK_goiffalse: the last jump joins the exits, the other list goes on here |
| LuaFuncState.FuncState.CodeNot | common/lua/src/lcode.c:594-626 | the negation, with lists exchanged and stripped of values |
| LuaFuncState.FuncState.CodeArith | common/lua/src/lcode.c:661-678 | folded, or coded with both operands freed |
| LuaFuncState.FuncState.CodeComp | common/lua/src/lcode.c:681-694 | the comparison and its pending jump |
| LuaFuncState.FuncState.Prefix | common/lua/src/lcode.c:697-715 | the three unary operators |
| LuaFuncState.FuncState.Infix | common/lua/src/lcode.c:718-742 | what is coded after the left operand; only and/or leave lists behind |
| LuaFuncState.FuncState.PosConcat | common/lua/src/lcode.c:760-773 | the CONCAT of the right operand is widened in place, or a new one is coded |
| LuaFuncState.FuncState.Posfix | common/lua/src/lcode.c:745-789 | what is coded after the right operand |
| LuaParser.Subexpr | common/lua/src/lparser.c:828-853 | the imperative generator computes what the value-level one does, for every expression and state; it accounts for every pending list, and others keep theirs |
| LuaParser.ReturnExpr | common/lua/src/lparser.c:1257-1267 | for every expression: if generation succeeds, no pending jump is left and every register that an instruction names lies below the stack size of the function; if it is clean too, the emitted code, run from pc 0 in any world, returns the value of the expression |
| LuaDebug.EvenIffBoundary | common/lua/src/ldebug.c:349-362 | the run of look-alikes before a position has even length exactly when linear decoding starts an instruction there |
| LuaDebug.JumpsToInstruction | common/lua/src/ldebug.c:349-362 | the backward loop decides whether the target is an instruction |
| LuaDebug.CheckOperands | common/lua/src/ldebug.c:329-365 | operands fit their modes, and jump targets are instructions of the function |
| LuaDebug.Execute | common/lua/src/ldebug.c:373-472 | the checks of the switch, where it leaves pc, and what it takes for the last change |
| LuaDebug.Symbexec | common/lua/src/ldebug.c:317-474 | for every limit and register: nothing if some check fails, otherwise the position of the last change the scan sees |
| LuaSafety.ScanAll | common/lua/src/ldebug.c:317-474 | following no register, the scan succeeds exactly if every instruction found by linear decoding passes |
| LuaSafety.CheckCode | common/lua/src/ldebug.c:484-486 | luaG_checkcode is true exactly for acceptable functions, although it tests an instruction for zero; which these are is said by LuaAccept.AcceptsIff |
| LuaSafety.StepInside | common/lua/src/lvm.c:402-761 | one step from an accepted instruction stays inside the function exactly if it is not a LOADBOOL with a flag above 1 that skips wrongly |
| LuaSafety.RunsInside | common/lua/src/ldebug.c:343-381 | every run of an accepted function from pc 0 visits only instructions in range, never the count word of a SETLIST |
| LuaSafety.ClosedIffSkipsOK | common/lua/src/ldebug.c:374-381 | for an accepted function, single steps stay inside if and only if LOADBOOLs with a flag above 1 pass the check that is made for flag 1 |
| LuaSafety.InsideIffReachedSkipsOK | common/lua/src/ldebug.c:374-381 | for an accepted function, all runs stay on its instructions if and only if every LOADBOOL that some run comes to skips an instruction of the function |
| LuaSafety.StopsOnlyAtReturn | common/lua/src/ldebug.c:283 | an accepted function has a next instruction everywhere but at a RETURN |
| LuaSafety.StrangeLoadBool | common/lua/src/ldebug.c:375 | a function that is accepted and whose run reaches a count word, by a LOADBOOL with flag 2 |
| LuaSafety.TracingSucceeds | common/lua/src/ldebug.c:366-368 | following a register in an accepted function never fails, looks at instructions only, and yields the last visited one that may change the register |
| LuaFrame.OperandsInside | common/lua/src/lvm.c:402-761 | every register, constant, name and upvalue that the machine uses for an accepted instruction is there; registers lie inside the frame if and only if the instruction is no TFORLOOP without room for three values, and never more than two slots above it |
| LuaFrame.CapturesInside | common/lua/src/lvm.c:719-738 | what a new closure captures is a register of the frame or an upvalue of the function |
| LuaFrame.RunsInFrame | common/lua/src/ldebug.c:317-474 | on every run of an accepted function all operands are there, and all registers lie inside the frame if and only if every TFORLOOP that some run comes to has room for the three values |
| LuaFrame.LoopAboveFrame | common/lua/src/lvm.c:677-682 | a function that is accepted and whose run writes a slot above its frame |
| LuaFrame.ChangesIff | common/lua/src/ldebug.c:366-432 | what tracing takes for a change of a register is what the machine may write, with the exceptions listed |
| LuaAccept.HeaderIff | common/lua/src/ldebug.c:276-285 | what is checked of the header of a function, written out with its limits |
| LuaAccept.AcceptsIff | common/lua/src/ldebug.c:317-486 | a function is accepted if and only if its header is correct and so is every instruction: what the machine uses for it is there, control goes on inside, tests, closures and open calls are followed by what they need, unused operands are 0, and what the checker asks beyond that |
| LuaEval.FloorBody | common/lua/src/ldo.c:181-205 | a run that is not to touch the lower values of its frame, as a hook is, leaves them as they are, or nothing is said of it |
| LuaEval.FrameSlots | common/lua/src/ldo.c:273-298 | the frame of a Lua function holds its parameters in order, nil for those not passed, and nil in the other registers |
| LuaEval.ReturnedLast | common/lua/src/ldo.c:320-326 | a function returns the last values of its frame, all if there are fewer |
| LuaErrors.SimpleCall | common/lua/src/ldo.c:369-380 | a straight-line function returns its results, cut or padded, if and only if the depth guard and the frames allow the call |
| LuaErrors.HandlerOutcome | common/lua/src/ldebug.c:618-628 | an error comes to a straight-line handler (LUA_ERRRUN, with its result as the value) if and only if there is room for the call of the handler; otherwise it is an error in error handling |
| LuaErrors.FrameOverflow | common/lua/src/ldo.c:169-178 | a straight-line handler of an overflow of the frames has run if and only if it is the first overflow and the C depth allows a call |
| LuaErrors.GuardOverflow | common/lua/src/ldo.c:369-376 | at LUAI_MAXCCALLS a straight-line handler has run unless the frames have overflowed twice; at the upper limit it is an error in error handling |
| LuaErrors.ProtectedError | common/lua/src/ldo.c:455-477 | without a handler a protected function that raises an error leaves the very value that was on its top |
| LuaErrors.ProtectedThrow | common/lua/src/ldo.c:51-68 | an error of the compiler leaves its message, an error of the memory its own text |
| LuaErrors.CallableObject | common/lua/src/ldo.c:243-256 | a callable object is the first argument of its `__call` function |
| LuaErrors.RoomRestored | common/lua/src/ldo.c:71-78 | after an overflow has been caught with fewer than 20000 frames in use, the array is back at 20000 frames, and a handler of the next overflow runs again |
| LuaErrors.BodyHandled | common/lua/src/ldebug.c:618-628 | whatever a function does, calls or protects, a run error that leaves it carries what the handler in force has returned for some message; and while no hook runs there is always an answer |
| LuaErrors.FailingHandler | common/lua/src/ldo.c:369-376 | a handler that always fails is called for its own errors until a limit is reached, and every error it is to handle becomes LUA_ERRERR |
| LuaDo.LuaState.CheckStack | common/lua/src/ldo.h:16-19 | room for n more slots above the top; the contents stay, whatever the new slots hold |
| LuaDo.LuaState.SetErrorObj | common/lua/src/ldo.c:51-68 | the error object at the old top, which becomes the slot below the top |
| LuaDo.LuaState.Throw | common/lua/src/ldo.c:94-108 | a jump to the innermost handler, or the end of the program without one |
| LuaDo.LuaState.ErrorMsg | common/lua/src/ldebug.c:618-628 | the error is thrown to the innermost protected call with the status and the value that it comes to: the message, what the error function makes of it, or the error that the run of the error function ends in |
| LuaDo.LuaState.IncCI | common/lua/src/ldo.c:169-178 | room for one more frame, or an error exactly when the array is full and doubling it passes the limit, with the status, value and array size that the overflow comes to |
| LuaDo.LuaState.AdjustVarargs | common/lua/src/ldo.c:208-240 | fixed parameters in order at the new base, missing ones nil, extra arguments in order below it, all below the arguments unchanged |
| LuaDo.LuaState.EnterLua | common/lua/src/ldo.c:273-304 | slot by slot: each parameter is the argument passed for it, or nil; every other register up to the frame's top is nil; a vararg function has its extra arguments where they were, below the base |
| LuaDo.LuaState.MoveResults | common/lua/src/ldo.c:353-357 | the forward copy onto an overlapping lower place, cut or nil-padded to the wanted count; everything below unchanged |
| LuaDo.LuaState.PosCall | common/lua/src/ldo.c:342-360 | the frame is gone, base is the caller's, at the function's slot stand all results, or as many as are wanted with nil for those missing, and nothing below changes |
| LuaDo.LuaState.RunCall | common/lua/src/ldo.c:243-328 | a call, whatever its function does, returns with the caller's frames and depth and exactly the results it comes to, or jumps to the innermost handler with exactly that error; a callable object becomes the first argument of its `__call` function |
| LuaDo.LuaState.OpenHole | common/lua/src/ldo.c:243-256 | the backward copy opens a hole at the object: the function is in it, the object and the arguments follow in order, all below is unchanged |
| LuaDo.LuaState.CountCall | common/lua/src/ldo.c:369-376 | the depth guard: an error exactly at LUAI_MAXCCALLS and at the upper limit, with the status and value it comes to |
| LuaDo.LuaState.Call | common/lua/src/ldo.c:369-380 | the C depth never exceeds LUAI_MAXCCALLS and an eighth of it and is back after the call; for every function the call gives exactly the results, or the error, that it comes to |
| LuaDo.LuaState.RawRunProtected | common/lua/src/ldo.c:111-121 | it catches exactly the jumps that are aimed at it and restores the handler chain; its status, the results, the thrown value on the top and the size of the frame array are those that the call comes to |
| LuaDo.LuaState.RestoreStackLimit | common/lua/src/ldo.c:71-78 | an overflowed frame array shrinks as soon as enough frames are free, never below those in use |
| LuaDo.LuaState.PCall | common/lua/src/ldo.c:455-477 | a transaction: for every function and everything it calls, protects or throws, the handler chain, errfunc, frames, base, allowhook and C depth afterwards are those before, and all below the function is unchanged; in its place are exactly the results of the call, or the one object of the error that the call comes to, and the status says which |
| LuaDo.LuaState.CallHook | common/lua/src/ldo.c:181-205 | inside a hook no hook runs and nothing changes; otherwise top and allowhook are restored, and the frame is what it was, or the error is that of the hook |
| LuaDo.LuaState.Exec | common/lua/src/lvm.c:582-650 | every run of a function body comes to the answer of the evaluator: the frame it leaves or the error, the size of the frame array, under the depth limits, by which it terminates even if functions call themselves through the stack |
| Random.RandomMersenne.Init0 | common/Random.cpp:94-107 | the array holds the initial words of the seed, and the next output is term 624 |
| Random.RandomMersenne.RandomInit | common/Random.cpp:109-115 | the first 37 outputs are discarded |
| Random.RandomMersenne.Refill | common/Random.cpp:150-168 | in place, two loops and a wrap step produce the next 624 terms of the recurrence, though they read words already replaced |
| Random.RandomMersenne.BRandom | common/Random.cpp:146-181 | the k-th output after Init0 is the tempered k-th term of the recurrence, for every seed and k |
| MersenneBits.TwistBits | common/Random.cpp:157-159 | every bit of a new word: that of the word 397 places on, the next higher bit of the joined word, and, if that is odd, the bit of the constant a |
| Random.TermBits | common/Random.cpp:150-168 | every bit of every term from 624 on, from the terms 624, 623 and 227 places before |
| MersenneBits.TemperBits | common/Random.cpp:174-177 | the four steps of tempering in their order, each bit by bit, with the shifts and masks of mt19937 |
| Random.ScrambleBits | common/Random.cpp:101-106 | a word of the initial state from the one before it: the two highest bits added to the lowest without carry, times f, plus the index |
| Random.KnownTerms | common/Random.cpp:101-181 | the seed 5489 gives the words 1301868182 and 2938499221, and a state with the known words at 0, 1 and 397 the first output 3499211612 |
| Random.RandomMersenne.IRandomX | common/Random.cpp:220-250 | the cached limit is that of the current interval; the words before the last are rejected, the last is accepted, and the result is min plus its high part, within min..max |
| MersenneBits.TemperInvertible | common/Random.cpp:174-177 | tempering is a bijection on words |
| Random.LimitIs | common/Random.cpp:236-240 | the limit with its wrap-around is one less than the largest multiple of the interval up to 2^32, powers of two included |
| Random.ValueIff | common/Random.cpp:242-247 | the accepted words of a value are one unbroken run of known start and length |
| Random.ExactlyUniform | common/Random.cpp:220-250 | every value of the interval is given by exactly floor(2^32 / interval) accepted words |
| Random.HalfAccepted | common/Random.cpp:236-246 | more than half of all words are accepted for every interval of positive ints |
| LuaRefs.OneBorder | common/lua/src/lauxlib.c:496 | where the length is consulted there is no hole, so any border it may return is the same |
| LuaRefs.Reuse | common/lua/src/lauxlib.c:491-494 | taking the first free slot keeps the chain and every live value |
| LuaRefs.Release | common/lua/src/lauxlib.c:504-511 | a released slot becomes the head of an acyclic chain |
| LuaRefs.RefTable.Ref | common/lua/src/lauxlib.c:481-501 | over every sequence of operations: a positive reference that was not live, all live ones keep their values, and a new slot only when all are live |
| LuaRefs.RefTable.Unref | common/lua/src/lauxlib.c:504-512 | exactly that reference is no longer live; negative ones do nothing |
| LuaRefs.RefTable.Lookup | common/lua/src/lauxlib.c:481-501 | a live reference gives back its value |
| LuaBuffer.ConcatMerged | common/lua/src/lauxlib.c:423 | merging the last pieces leaves the whole text as it was |
| LuaBuffer.Buffer.AdjustStack | common/lua/src/lauxlib.c:410-426 | it joins the last pieces exactly while there are too many or they are longer than the one below; the text stays, and fewer than LIMIT pieces are left |
| LuaBuffer.Buffer.AddChar | common/lua/src/lauxlib.h:136-138 | one character is added; a full buffer becomes a piece first |
| LuaBuffer.Buffer.AddLString | common/lua/src/lauxlib.c:436-439 | the string is added |
| LuaBuffer.Buffer.AddValue | common/lua/src/lauxlib.c:454-469 | the value on the stack is added after what the buffer holds, copied if it fits |
| LuaBuffer.Buffer.PushPiece | common/lua/src/lauxlib.c:466 | with the new value there are at most LIMIT + 1 pieces |
| LuaBuffer.Buffer.PushResult | common/lua/src/lauxlib.c:447-451 | the stack as it was before the buffer, and on it one string: everything added, in order |
| Crc16.TableIs | common/tool.cpp:21-54 | each of the 256 entries is eight shifts of its index |
| Crc16.ByteStepIs | common/tool.cpp:60 | a step by table is the byte added at the top and eight shifts, for every register and byte |
| Crc16.Crc16 | common/tool.cpp:56-62 | the loop computes the checksum of the whole string |
| Crc16.CrcIsBitwise | common/tool.cpp:56-62 | the checksum is that of feeding the bits one at a time |
| Crc16.CrcIsRemainder | common/tool.cpp:56-62 | for every string, a word is its checksum if and only if it is the remainder of its bits times x^16 divided by x^16 + x^12 + x^5 + 1 |
| Crc16.AppendedGivesZero | common/tool.cpp:56-62 | a string followed by its checksum, high byte first, has checksum 0 |
| Crc16.TwoByteChangeDetected | common/tool.cpp:56-62 | two strings of the same length that differ only within two consecutive bytes have different checksums |
| Crc16.GetKeysSlots | common/tool.cpp:63-66 | the slot of a key is its checksum modulo 16384 |
| RedisClient.RedisInstance.AsynCommand | my_cluster/redisInstance_base.cpp:121-130 | the command goes to the end of the queue |
| RedisClient.RedisInstance.StartDoMsg | my_cluster/redisInstance_base.cpp:281-291 | the first command goes out if none is under way; a non-zero id is that of the front |
| RedisClient.RedisInstance.GetMsgback | my_cluster/redisInstance_base.cpp:132-172 | a reply completes the front command and no other |
| RedisClient.RedisInstance.GetMoved | my_cluster/instance_cli.cpp:74-97 | after MOVED the queue is what it was, the command at its front |
| RedisClient.RedisInstance.DisconnectCallback | my_cluster/instance_cli.cpp:50-67 | closing loses nothing if and only if a MOVED came before or the queue is empty |
| RedisClient.RedisInstance.Loop | my_cluster/redisInstance_base.cpp:132-291 | over every sequence of events, as far as they are possible and no further: what has been submitted, answered and sent, what waits and whether a command is under way, and the server, are what the events say; across any number of redirects the answers are to the first commands submitted, in order |
| RedisClient.BusyIff | my_cluster/redisInstance_base.cpp:281-291 | a command is under way exactly if some run found one waiting and only submissions and runs came since |
| RedisClient.AnsweredWereSent | my_cluster/redisInstance_base.cpp:281-291 | every command goes out before it is answered, and the one under way is the last that went out |
| RedisClient.Drained | my_cluster/redisInstance_base.cpp:132-291 | whatever has happened, a run and an answer for each waiting command are possible and leave no command waiting |
| RedisClient.ServerIs | my_cluster/instance_cli.cpp:50-67 | the client is connected to the address of the last MOVED that a disconnect has followed |
| RedisSlots.ShowRange | my_cluster/redisInstance_base.cpp:199-278 | the printed lines of a range of the slot table, whatever follows them |
| RedisSlots.AtoiSigned | my_cluster/redisInstance_base.cpp:214-217 | every printed integer, negative ones too, is read back |
| RedisSlots.MarkedApart | my_cluster/redisInstance_base.cpp:206-235 | the texts of errors, integers, nil and the empty list tell kind and value apart |
| RedisSlots.StringsAsTheyAre | my_cluster/redisInstance_base.cpp:212-226 | strings and statuses are printed as they are, so the text of a string can be that of nil |
| RedisSlots.ParseNode | my_cluster/instance_cli.cpp:122-160 | for every address and port: the two lines of a node go to the last range, with the text that is cut out around the first dot as address |
| RedisSlots.CutExact | my_cluster/instance_cli.cpp:140 | the text that is cut out is the address if and only if its first dot is the fourth character, so 10.0.0.1 is not read back |
| RedisSlots.ParseRanges | my_cluster/instance_cli.cpp:100-162 | what the parser makes of every printed table of at most nine ranges, readable or not |
| RedisSlots.ReadExact | my_cluster/instance_cli.cpp:122-160 | a printed range is read as itself if and only if it has at most seven nodes, all addresses have their first dot in place, and the master has a port or no slave has one |
| RedisSlots.ParseSlots | my_cluster/instance_cli.cpp:100-162 | the loop reads what the recursive description of the format reads, and ends |
| RedisSlots.RoundTrip | my_cluster/instance_cli.cpp:100-162 | parsing inverts printing for every table of one to nine readable ranges |
| RedisSlots.ExactLimits | my_cluster/instance_cli.cpp:100-162 | a printed table is read back if and only if it has one to nine ranges, each with at most seven nodes, with every first dot in place, and with a port for the master if a slave has one |
| RedisSlots.TooManyNodes | my_cluster/redisInstance_base.cpp:240-258 | a range with more than seven nodes is not read back, since the wider index indents its first node like a port |
| RedisSlots.TooManyRanges | my_cluster/redisInstance_base.cpp:240-258 | from ten ranges on nothing is read back, since the wider index indents the first line |

## Left out

- LuaCorrect.CompileRep: calls, varargs, table and function constructors and method calls are not expressions of the model, so multiple results do not occur.
- LuaCorrect.CompileRep: negative zero is not told from zero, rounding is not modelled, and number arithmetic is a parameter that may answer any number, infinities and NaN included.
- LuaProgram.ReturnCorrect: an error raised by an operation is not modelled; an operation always answers, and its answer may depend on all events before it. Operations do not change captured locals.
- LuaClean.CleanExact: with more than 255 constants in a function the text condition is sufficient only, because an operand constant that no longer fits is loaded, and the load takes what was held back. It says exactly when a constant is lost, not when somebody sees it: under `not` the value that is carried instead is dropped.
- LuaClean.ReturnsIfLosesNothing: sufficient only. Whether a lost constant is seen depends on which paths of the expression are taken; `LuaHarmless` has a family where it is not.
- LuaDo.LuaState.PCall: the answer is stated for an error function that lies below the called one, as the callers in the source place it.
- LuaDo.LuaState.CallHook: nothing is said of what a run comes to once a hook takes values away that were in the frame before it.
- RedisSlots.ExactLimits: addresses contain neither line ends nor brackets, and slots and ports are not negative.
- LuaFuncState.FuncState.GoIf: a descriptor is passed in and returned as a value where the source updates it through a pointer; luaK_goiftrue and luaK_goiffalse are one method with a flag.
- LuaFuncState.FuncState.Code: operands of generator instructions are unbounded integers; the field widths of `lopcodes.h` appear only as the limits the generator itself tests. Line information is left out.
- LuaFuncState.FuncState.FixJump: an error of the compiler is a flag that stays down, after which nothing is claimed, instead of a jump out of the compiler.
- LuaFuncState.FuncState.AddK: the table of constants is a map from values to positions; nil needs no substitute key.
- LuaFrame.RunsInFrame: values that an open call or vararg leaves above the registers, up to the top, are not registers of the statement.
- LuaDebug.Symbexec: it returns the position of the last change, of which the source returns the instruction.
- LuaDo.LuaState.EnterLua: for a vararg function the model reserves numparams more slots than luaD_precall does, which is the assumption that they are free.
- LuaDo.LuaState.EnterLua: the old-style `arg` table (LUA_COMPAT_VARARG) is not built.
- LuaDo.LuaState.Exec: a function body is a finite list of actions that may branch on a value being nil and on a failed protected call; loops are covered in so far as each run is such a list. Register instructions between calls do not appear, and results of a call stay on the stack instead of being dropped at the frame's top.
- LuaDo.LuaState.RunCall: tail calls, coroutines and yields are left out.
- LuaDo.LuaState.CallHook: the hook's change of the frame's top, and closing of upvalues in luaD_pcall, are left out.
- Random.RandomMersenne.IRandomX: takes a number of tries, since the source's rejection loop has no bound; intervals that do not fit a positive int are excluded, where the source overflows.
- Random.RandomMersenne.Init0: the detection of the floating-point format is left out, with Random and IRandom; RandomInitByArray is left out.
- LuaRefs.RefTable.Ref: the length operator is a parameter that may be any border of the table; the stack traffic of the C API is left out.
- LuaBuffer.Buffer.AddSize: the characters a caller writes into the free part of the buffer are a parameter.
- Crc16.GetKeysSlots: as in the source, a key is hashed whole, without the hash tags of the Redis Cluster Specification.
- RedisClient.RedisInstance.Loop: replies, redirects and disconnects are events, followed as long as they come in the order the connection allows; ids are parameters and not zero.
- RedisSlots.ParseSlots: returns nothing where the source loops without end, reads outside a line, or takes a number from a line without one.
- RedisSlots.Show: the fixed buffers of the printer, and reply types unknown to it, are left out.
- The parser, the tables, the garbage collector and the rest of `lvm.c` beyond what is cited; `lapi.c`, `lbaselib.c`, `ldblib.c`, `linit.c`.
- Error texts and the names found for them in `ldebug.c`; memory allocation failure except as a thrown error.
- Master and slave failover (`redisInstance_slave.cpp`, `instancMgr_slaveAndMaster.cpp`), sockets, the event loop, logging, databases and clocks.
