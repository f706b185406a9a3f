# x-python's bytecode interpreter core, modelled in Dafny

This project models the stack machine at the heart of x-python's
`VirtualMachine` (xpython/pyvm2.py), a Python bytecode interpreter written in
Python, and proves properties of it:

- the per-frame value stack and block stack primitives (`top`, `pop`, `push`,
  `popn`, `peek`, `push_block`, `pop_block`, `top_block`, `jump`);
- frame creation and the call stack (`make_frame`, `push_frame`, `pop_frame`,
  `resume_frame`);
- the instruction decoder `parse_byte_and_args`, for both the two-byte
  wordcode of CPython 3.6+ and the older one/three-byte format, with
  EXTENDED_ARG prefixes;
- `dispatch`, which routes an instruction to the unary, binary, in-place or
  slice operator code or to the version's per-opcode handler set, and turns
  anything raised into the signal "exception";
- block management (`unwind_block`, `manage_block_stack`) for loops,
  "setup-except", "finally", "with" and "except-handler" blocks, with the
  Python 2 and Python 3 rules;
- the `run_frame` loop and how it ends (return, re-raise, or the internal
  "Borked exception recording" error), and `run_code`'s handling of what
  escapes the frame.

The files:

- `values.dfy` (module `Values`): guest values, the `why` signals, the
  `sys.exc_info()`-shaped exception record, host faults, Python indexing.
- `bytecode.dfy` (module `Bytecode`): code objects, opcode tables and the
  decoder as specification functions (`Fetch`, `Resolve`, `Decode`) with
  lemmas about EXTENDED_ARG chains.
- `blocks.dfy` (module `Blocks`): `unwind_block`, one step of
  `manage_block_stack` and the block-management loop as functions on a
  frame's stack, blocks and instruction offset, with their properties.
- `operators.dfy` (module `Operators`): routing by opcode name, the stack
  effects of the operator families around an abstract operator capability,
  and the handler lookup.
- `interp.dfy` (module `Interp`): `dispatch`, one pass of the `run_frame`
  loop, the loop under a fuel bound, and how a frame run ends.
- `vm.dfy` (module `Machine`): the classes `Namespace`, `Frame` and
  `VirtualMachine`. Their methods update the fields in place, as the Python
  code does. Each one is proved against the functions of the other modules:
  - `UnwindBlock` pops in a `while` loop;
  - `FetchInstruction` is the decode loop;
  - `SettleBlocks` is the block-management loop;
  - `RunPasses` is the `while True` loop of `run_frame`.

Python's `None` signal is `NoWhy`. The strings "return", "break",
"continue", "exception", "reraise" and "yield" are the `Why` constructors.

Block handling follows the guest version (`self.version`, `modern` = 3.0 or
later). The decoder's byte format and the presence of MATRIX_MULTIPLY follow
the host version (`PYTHON_VERSION`). The two are kept as separate parameters.

### Behaviour taken from the code

- SLICE+2 pops only the end bound and keeps the start at 0.
- A popped end bound of None is replaced by `len(l)`.
- `peek(n)` reads `stack[-n]`, so `peek(0)` reads the bottom of the stack.
- `make_frame` updates a caller-supplied locals (or globals) dict in place
  with the call arguments.
- A locals dict passed without globals is ignored.
- `resume_frame` resets `f_back` to None only when the frame returns
  normally. When the run raises, line 253 is never reached.
- Line 521 reads `last_exception[0]`. An "exception" signal with no exception
  recorded therefore fails with a TypeError before block management.
- `run_code`'s check for values left on the stack (lines 278-279) can never
  fire. After a normal return with no frames left over, the call stack is
  empty, so there is no current frame. `RunCode` proves that branch
  unreachable.

## Model

| member | source | states |
|---|---|---|
| Values.WhyValue | xpython/pyvm2.py:537-543 | the value pushed for a signal is truthy exactly when the signal is set, so `while why` and `if why` test "signal set" |
| Values.WhyValueInjective | xpython/pyvm2.py:467-469 | the value pushed for a signal identifies the signal: two signals push the same value only if they are equal |
| Values.HostException | xpython/pyvm2.py:417-419 | an exception raised by the interpreter itself is recorded with its class as `exctype`, and that class is truthy |
| Values.PyIndex | xpython/pyvm2.py:320 | Python indexing: defined exactly for `-len <= i < len`, negative indices count from the end, anything else is an IndexError |
| Values.Lookup | xpython/pyvm2.py:348-363 | a table lookup with a non-negative operand succeeds exactly when it is in range and gives that entry |
| Bytecode.BitOrDisjoint | xpython/pyvm2.py:327 | OR-ing a number below 2^k into a multiple of 2^k is addition |
| Bytecode.ByteOrCarry | xpython/pyvm2.py:327-331 | OR-ing an operand byte into a carry that is a multiple of 256 adds them |
| Bytecode.ReadOperand | xpython/pyvm2.py:326-341 | an operand is read only when all its bytes are inside `co_code` |
| Bytecode.HasArgument | xpython/pyvm2.py:325 | an opcode takes an operand exactly when it is at or above the table's HAVE_ARGUMENT. `Fetch` and `DecodeShape` state that the decoder reads an operand exactly for those opcodes |
| Bytecode.NewLocals | xpython/pyvm2.py:216-217 | the CO_NEWLOCALS bit (value 2) of `co_flags`. `MakeFrame` states that when it is set the frame always gets fresh locals |
| Bytecode.Fetch | xpython/pyvm2.py:317-347 | the decode loop never returns EXTENDED_ARG. The returned opcode is the byte at the returned offset. It has an operand exactly when the opcode takes one. The next offset is the offset plus the instruction size. The offset is `f_lasti` plus the bytes of the prefixes skipped |
| Bytecode.Resolve | xpython/pyvm2.py:348-365 | the operand is looked up in the first class, in source order, that holds the opcode. Constants, cell-then-free variables, names and local names succeed exactly when the operand indexes the table, and give that entry. A relative jump gives the offset after the instruction plus the operand. An absolute jump and an opcode in no class give the operand. The only failure is an IndexError |
| Bytecode.Decode | xpython/pyvm2.py:308-371 | decoding succeeds exactly when the decode loop does and, for an opcode with an operand, resolving that operand does. The instruction's name comes from the opcode table at the fetched opcode and its offset is the fetched offset. Its line number is there exactly when a line starts at that offset, and is that line. It has one argument exactly when the opcode takes one, and that argument is the resolved operand |
| Bytecode.DecodeAt | xpython/pyvm2.py:318-320 | decoding at an `f_lasti` that is not an integer is a TypeError; otherwise it is `Decode` at that offset |
| Bytecode.FetchSkipsOnlyPrefixes | xpython/pyvm2.py:326-346 | every position the decoder skips before the returned opcode is an EXTENDED_ARG prefix, one instruction size apart |
| Bytecode.ReadOperandCarry | xpython/pyvm2.py:326-341 | with an aligned carry, reading an operand adds the carry, and whether the read faults does not depend on the carry |
| Bytecode.FetchPrefixStep | xpython/pyvm2.py:326-346 | at an EXTENDED_ARG prefix the decoder moves one instruction on, shifts the operand into the carry (`<< 8` or `* 65536`) and counts one more prefix |
| Bytecode.FetchCarryIrrelevant | xpython/pyvm2.py:317-346 | whether decoding faults, which opcode it stops at and every offset it reports do not depend on the carry it starts with |
| Bytecode.FetchCarryShifts | xpython/pyvm2.py:326-346 | decoding with carry `c` gives the operand decoded with no carry plus `c` shifted left by one operand width per prefix still to come |
| Bytecode.WordcodeOneExtension | xpython/pyvm2.py:326-334 | in wordcode, `EXTENDED_ARG a; OP b` decodes to OP at the second word with operand `a*256 + b`, next offset 4 bytes on and one prefix |
| Bytecode.LegacyTwoExtensions | xpython/pyvm2.py:335-346 | in the legacy format, `EXTENDED_ARG a; EXTENDED_ARG b; OP c` (each operand two little-endian bytes) decodes to OP six bytes on, with operand `(a*65536 + b)*65536 + c`, next offset nine bytes on and two prefixes |
| Bytecode.DecodeRelativeJump | xpython/pyvm2.py:358-359 | a relative jump's argument is the offset after the instruction plus its operand |
| Bytecode.DecodeFreeVariable | xpython/pyvm2.py:350-355 | a free-variable index at or past `len(co_cellvars)` decodes exactly when `i - len(co_cellvars)` is inside `co_freevars`, and then names that free variable |
| Bytecode.DecodeShape | xpython/pyvm2.py:317-371 | a decoded instruction is not EXTENDED_ARG. Its name comes from the opcode table. Its offset holds the opcode. It has a line number exactly when a line starts there. It has one argument exactly when the opcode takes one. Its next offset is one instruction size on |
| Blocks.Truncate | xpython/pyvm2.py:301-302 | popping while the stack is deeper than `n` leaves a prefix of the stack no deeper than `n`, and the whole stack if it was no deeper |
| Blocks.Triple | xpython/pyvm2.py:463-465 | pushing an exception adds three values with `exctype` on top |
| Blocks.Unwind | xpython/pyvm2.py:295-306 | unwinding fails exactly for an "except-handler" block on a stack of fewer than 3 values. It leaves a prefix of the stack no deeper than the block's level. It restores an exception exactly for "except-handler" blocks |
| Blocks.SignalValues | xpython/pyvm2.py:467-469 | a handler entered on a signal gets the signal on top, preceded by `return_value` exactly for "return" and "continue" |
| Blocks.ManageBlocks | xpython/pyvm2.py:437-495 | one step of block management either resolves the signal or hands it back unchanged. When it hands the signal back it has popped exactly the top block. It never leaves more blocks than it found |
| Blocks.Leave | xpython/pyvm2.py:449-495 | once the block is popped, the signal is resolved or unchanged, and an unresolved signal leaves the remaining blocks alone |
| Blocks.Enter | xpython/pyvm2.py:457-495 | entering a popped block's handler either resolves the signal or leaves frame and exception exactly as they were, adding at most one block |
| Blocks.Settle | xpython/pyvm2.py:537-540 | the block-management loop ends with the signal resolved, or with the same signal and no block left |
| Blocks.UnwindToLevel | xpython/pyvm2.py:295-302 | unwinding a block other than "except-handler" leaves the stack truncated to the block's level and restores nothing |
| Blocks.UnwindHandlerRestores | xpython/pyvm2.py:295-306 | unwinding an "except-handler" block leaves the stack at its level and restores `(exctype, value, tb)` from the three entries stored bottom to top as `tb, value, exctype` |
| Blocks.UnwindIgnoresAbove | xpython/pyvm2.py:301-306 | values pushed above the depth a block keeps do not change its unwinding |
| Blocks.LoopContinue | xpython/pyvm2.py:443-447 | "continue" at a loop block leaves both stacks alone, sets `f_lasti` to `return_value` and resolves the signal |
| Blocks.LoopBreak | xpython/pyvm2.py:449-455 | "break" at a loop block pops exactly that block, truncates the stack to its level, jumps to its handler and resolves the signal |
| Blocks.ExceptionIntoGuard | xpython/pyvm2.py:476-484 | from 3.0 on, an exception at a "setup-except" or "finally" block replaces it with one "except-handler" block at the unwound depth. It pushes `tb, value, exctype` twice, jumps to the handler and resolves the signal |
| Blocks.GuardRoundTrip | xpython/pyvm2.py:476-484 | the guard entered for an exception gives it back. Whatever the handler pushed, whatever was recorded since and whatever signal comes later, popping the guard restores the stack below it and that same exception, and passes the signal on |
| Blocks.GuardPops | xpython/pyvm2.py:295-306 | popping an "except-handler" block with its saved exception right above its level restores that exception and the stack below it |
| Blocks.FinallyModern | xpython/pyvm2.py:486-493 | from 3.0 on, a non-exception signal at a "finally" block pops and unwinds it. It pushes `return_value` (only for "return" and "continue") and then the signal, jumps to the handler and resolves the signal |
| Blocks.HandlerLegacy | xpython/pyvm2.py:457-473 | before 3.0, "finally", "with", and "setup-except" on an exception pop and unwind the block. They push `tb, value, exctype` on an exception, or `return_value` and the signal otherwise, then jump to the handler and resolve the signal |
| Blocks.Propagates | xpython/pyvm2.py:449-495 | a block that does not take the signal is popped and unwound; the signal comes back unchanged and `f_lasti` is untouched |
| Blocks.EnterPasses | xpython/pyvm2.py:457-495 | a block that does not take the signal hands it back with frame and exception unchanged |
| Blocks.ManageResolvesIffHandles | xpython/pyvm2.py:437-495 | a step fails exactly when an "except-handler" block has lost its saved values, or when an exception must be pushed and none is recorded. It resolves the signal exactly when the top block's type takes it, both directions, checked against the independent table `Handles` |
| Blocks.LeaveResolvesIffHandles | xpython/pyvm2.py:449-495 | the same, once the block is popped |
| Blocks.EnterResolvesIffHandles | xpython/pyvm2.py:457-495 | entering a handler fails exactly when an exception must be pushed and none is recorded, and resolves the signal exactly when the block takes it |
| Blocks.ExceptionCaughtByEnclosingGuard | xpython/pyvm2.py:537-540 | from 3.0 on, an exception inside loops nested in a "setup-except" block passes through the loops and is caught by the guard. The loop ends resolved at the guard's handler with the outer blocks kept, one "except-handler" block in the guard's place and the exception pushed twice |
| Operators.Contains | xpython/pyvm2.py:404 | `"SLICE+" in name` holds exactly when "SLICE+" occurs at some position of the name, so it holds when the name starts with it and only when the name is at least as long |
| Operators.RouteOf | xpython/pyvm2.py:398-406 | an instruction routed to an operator family is exactly the family prefix followed by the operator name passed on; an instruction goes to `sliceOperator` exactly when it has none of the three prefixes and contains "SLICE+", and to the handler set exactly when it has neither |
| Operators.RouteRoundTrip | xpython/pyvm2.py:398-403 | every operator name comes back out of its prefixed opcode name, routed to the right family |
| Operators.BinaryNames | xpython/pyvm2.py:575-593 | MATRIX_MULTIPLY is a binary operator exactly from host 3.5 on |
| Operators.InplaceOperation | xpython/pyvm2.py:599-629 | exactly the thirteen listed names are in-place operators. DIVIDE performs `//=` like FLOOR_DIVIDE, and every other name performs its own operation |
| Operators.PopnSplit | xpython/pyvm2.py:155-166 | `popn(n)` splits the stack into what stays and the top `min(n, len)` values, which together are the old stack |
| Operators.PopnAfterPush | xpython/pyvm2.py:151-166 | `popn` after `push` gives back the pushed values and the old stack |
| Operators.UnaryEffect | xpython/pyvm2.py:571-573 | the effect of `unaryOperator` on the stack. Its partner `UnaryShape` states what it does: it replaces the top value by the result, or raises with at most that value gone |
| Operators.BinaryApply | xpython/pyvm2.py:578 | the value `BINARY_OPERATORS[op]` computes. On a Python 3 host DIVIDE gives None because `operator.div` does not exist; every other operator is the host's. `BinaryShape` states the stack effect built on it |
| Operators.BinaryEffect | xpython/pyvm2.py:595-597 | the effect of `binaryOperator` on the stack. Its partner `BinaryShape` states what it does: it replaces the top two values by the result, raises KeyError for an unknown operator, and gives ValueError with fewer than two values |
| Operators.UnaryShape | xpython/pyvm2.py:571-573 | a unary operator replaces the top value by its result exactly when the stack is non-empty, the operator is known and it returns; otherwise it raises and at most the popped value is gone |
| Operators.BinaryShape | xpython/pyvm2.py:595-597 | a binary operator replaces the top two values by its result exactly when there are two, the operator is known and it returns. Otherwise it raises with both gone, and with fewer than two values the stack is emptied with a ValueError |
| Operators.MatmulResultDiscarded | xpython/pyvm2.py:626-627 | as written, when `operator.imatmul` returns a new object, that result is lost and the unchanged left operand is pushed |
| Operators.InplaceEffect | xpython/pyvm2.py:599-630 | the corrected effect of `inplaceOperator`: the result of the augmented assignment is pushed, `@=` included. Its partner `InplaceShape` states this |
| Operators.InplaceEffectAsWritten | xpython/pyvm2.py:599-630 | `inplaceOperator` as written, pushing the left operand after `@=`. `ExecuteAsWrittenDiffers` states where it parts from the corrected effect |
| Operators.InplaceShape | xpython/pyvm2.py:599-630 | corrected as the Findings say (the result of `@=` is pushed): an in-place operator replaces the top two values by the result of the augmented assignment exactly when there are two, the operator is known and it returns. An unknown operator raises VirtualMachineError, and fewer than two values empty the stack with a ValueError |
| Operators.SliceCount | xpython/pyvm2.py:635 | the slice count is a single digit |
| Operators.SliceKind | xpython/pyvm2.py:635 | `op[:-2]`: the opcode name without its last two characters, and empty for a name shorter than two |
| Operators.PopBounds | xpython/pyvm2.py:633-642 | the bounds SLICE+count pops. Its partner `PopBoundsShape` states which are popped and what the defaults are |
| Operators.SliceOn | xpython/pyvm2.py:643-651 | the slice operation once the bounds are popped. Its partner `SliceOnShape` states what each form consumes and pushes |
| Operators.SliceEffect | xpython/pyvm2.py:632-651 | the effect of `sliceOperator` on the stack. Its partner `SliceShape` states what a completed slice consumes and pushes |
| Operators.PopBoundsShape | xpython/pyvm2.py:633-642 | SLICE+1 pops the start, SLICE+2 pops only the end, and SLICE+3 pops the end and then the start. The defaults are start 0 and end None, and what stays is the stack below the bounds. A stack that runs out keeps a shorter prefix |
| Operators.SliceOnShape | xpython/pyvm2.py:643-651 | once the bounds are popped, a slice operation that completes consumes the sequence, and for STORE_ the stored value. Only the fetch form pushes a result, and the rest of the stack is untouched |
| Operators.SliceShape | xpython/pyvm2.py:632-651 | a completed slice instruction consumes its bounds, the sequence and for STORE_ the stored value. It pushes one result only for the fetch form and leaves everything below untouched |
| Operators.UnknownOpcodeAsWritten | xpython/pyvm2.py:406-414 | as written, an opcode name with no handler never raises the "Unknown bytecode type" VirtualMachineError |
| Operators.LookupHandlerAsWritten | xpython/pyvm2.py:406-414 | the handler lookup as written succeeds exactly for names in the handler set and gives that handler; any other name raises UnboundLocalError |
| Operators.LookupHandler | xpython/pyvm2.py:406-414 | corrected as the Findings say: the handler lookup succeeds exactly for names in the handler set and gives that handler; an unknown name raises VirtualMachineError |
| Operators.OperatorsOnlyTouchStack | xpython/pyvm2.py:397-405 | the operator families change only the value stack and signal nothing but None or a raise |
| Operators.UnknownOpcodeRaises | xpython/pyvm2.py:406-414 | an unknown opcode name raises VirtualMachineError and changes nothing |
| Operators.Execute | xpython/pyvm2.py:397-415 | the guarded part of `dispatch` with the corrected lookup and `@=`. Its partners state what it does: `OperatorsOnlyTouchStack` for the operator families and `UnknownOpcodeRaises` for an unknown opcode |
| Operators.ExecuteAsWritten | xpython/pyvm2.py:397-415 | the guarded part of `dispatch` as written. `ExecuteAsWrittenDiffers` relates it to the corrected `Execute` |
| Operators.ExecuteAsWrittenDiffers | xpython/pyvm2.py:397-415 | the code as written and the corrected dispatch differ in exactly two cases. An opcode with no handler records UnboundLocalError instead of VirtualMachineError. A successful INPLACE_MATRIX_MULTIPLY leaves the left operand instead of the result, with the rest of the state the same. Every other instruction gives the same result under both |
| Interp.DispatchSpec | xpython/pyvm2.py:391-435 | dispatch clears `in_exception_processing` and runs the instruction. Anything raised becomes the signal "exception", with that exception recorded and a traceback taken. Otherwise the handler's signal and state come back |
| Interp.AfterDispatch | xpython/pyvm2.py:516-540 | after dispatch no "reraise" remains, `return_value` is unchanged, and a signal other than None and "yield" leaves no block |
| Interp.Step | xpython/pyvm2.py:509-540 | one pass never ends on "reraise", and ends with no block on any signal but None and "yield" |
| Interp.Iterate | xpython/pyvm2.py:508-543 | the loop leaves only on a set signal |
| Interp.IterateUnfold | xpython/pyvm2.py:508-543 | the loop runs one pass at a time: a failing pass stops it, a set signal ends it, None goes on with the new state |
| Interp.IterateMoreFuel | xpython/pyvm2.py:508-543 | once the loop has ended within the fuel bound, more fuel ends it the same way |
| Interp.IterateExitsSettled | xpython/pyvm2.py:508-543 | a loop whose every pass is settled exits settled |
| Interp.RunLoop | xpython/pyvm2.py:508-543 | the loop of `run_frame` on one frame, that is, `Iterate` over one pass. Its partner `RunLoopExits` states how it can end |
| Interp.Finish | xpython/pyvm2.py:547-559 | a run that exits on a signal other than "exception" returns `return_value`. It re-raises exactly when it exits on "exception" with an exception whose class is truthy, and then re-raises that exception. It fails with "Borked exception recording" exactly when it exits on "exception" with none |
| Interp.UnknownOpcodeSignalsException | xpython/pyvm2.py:406-433 | with the corrected lookup, an unknown opcode gives "exception" with a VirtualMachineError recorded, a traceback taken and the frame untouched |
| Interp.ExceptionSignalsTakeTraceback | xpython/pyvm2.py:516-535 | a handler signalling "exception" gets a traceback taken by the loop; one signalling "reraise" keeps the traceback already recorded; both are unwound as "exception" |
| Interp.ReraiseIsException | xpython/pyvm2.py:534-535 | "reraise" is handled exactly like "exception" |
| Interp.YieldSkipsBlocks | xpython/pyvm2.py:537 | "yield" leaves the pass with the state as the instruction left it |
| Interp.PassSettles | xpython/pyvm2.py:537-540 | every other signal goes through the block-management loop, and the pass ends as that loop leaves the frame |
| Interp.RunLoopExits | xpython/pyvm2.py:534-543 | the loop of `run_frame` exits only on a signal other than None and "reraise", and with no block left unless it yielded |
| Interp.ReturnedFrameIsSettled | xpython/pyvm2.py:542-559 | a frame that returns normally ended on a signal other than "exception", with no block left unless it yielded |
| Machine.Namespace.Update | xpython/pyvm2.py:220 | `dict.update`: the argument's entries are added and win over existing ones |
| Machine.Frame.constructor | xpython/pyvm2.py:221 | a new frame has the given code, namespaces and caller, empty stacks and `f_lasti` 0 |
| Machine.TopLevelNamespace | xpython/pyvm2.py:209-214 | the top-level namespace has exactly `__builtins__`, `__name__`, `__doc__` and `__package__`, with `__name__` "__main__" |
| Machine.VirtualMachine.constructor | xpython/pyvm2.py:47-70 | a new machine has no frames and no current frame, `return_value` None, no exception or traceback, and is not processing an exception |
| Machine.VirtualMachine.Top | xpython/pyvm2.py:138-140 | the top value when the stack is non-empty, an IndexError otherwise |
| Machine.VirtualMachine.Pop | xpython/pyvm2.py:142-149 | removes and returns exactly the value `i` places below the top when there is one, keeping the others in order; IndexError otherwise |
| Machine.VirtualMachine.Push | xpython/pyvm2.py:151-153 | appends the values in order; nothing else changes |
| Machine.VirtualMachine.Popn | xpython/pyvm2.py:155-166 | removes and returns the top `n` values deepest first (`PopnSplit`) |
| Machine.VirtualMachine.Peek | xpython/pyvm2.py:168-170 | `stack[-n]`: the value `n` down from the top for `1 <= n <= len`, the bottom for `n == 0`, IndexError outside `-len <= -n < len` |
| Machine.VirtualMachine.PushBlock | xpython/pyvm2.py:175-178 | appends one block whose level defaults to the stack depth |
| Machine.VirtualMachine.PopBlock | xpython/pyvm2.py:180-181 | removes and returns the top block, IndexError on an empty block stack |
| Machine.VirtualMachine.TopBlock | xpython/pyvm2.py:183-184 | the top block exactly when there is one; an empty block stack is an IndexError |
| Machine.VirtualMachine.Jump | xpython/pyvm2.py:186-188 | sets `f_lasti` and nothing else |
| Machine.VirtualMachine.MakeFrame | xpython/pyvm2.py:190-223 | given globals but no locals, locals alias globals. With no globals and a caller, globals are the caller's and locals are fresh. With neither, one top-level dict serves as both. CO_NEWLOCALS always gives fresh locals. The call arguments are then copied into the locals, and the frame's caller is the current frame |
| Machine.VirtualMachine.PushFrame | xpython/pyvm2.py:225-227 | the frame becomes the innermost and current one; the current frame stays the last of the call stack |
| Machine.VirtualMachine.PopFrame | xpython/pyvm2.py:229-234 | drops the innermost frame and makes its caller current (None when none is left). Popping an empty call stack is an IndexError |
| Machine.VirtualMachine.UnwindBlock | xpython/pyvm2.py:295-306 | the stack and last exception become what `Unwind` says, and a failed unpack leaves the stack empty |
| Machine.VirtualMachine.ManageBlockStack | xpython/pyvm2.py:437-495 | the frame, last exception and returned signal are exactly `ManageBlocks` of the old state |
| Machine.VirtualMachine.LeaveBlock | xpython/pyvm2.py:449-495 | the frame, last exception and returned signal are exactly `Leave` of the old state |
| Machine.VirtualMachine.EnterBlock | xpython/pyvm2.py:457-495 | the frame and returned signal are exactly `Enter` of the old state |
| Machine.VirtualMachine.EnterLegacy | xpython/pyvm2.py:457-473 | the frame and returned signal are exactly the pre-3.0 `Enter` |
| Machine.VirtualMachine.EnterModern | xpython/pyvm2.py:475-493 | the frame and returned signal are exactly the 3.0+ `Enter` |
| Machine.VirtualMachine.ParseByteAndArgs | xpython/pyvm2.py:308-371 | the result is `DecodeAt` of the old `f_lasti`, and `f_lasti` ends after the decoded instruction; the stacks are untouched |
| Machine.VirtualMachine.FetchInstruction | xpython/pyvm2.py:317-347 | the decode loop's result is `Fetch` from the old `f_lasti` with no carry, and `f_lasti` ends after the instruction |
| Machine.VirtualMachine.UnaryOperator | xpython/pyvm2.py:571-573 | stack and raised exception are `UnaryEffect` of the old stack |
| Machine.VirtualMachine.BinaryOperator | xpython/pyvm2.py:595-597 | stack and raised exception are `BinaryEffect` of the old stack |
| Machine.VirtualMachine.InplaceOperator | xpython/pyvm2.py:599-630 | stack and raised exception are `InplaceEffect` (the corrected in-place operator) of the old stack |
| Machine.VirtualMachine.SliceOperator | xpython/pyvm2.py:632-651 | stack and raised exception are `SliceEffect` of the old stack |
| Machine.VirtualMachine.PopSliceBounds | xpython/pyvm2.py:633-642 | pops the bounds `PopBounds` names, or leaves what it says when the stack runs out |
| Machine.VirtualMachine.SliceOnSequence | xpython/pyvm2.py:643-651 | stack and raised exception are `SliceOn` of the old stack |
| Machine.VirtualMachine.ExecuteInstruction | xpython/pyvm2.py:397-415 | frame, `return_value`, last exception and outcome are exactly `Execute` of the old state, that is, with the corrected handler lookup and `@=` |
| Machine.VirtualMachine.Dispatch | xpython/pyvm2.py:391-435 | the new machine state and signal are exactly `DispatchSpec`, with the traceback taken from the current frame when one is taken |
| Machine.VirtualMachine.SettleBlocks | xpython/pyvm2.py:537-540 | the loop leaves the frame, last exception and signal exactly as `Settle` says |
| Machine.VirtualMachine.EndPass | xpython/pyvm2.py:516-540 | the new machine state and signal are exactly `AfterDispatch` |
| Machine.VirtualMachine.StepFrame | xpython/pyvm2.py:509-540 | one pass leaves the machine exactly as `Step` says, or fails with the fault it names |
| Machine.VirtualMachine.RunPasses | xpython/pyvm2.py:508-543 | the loop ends exactly as `Iterate` over `Step` says: out of fuel, failing with a fault, or exiting on a signal with the machine state it names |
| Machine.VirtualMachine.RunFrame | xpython/pyvm2.py:497-559 | the outcome is `Finish` of the run loop. A frame that exits is popped again and a failing one stays pushed. After a normal return `in_exception_processing` is cleared; the current frame is always the last of the call stack |
| Machine.VirtualMachine.ResumeFrame | xpython/pyvm2.py:249-254 | runs the frame with the current frame as its caller, and detaches it again only when it returns normally |
| Machine.VirtualMachine.RunCode | xpython/pyvm2.py:261-281 | an escaping `Exception` (or internal fault) becomes VMRuntimeError unless the machine is for the test driver. `SystemExit`, `KeyboardInterrupt` and `GeneratorExit` pass through. A normal return with frames left over is "Frames left over!" |
| Machine.IsException | xpython/pyvm2.py:266 | `except Exception` catches everything but SystemExit, KeyboardInterrupt and GeneratorExit. `RunCode` states that those three pass through |

## Left out

- Operator semantics: the host's operators are one abstract capability
  `OperatorFn`. It returns a value or raises an exception, so only the stack
  effects and the error paths of the operator families are modelled.
- The per-opcode handler set `self.byteop` (and the byteop classes, including
  xpython/byteop/byteop37pypy.py): handlers are abstract pure functions from
  the arguments and the frame state to a new state and a signal or a raised
  exception. Handlers that call back into the machine (calls, generators),
  and handlers that touch namespaces or other objects, are not modelled.
- Version selection by dynamic import (lines 79-133) is reduced to the
  parameters `version`, `opc` and `env`. The "Version not supported" error
  is not modelled.
- The opcode tables, `op_has_argument`, `code2num` and `findlinestarts` come
  from the xdis package, which is not part of this model. They are the
  record `OpcodeTable` and the `lineStarts` field of `Code`.
- The `Frame`, `Block` and `traceback_from_frame` definitions come from
  xpython/pyobj.py, which is not part of this model. A frame is the class
  `Frame` with the fields the core uses and `f_lasti` starting at 0. A
  traceback is represented by the frame it was taken from.
- Exception classes are an enumeration. Their instances (`HostInstance`)
  are opaque, and an exception's `args` are not modelled.
- Logging, `instruction_info`, `print_frames` and `repper`, and the
  `self.f_code` field set at line 504, which the core never reads.
- `run_code`'s printing of the traceback and message before it raises
  VMRuntimeError. Should that printing itself raise (for instance on
  exception arguments that are not strings), that exception would escape
  instead.
- `fn2native`, `last_traceback_limit` and the `VirtualMachineError`
  attribute, which the core does not use.
- Generator exception state (the TODO at line 545) is not implemented in
  the source either.
- Python's `INPLACE_MATRIX_MULTIPLY` on hosts older than 3.5, where
  `operator.imatmul` does not exist, is not distinguished from other failing
  operators.
- Operators.Execute: the run model uses the corrected handler lookup and the
  corrected `@=`, so `Execute`, `Interp.Step`, `Machine.VirtualMachine.ExecuteInstruction`
  and everything that runs code above them record VirtualMachineError for an
  opcode with no handler and push the result of `@=`. The code as written records
  UnboundLocalError and pushes the left operand. `Operators.ExecuteAsWritten`
  models that, and `Operators.ExecuteAsWrittenDiffers` states the difference.
- Values.HostException: an exception the interpreter raises is recorded with
  `tb` None. `sys.exc_info` would give a traceback object there, but nothing
  in the core reads it.
- Values.Truthy: a guest object (`ObjValue`) always counts as true, although
  its class can make it false. The core tests the truth of signals and
  exception classes, never of guest objects.
- Interp.Iterate: the `while True` loop of `run_frame` runs under a fuel
  bound on the number of passes, so a run that never ends is the outcome
  `OutOfFuel`. Non-termination is not otherwise modelled.
- Machine.VirtualMachine.RunPasses: allows at most `fuel` passes, as
  `Interp.Iterate` does.
- Machine.VirtualMachine.RunFrame: states the frame and machine state only
  when the loop exits. It does not state what a fault or the fuel running out
  leaves behind.
- Machine.VirtualMachine.FetchInstruction: does not state where `f_lasti` is
  left when decoding raises IndexError part-way.
- Machine.VirtualMachine.ParseByteAndArgs: does not state where `f_lasti` is
  left when decoding raises.
- Machine.VirtualMachine.ResumeFrame: states the outcome and `f_back` only.
  The state the run leaves is stated by `RunFrame`.
- Machine.VirtualMachine.RunCode: states only the outcome, not the machine
  state afterwards.

## Findings

| source | as written | input that shows it | evidently intended | confidence | as-written member | corrected member |
|---|---|---|---|---|---|---|
| xpython/pyvm2.py:408-414 | `bytecode_fn` is assigned only when the handler set has the opcode name, so the test `not bytecode_fn` reads an unbound local and raises UnboundLocalError | an opcode name with no handler and no operator prefix, e.g. an opcode the version's byteop class lacks | raise VirtualMachineError "Unknown bytecode type", as lines 411-414 say | not executed | Operators.UnknownOpcodeAsWritten | Operators.UnknownOpcodeRaises |
| xpython/pyvm2.py:626-627 | `operator.imatmul(x, y)` is called and its result discarded, so `x` itself is pushed | INPLACE_MATRIX_MULTIPLY where `x`'s type defines `__matmul__` but not `__imatmul__`, so `imatmul` returns a new object | `x @= y`, binding the result like every other in-place operator | not executed | Operators.MatmulResultDiscarded | Operators.InplaceShape |
