/** What one instruction does to the machine: the operator families that
    `dispatch` handles itself (unary, binary, in-place and slice operators,
    as stack effects around an abstract operator capability) and the
    per-opcode handler set it falls back on. */
module Operators {
  import opened Values
  import opened Blocks

  /** The operator family an operator call belongs to. */
  datatype OpFamily = UnaryOp | BinaryOp | InplaceOp | SliceOp

  /** The host's object operations (`operator.neg`, `operator.iadd`, slicing,
      `len`, ...), left abstract: a call either returns a value or raises. */
  type OperatorFn = (OpFamily, string, seq<Value>) -> Result<Value, ExcInfo>

  /** The machine state an opcode handler may read and change. */
  datatype OpState = OpState(frame: FrameState, returnValue: Value, lastException: Option<ExcInfo>)

  /** A handler either returns a signal (None for ordinary instructions) or
      raises. */
  datatype Outcome = Signal(why: Why) | Raise(exc: ExcInfo)

  datatype OpResult = OpResult(state: OpState, outcome: Outcome)

  /** One `byteop` method, applied to the decoded arguments. */
  type Handler = (seq<Value>, OpState) -> OpResult

  /** What an instruction's behaviour depends on besides the machine state:
      the handler set by opcode name, the host's operators, and the host
      version times ten. */
  datatype Env = Env(handlers: map<string, Handler>, operators: OperatorFn, hostVersion: nat)

  /** The stack an operator leaves and the exception it raised, if any. */
  datatype Effect = Effect(stack: seq<Value>, raised: Option<ExcInfo>)

  function StartsWith(s: string, prefix: string): bool {
    |prefix| <= |s| && s[..|prefix|] == prefix
  }

  /** Python's `sub in s` on strings. */
  function Contains(s: string, sub: string): (r: bool)
    ensures r <==> exists i :: OccursAt(s, sub, i)
    ensures StartsWith(s, sub) ==> r
    ensures r ==> |sub| <= |s|
    decreases |s|
  {
    if StartsWith(s, sub) then
      assert OccursAt(s, sub, 0);
      true
    else if |s| == 0 then
      false
    else
      OccursShift(s, sub);
      Contains(s[1..], sub)
  }

  /** `sub` occurs in `s` starting at index `i`. */
  predicate OccursAt(s: string, sub: string, i: int) {
    0 <= i && i + |sub| <= |s| && s[i..i + |sub|] == sub
  }

  /** Dropping a first character that does not start an occurrence keeps every
      occurrence, one index earlier. */
  lemma OccursShift(s: string, sub: string)
    requires |s| > 0 && !StartsWith(s, sub)
    ensures (exists i :: OccursAt(s, sub, i)) <==> (exists j :: OccursAt(s[1..], sub, j))
  {
    if i :| OccursAt(s, sub, i) {
      assert i != 0;
      assert s[1..][i - 1..i - 1 + |sub|] == s[i..i + |sub|];
      assert OccursAt(s[1..], sub, i - 1);
    }
    if j :| OccursAt(s[1..], sub, j) {
      assert s[j + 1..j + 1 + |sub|] == s[1..][j..j + |sub|];
      assert OccursAt(s, sub, j + 1);
    }
  }

  // ---------------------------------------------------------------------------
  // Routing by opcode name

  /** Which part of `dispatch` an opcode name goes to, with the operator name
      it strips off the prefix. */
  datatype Route = ToUnary(op: string) | ToBinary(op: string) | ToInplace(op: string) | ToSlice | ToHandler

  function RouteOf(name: string): (r: Route)
    ensures r.ToUnary? ==> name == "UNARY_" + r.op
    ensures r.ToBinary? ==> name == "BINARY_" + r.op
    ensures r.ToInplace? ==> name == "INPLACE_" + r.op
    ensures r.ToSlice? <==> !StartsWith(name, "UNARY_") && !StartsWith(name, "BINARY_") &&
                            !StartsWith(name, "INPLACE_") && Contains(name, "SLICE+")
    ensures r.ToHandler? <==> !StartsWith(name, "UNARY_") && !StartsWith(name, "BINARY_") &&
                              !StartsWith(name, "INPLACE_") && !Contains(name, "SLICE+")
  {
    if StartsWith(name, "UNARY_") then ToUnary(name[6..])
    else if StartsWith(name, "BINARY_") then ToBinary(name[7..])
    else if StartsWith(name, "INPLACE_") then ToInplace(name[8..])
    else if Contains(name, "SLICE+") then ToSlice
    else ToHandler
  }

  /** Every operator name comes back out of its prefixed opcode name. */
  lemma RouteRoundTrip(op: string)
    ensures RouteOf("UNARY_" + op) == ToUnary(op)
    ensures RouteOf("BINARY_" + op) == ToBinary(op)
    ensures RouteOf("INPLACE_" + op) == ToInplace(op)
  {
    assert ("UNARY_" + op)[..6] == "UNARY_";
    assert ("UNARY_" + op)[6..] == op;
    assert ("BINARY_" + op)[0] == 'B' && ("INPLACE_" + op)[0] == 'I';
    assert !StartsWith("BINARY_" + op, "UNARY_") by { assert ("BINARY_" + op)[..6][0] == 'B'; }
    assert !StartsWith("INPLACE_" + op, "UNARY_") by { assert ("INPLACE_" + op)[..6][0] == 'I'; }
    assert !StartsWith("INPLACE_" + op, "BINARY_") by { assert ("INPLACE_" + op)[..7][0] == 'I'; }
    assert ("BINARY_" + op)[..7] == "BINARY_";
    assert ("BINARY_" + op)[7..] == op;
    assert ("INPLACE_" + op)[..8] == "INPLACE_";
    assert ("INPLACE_" + op)[8..] == op;
  }

  // ---------------------------------------------------------------------------
  // Operator tables

  const UnaryNames: set<string> := {"POSITIVE", "NEGATIVE", "NOT", "CONVERT", "INVERT"}

  /** The keys of BINARY_OPERATORS; MATRIX_MULTIPLY is present from host 3.5 on. */
  function BinaryNames(hostVersion: nat): (r: set<string>)
    ensures "MATRIX_MULTIPLY" in r <==> hostVersion >= 35
    ensures "ADD" in r && "SUBSCR" in r && "DIVIDE" in r
  {
    {"POWER", "MULTIPLY", "DIVIDE", "FLOOR_DIVIDE", "TRUE_DIVIDE", "MODULO", "ADD", "SUBTRACT",
     "SUBSCR", "LSHIFT", "RSHIFT", "AND", "XOR", "OR"} +
    (if hostVersion >= 35 then {"MATRIX_MULTIPLY"} else {})
  }

  /** The augmented assignment `inplaceOperator` performs for `op`: DIVIDE and
      FLOOR_DIVIDE both perform `//=`; an unknown name has none. */
  function InplaceOperation(op: string): (r: Option<string>)
    ensures r.Some? <==> op in {"POWER", "MULTIPLY", "DIVIDE", "FLOOR_DIVIDE", "TRUE_DIVIDE", "MODULO", "ADD",
                                "SUBTRACT", "LSHIFT", "RSHIFT", "AND", "XOR", "OR", "MATRIX_MULTIPLY"}
    ensures op == "DIVIDE" ==> r == Some("FLOOR_DIVIDE")
    ensures r.Some? && op != "DIVIDE" ==> r == Some(op)
  {
    if op in {"DIVIDE", "FLOOR_DIVIDE"} then Some("FLOOR_DIVIDE")
    else if op in {"POWER", "MULTIPLY", "TRUE_DIVIDE", "MODULO", "ADD", "SUBTRACT", "LSHIFT",
                   "RSHIFT", "AND", "XOR", "OR", "MATRIX_MULTIPLY"} then Some(op)
    else None
  }

  // ---------------------------------------------------------------------------
  // Stack primitives as functions

  /** `popn(n)`: the last `n` values, deepest first, and what stays below; a
      stack shorter than `n` is emptied. */
  function PopnSplit(s: seq<Value>, n: nat): (r: (seq<Value>, seq<Value>))
    ensures r.1 + r.0 == s
    ensures |r.0| == if n <= |s| then n else |s|
  {
    var cut := if n <= |s| then |s| - n else 0;
    (s[cut..], s[..cut])
  }

  /** Popping what was just pushed gives back the pushed values and the old
      stack. */
  lemma PopnAfterPush(s: seq<Value>, vals: seq<Value>)
    ensures PopnSplit(s + vals, |vals|) == (vals, s)
  {
    assert (s + vals)[|s|..] == vals;
    assert (s + vals)[..|s|] == s;
  }

  // ---------------------------------------------------------------------------
  // Operator stack effects

  /** `unaryOperator(op)`: pop one value and push the operator's result. An
      empty stack is an IndexError, an unknown operator a KeyError (raised
      after the pop). */
  function UnaryEffect(ops: OperatorFn, op: string, s: seq<Value>): Effect
  {
    if |s| == 0 then Effect(s, Some(HostException(IndexError)))
    else
      var x := s[|s| - 1];
      var rest := s[..|s| - 1];
      if op !in UnaryNames then Effect(rest, Some(HostException(KeyError)))
      else
        match ops(UnaryOp, op, [x])
        case Err(e) => Effect(rest, Some(e))
        case Ok(v) => Effect(rest + [v], None)
  }

  /** `unaryOperator` pushes the operator's result in place of the popped value
      exactly when the stack is not empty, the operator is known and it
      returns; otherwise it raises, and at most the popped value is gone. */
  lemma UnaryShape(ops: OperatorFn, op: string, s: seq<Value>)
    ensures var r := UnaryEffect(ops, op, s);
      (r.raised.None? <==> |s| >= 1 && op in UnaryNames && ops(UnaryOp, op, [s[|s| - 1]]).Ok?) &&
      (r.raised.None? ==> r.stack == s[..|s| - 1] + [ops(UnaryOp, op, [s[|s| - 1]]).value]) &&
      (r.raised.Some? ==> r.stack == s || (|s| >= 1 && r.stack == s[..|s| - 1]))
  {
  }

  /** The value BINARY_OPERATORS[op] computes from `x` and `y`. On a Python 3
      host `operator.div` does not exist, and DIVIDE is a function that
      returns None. */
  function BinaryApply(ops: OperatorFn, hostVersion: nat, op: string, x: Value, y: Value): Result<Value, ExcInfo> {
    if op == "DIVIDE" && hostVersion >= 30 then Ok(NoneValue) else ops(BinaryOp, op, [x, y])
  }

  /** `binaryOperator(op)`: pop two values and push the result. Fewer than two
      values is a ValueError that leaves the stack empty; an unknown operator
      is a KeyError. */
  function BinaryEffect(ops: OperatorFn, hostVersion: nat, op: string, s: seq<Value>): Effect
  {
    var (vals, rest) := PopnSplit(s, 2);
    if |vals| < 2 then Effect(rest, Some(HostException(ValueError)))
    else if op !in BinaryNames(hostVersion) then Effect(rest, Some(HostException(KeyError)))
    else
      match BinaryApply(ops, hostVersion, op, vals[0], vals[1])
      case Err(e) => Effect(rest, Some(e))
      case Ok(v) => Effect(rest + [v], None)
  }

  /** `binaryOperator` replaces the top two values by the operator's result
      exactly when there are two, the operator is known and it returns;
      otherwise it raises with both values gone (or the stack emptied when
      there were fewer than two). */
  lemma BinaryShape(ops: OperatorFn, hostVersion: nat, op: string, s: seq<Value>)
    ensures var r := BinaryEffect(ops, hostVersion, op, s);
      (|s| < 2 ==> r == Effect([], Some(HostException(ValueError)))) &&
      (r.raised.None? <==>
        |s| >= 2 && op in BinaryNames(hostVersion) && BinaryApply(ops, hostVersion, op, s[|s| - 2], s[|s| - 1]).Ok?) &&
      (r.raised.None? ==> r.stack == s[..|s| - 2] + [BinaryApply(ops, hostVersion, op, s[|s| - 2], s[|s| - 1]).value]) &&
      (|s| >= 2 && r.raised.Some? ==> r.stack == s[..|s| - 2])
  {
  }

  /** What line 627 pushes after `x @= y`: the call to `operator.imatmul`
      discards its result, so `x` itself is pushed; every other in-place
      operator rebinds `x` to the result. */
  function InplacePushedAsWritten(op: string, x: Value, result: Value): Value {
    if op == "MATRIX_MULTIPLY" then x else result
  }

  /** Whenever `operator.imatmul` returns a new object rather than `x` itself
      (a type with `__matmul__` but no `__imatmul__`), the result is lost and
      the unchanged left operand is pushed. */
  lemma MatmulResultDiscarded(x: Value, result: Value)
    requires result != x
    ensures InplacePushedAsWritten("MATRIX_MULTIPLY", x, result) == x
    ensures InplacePushedAsWritten("MATRIX_MULTIPLY", x, result) != result
  {
  }

  /** `inplaceOperator(op)` with `x @= y` rebinding `x` like every other
      augmented assignment: pop two values and push the operation's result.
      Fewer than two values is a ValueError that leaves the stack empty; an
      unknown operator raises VirtualMachineError. */
  function InplaceEffect(ops: OperatorFn, op: string, s: seq<Value>): Effect
  {
    var (vals, rest) := PopnSplit(s, 2);
    if |vals| < 2 then Effect(rest, Some(HostException(ValueError)))
    else
      match InplaceOperation(op)
      case None => Effect(rest, Some(HostException(VirtualMachineError)))
      case Some(name) =>
        match ops(InplaceOp, name, [vals[0], vals[1]])
        case Err(e) => Effect(rest, Some(e))
        case Ok(v) => Effect(rest + [v], None)
  }

  /** `inplaceOperator(op)` as written: like InplaceEffect, except that after
      MATRIX_MULTIPLY the left operand is pushed in place of the result. */
  function InplaceEffectAsWritten(ops: OperatorFn, op: string, s: seq<Value>): Effect
  {
    var (vals, rest) := PopnSplit(s, 2);
    if |vals| < 2 then Effect(rest, Some(HostException(ValueError)))
    else
      match InplaceOperation(op)
      case None => Effect(rest, Some(HostException(VirtualMachineError)))
      case Some(name) =>
        match ops(InplaceOp, name, [vals[0], vals[1]])
        case Err(e) => Effect(rest, Some(e))
        case Ok(v) => Effect(rest + [InplacePushedAsWritten(op, vals[0], v)], None)
  }

  /** `inplaceOperator` replaces the top two values by the result of the
      augmented assignment exactly when there are two, the operator is known
      and it returns; otherwise it raises with both values gone (or the stack
      emptied when there were fewer than two). */
  lemma InplaceShape(ops: OperatorFn, op: string, s: seq<Value>)
    ensures var r := InplaceEffect(ops, op, s);
      (|s| < 2 ==> r == Effect([], Some(HostException(ValueError)))) &&
      (|s| >= 2 && InplaceOperation(op).None? ==> r == Effect(s[..|s| - 2], Some(HostException(VirtualMachineError)))) &&
      (r.raised.None? <==>
        |s| >= 2 && InplaceOperation(op).Some? && ops(InplaceOp, InplaceOperation(op).value, [s[|s| - 2], s[|s| - 1]]).Ok?) &&
      (r.raised.None? ==>
        r.stack == s[..|s| - 2] + [ops(InplaceOp, InplaceOperation(op).value, [s[|s| - 2], s[|s| - 1]]).value]) &&
      (|s| >= 2 && r.raised.Some? ==> r.stack == s[..|s| - 2])
  {
  }

  /** The count `int(op[-1])` a slice opcode name ends in, if it is a digit. */
  function SliceCount(name: string): (r: Option<nat>)
    ensures r.Some? ==> r.value < 10
  {
    if |name| == 0 then None
    else
      var c := name[|name| - 1];
      if '0' <= c <= '9' then Some((c as int) - ('0' as int)) else None
  }

  /** `op[:-2]`: the slice opcode name without its "+count" suffix. */
  function SliceKind(name: string): (r: string)
    ensures |name| >= 2 ==> |r| == |name| - 2 && name == r + name[|name| - 2..]
    ensures |name| < 2 ==> r == ""
  {
    if |name| >= 2 then name[..|name| - 2] else ""
  }

  /** How many bounds SLICE+count pops: the start for 1, the end for 2, both
      for 3, none otherwise. */
  function SliceBounds(count: nat): nat {
    if count == 1 || count == 2 then 1 else if count == 3 then 2 else 0
  }

  /** `sliceOperator` once the bounds are popped: pop the sequence, take
      `len(l)` as the end when the end is None (not popped, or a popped None),
      then store a popped value into the slice, delete it, or push it. */
  function SliceOn(ops: OperatorFn, kind: string, s: seq<Value>, start: Value, end: Value): Effect
  {
    if |s| == 0 then Effect(s, Some(HostException(IndexError)))
    else
      var l := s[|s| - 1];
      var rest := s[..|s| - 1];
      var stop := if end == NoneValue then ops(SliceOp, "len", [l]) else Ok(end);
      match stop
      case Err(e) => Effect(rest, Some(e))
      case Ok(stop) =>
        if StartsWith(kind, "STORE_") then
          if |rest| == 0 then Effect(rest, Some(HostException(IndexError)))
          else
            match ops(SliceOp, "setslice", [l, start, stop, rest[|rest| - 1]])
            case Err(e) => Effect(rest[..|rest| - 1], Some(e))
            case Ok(_) => Effect(rest[..|rest| - 1], None)
        else if StartsWith(kind, "DELETE_") then
          match ops(SliceOp, "delslice", [l, start, stop])
          case Err(e) => Effect(rest, Some(e))
          case Ok(_) => Effect(rest, None)
        else
          match ops(SliceOp, "getslice", [l, start, stop])
          case Err(e) => Effect(rest, Some(e))
          case Ok(v) => Effect(rest + [v], None)
  }

  /** Once the bounds are popped, a slice operation that completes consumes
      the sequence, and for STORE_ the value stored below it; only the fetch
      form pushes a result. */
  lemma SliceOnShape(ops: OperatorFn, kind: string, s: seq<Value>, start: Value, end: Value)
    ensures var r := SliceOn(ops, kind, s, start, end);
      r.raised.None? ==>
        if StartsWith(kind, "STORE_") then |s| >= 2 && r.stack == s[..|s| - 2]
        else if StartsWith(kind, "DELETE_") then |s| >= 1 && r.stack == s[..|s| - 1]
        else |s| >= 1 && |r.stack| == |s| && r.stack[..|s| - 1] == s[..|s| - 1]
  {
  }

  /** The bounds `sliceOperator` pops for SLICE+count: the start for 1, the end
      for 2, the end and then the start for 3, none otherwise. It gives the
      stack below them with the start (0 unless popped) and the end (None
      unless popped), or, when the stack runs out, the stack left at the
      IndexError. */
  function PopBounds(count: nat, s: seq<Value>): Result<(seq<Value>, Value, Value), seq<Value>>
  {
    if count == 1 then
      if |s| == 0 then Err(s) else Ok((s[..|s| - 1], s[|s| - 1], NoneValue))
    else if count == 2 then
      if |s| == 0 then Err(s) else Ok((s[..|s| - 1], IntValue(0), s[|s| - 1]))
    else if count == 3 then
      if |s| == 0 then Err(s)
      else if |s| == 1 then Err([])
      else Ok((s[..|s| - 2], s[|s| - 2], s[|s| - 1]))
    else Ok((s, IntValue(0), NoneValue))
  }

  /** The bounds are popped from the top, the end above the start, and what
      stays is the stack below them; a stack that runs out keeps a prefix
      shorter than the bounds wanted. */
  lemma PopBoundsShape(count: nat, s: seq<Value>)
    ensures var r := PopBounds(count, s);
      (r.Ok? <==> SliceBounds(count) <= |s|) &&
      (r.Ok? ==> r.value.0 == s[..|s| - SliceBounds(count)]) &&
      (r.Ok? && count == 1 ==> r.value.1 == s[|s| - 1] && r.value.2 == NoneValue) &&
      (r.Ok? && count == 2 ==> r.value.1 == IntValue(0) && r.value.2 == s[|s| - 1]) &&
      (r.Ok? && count == 3 ==> r.value.1 == s[|s| - 2] && r.value.2 == s[|s| - 1]) &&
      (r.Ok? && count !in {1, 2, 3} ==> r.value.1 == IntValue(0) && r.value.2 == NoneValue) &&
      (r.Err? ==> |r.error| <= |s| && |r.error| < SliceBounds(count) && r.error == s[..|r.error|])
  {
  }

  /** `sliceOperator(name)` for SLICE+count, STORE_SLICE+count and
      DELETE_SLICE+count. SLICE+2 pops only the end; its start is 0. */
  function SliceEffect(ops: OperatorFn, name: string, s: seq<Value>): (r: Effect)
  {
    match SliceCount(name)
    case None => Effect(s, Some(HostException(if |name| == 0 then IndexError else ValueError)))
    case Some(count) =>
      match PopBounds(count, s)
      case Err(left) => Effect(left, Some(HostException(IndexError)))
      case Ok((below, start, end)) => SliceOn(ops, SliceKind(name), below, start, end)
  }

  /** A slice instruction that completes consumes its bounds and the sequence
      (and the stored value for STORE_), pushes one result only for the fetch
      form, and leaves everything below untouched. */
  lemma {:induction false} SliceShape(ops: OperatorFn, name: string, s: seq<Value>)
    requires SliceEffect(ops, name, s).raised.None?
    ensures SliceCount(name).Some?
    ensures var kind := SliceKind(name);
      var consumed := SliceBounds(SliceCount(name).value) + 1 + (if StartsWith(kind, "STORE_") then 1 else 0);
      var pushed := if StartsWith(kind, "STORE_") || StartsWith(kind, "DELETE_") then 0 else 1;
      consumed <= |s| &&
      |SliceEffect(ops, name, s).stack| == |s| - consumed + pushed &&
      SliceEffect(ops, name, s).stack[..|s| - consumed] == s[..|s| - consumed]
  {
    var count := SliceCount(name).value;
    PopBoundsShape(count, s);
    var (below, start, end) := PopBounds(count, s).value;
    assert SliceEffect(ops, name, s) == SliceOn(ops, SliceKind(name), below, start, end);
    SliceOnShape(ops, SliceKind(name), below, start, end);
  }

  // ---------------------------------------------------------------------------
  // Handler lookup

  /** The lookup at lines 406-411 as written: `bytecode_fn` is assigned only
      when the handler set has the name, so for an unknown name the test
      `not bytecode_fn` reads an unbound local and raises UnboundLocalError. */
  function LookupHandlerAsWritten(env: Env, name: string): (r: Result<Handler, ExcInfo>)
    ensures r.Ok? <==> name in env.handlers
    ensures r.Ok? ==> r.value == env.handlers[name]
    ensures r.Err? ==> r.error == HostException(UnboundLocalError)
  {
    if name in env.handlers then Ok(env.handlers[name]) else Err(HostException(UnboundLocalError))
  }

  /** The VirtualMachineError "Unknown bytecode type" of line 411 is never
      raised: an unknown name raises UnboundLocalError instead. */
  lemma UnknownOpcodeAsWritten(env: Env, name: string)
    requires name !in env.handlers
    ensures LookupHandlerAsWritten(env, name).Err?
    ensures LookupHandlerAsWritten(env, name).error.exctype != HostClass(VirtualMachineError)
  {
  }

  /** The handler lookup with `bytecode_fn` initialised: an unknown opcode
      name raises VirtualMachineError, a known one yields its handler. */
  function LookupHandler(env: Env, name: string): (r: Result<Handler, ExcInfo>)
    ensures r.Ok? <==> name in env.handlers
    ensures r.Ok? ==> r.value == env.handlers[name]
    ensures r.Err? ==> r.error.exctype == HostClass(VirtualMachineError)
  {
    if name in env.handlers then Ok(env.handlers[name]) else Err(HostException(VirtualMachineError))
  }

  // ---------------------------------------------------------------------------
  // Executing one instruction

  /** The guarded part of `dispatch`: route the instruction and run it. */
  function Execute(env: Env, name: string, args: seq<Value>, st: OpState): (r: OpResult)
  {
    var ops := env.operators;
    match RouteOf(name)
    case ToUnary(op) => FromEffect(st, UnaryEffect(ops, op, st.frame.stack))
    case ToBinary(op) => FromEffect(st, BinaryEffect(ops, env.hostVersion, op, st.frame.stack))
    case ToInplace(op) => FromEffect(st, InplaceEffect(ops, op, st.frame.stack))
    case ToSlice => FromEffect(st, SliceEffect(ops, name, st.frame.stack))
    case ToHandler =>
      match LookupHandler(env, name)
      case Err(e) => OpResult(st, Raise(e))
      case Ok(h) => h(args, st)
  }

  /** An operator's effect as an instruction result: only the value stack
      changes, and the signal is None unless the operator raised. */
  function FromEffect(st: OpState, e: Effect): OpResult {
    OpResult(st.(frame := st.frame.(stack := e.stack)), if e.raised.Some? then Raise(e.raised.value) else Signal(NoWhy))
  }

  /** The guarded part of `dispatch` as written: an unknown opcode name raises
      UnboundLocalError, and `x @= y` pushes `x`. */
  function ExecuteAsWritten(env: Env, name: string, args: seq<Value>, st: OpState): OpResult
  {
    var ops := env.operators;
    match RouteOf(name)
    case ToUnary(op) => FromEffect(st, UnaryEffect(ops, op, st.frame.stack))
    case ToBinary(op) => FromEffect(st, BinaryEffect(ops, env.hostVersion, op, st.frame.stack))
    case ToInplace(op) => FromEffect(st, InplaceEffectAsWritten(ops, op, st.frame.stack))
    case ToSlice => FromEffect(st, SliceEffect(ops, name, st.frame.stack))
    case ToHandler =>
      match LookupHandlerAsWritten(env, name)
      case Err(e) => OpResult(st, Raise(e))
      case Ok(h) => h(args, st)
  }

  /** The code as written and the corrected `Execute` the run model uses differ
      in exactly two cases. An opcode with no handler records UnboundLocalError
      rather than VirtualMachineError. A successful INPLACE_MATRIX_MULTIPLY
      leaves the left operand on the stack rather than the result. Every other
      instruction behaves the same under both. */
  lemma ExecuteAsWrittenDiffers(env: Env, name: string, args: seq<Value>, st: OpState)
    ensures var w := ExecuteAsWritten(env, name, args, st);
      var x := Execute(env, name, args, st);
      var s := st.frame.stack;
      if RouteOf(name).ToHandler? && name !in env.handlers then
        w == OpResult(st, Raise(HostException(UnboundLocalError))) &&
        x == OpResult(st, Raise(HostException(VirtualMachineError)))
      else if RouteOf(name) == ToInplace("MATRIX_MULTIPLY") && |s| >= 2 &&
              env.operators(InplaceOp, "MATRIX_MULTIPLY", [s[|s| - 2], s[|s| - 1]]).Ok? then
        w.state.frame.stack == s[..|s| - 2] + [s[|s| - 2]] &&
        x.state.frame.stack == s[..|s| - 2] + [env.operators(InplaceOp, "MATRIX_MULTIPLY", [s[|s| - 2], s[|s| - 1]]).value] &&
        w.outcome == Signal(NoWhy) && x.outcome == Signal(NoWhy) &&
        w.state == x.state.(frame := w.state.frame) && w.state.frame == x.state.frame.(stack := w.state.frame.stack)
      else
        w == x
  {
    match RouteOf(name)
    case ToInplace(op) =>
      var s := st.frame.stack;
      if |s| >= 2 {
        assert PopnSplit(s, 2) == (s[|s| - 2..], s[..|s| - 2]);
      }
    case _ =>
  }

  /** The operator families never touch the block stack, the instruction
      offset, `return_value` or `last_exception`, and never produce a signal
      other than None. */
  lemma OperatorsOnlyTouchStack(env: Env, name: string, args: seq<Value>, st: OpState)
    requires !RouteOf(name).ToHandler?
    ensures var r := Execute(env, name, args, st);
      r.state.frame.blocks == st.frame.blocks && r.state.frame.lasti == st.frame.lasti &&
      r.state.returnValue == st.returnValue && r.state.lastException == st.lastException &&
      (r.outcome.Signal? ==> r.outcome.why == NoWhy)
  {
  }

  /** An opcode name with no handler and no operator prefix raises
      VirtualMachineError without changing anything. */
  lemma UnknownOpcodeRaises(env: Env, name: string, args: seq<Value>, st: OpState)
    requires RouteOf(name).ToHandler? && name !in env.handlers
    ensures Execute(env, name, args, st) == OpResult(st, Raise(HostException(VirtualMachineError)))
  {
  }
}
