/** The virtual machine as objects: namespaces and frames updated in place,
    and the `VirtualMachine` whose methods push and pop values, blocks and
    frames, decode, dispatch, manage blocks and run a frame, each proved
    against the functions of the other modules. */
module Machine {
  import opened Values
  import opened Bytecode
  import opened Blocks
  import opened Operators
  import opened Interp

  /** A Python dict used as a namespace (`f_globals`, `f_locals`). */
  class Namespace {
    var entries: map<string, Value>

    constructor(init: map<string, Value>)
      ensures entries == init
    {
      entries := init;
    }

    /** `dict.update`: the argument's entries win. */
    method Update(args: map<string, Value>)
      modifies this
      ensures entries == old(entries) + args
    {
      entries := entries + args;
    }
  }

  /** An execution frame: its code and namespaces, the caller it returns to,
      and the value stack, block stack and instruction offset the machine
      updates in place. */
  class Frame {
    const code: Code
    const globals: Namespace
    const locals: Namespace
    var back: Frame?
    var stack: seq<Value>
    var blocks: seq<Block>
    var lasti: Value

    constructor(code: Code, globals: Namespace, locals: Namespace, back: Frame?)
      ensures this.code == code && this.globals == globals && this.locals == locals && this.back == back
      ensures stack == [] && blocks == [] && lasti == IntValue(0)
    {
      this.code := code;
      this.globals := globals;
      this.locals := locals;
      this.back := back;
      stack := [];
      blocks := [];
      lasti := IntValue(0);
    }

    function State(): FrameState
      reads this
    {
      FrameState(stack, blocks, lasti)
    }
  }

  /** The namespace a frame run with no caller and no globals gets. */
  function TopLevelNamespace(builtins: Value): (r: map<string, Value>)
    ensures r.Keys == {"__builtins__", "__name__", "__doc__", "__package__"}
    ensures r["__name__"] == StrValue("__main__") && r["__builtins__"] == builtins
  {
    map["__builtins__" := builtins, "__name__" := StrValue("__main__"), "__doc__" := NoneValue, "__package__" := NoneValue]
  }

  /** Whether a raised exception is caught by `except Exception`: the three
      exceptions deriving directly from `BaseException` are not. */
  predicate IsException(e: ExcInfo) {
    e.exctype !in {ClassValue("SystemExit"), ClassValue("KeyboardInterrupt"), ClassValue("GeneratorExit")}
  }

  /** The value stack of a frame, empty when there is none. */
  function StackOf(f: Frame?): seq<Value>
    reads f
  {
    if f == null then [] else f.stack
  }

  class VirtualMachine {
    /** The call stack of frames, innermost last, and the current frame. */
    var frames: seq<Frame>
    var frame: Frame?
    var returnValue: Value
    var lastException: Option<ExcInfo>
    /** The frame the last traceback was taken from. */
    var lastTraceback: Frame?
    var inExceptionProcessing: bool
    var linestarts: map<int, int>
    /** The guest Python version times ten. */
    const version: nat
    const opc: OpcodeTable
    const env: Env
    /** The host's `__builtins__`. */
    const builtins: Value
    /** Whether `run_code` lets the guest's exception through unchanged. */
    const vmtestTesting: bool

    /** The current frame is the innermost one, and there is none exactly when
        the call stack is empty. */
    ghost predicate Valid()
      reads this
    {
      ValidTable(opc) &&
      (frame == null <==> |frames| == 0) &&
      (|frames| > 0 ==> frame == frames[|frames| - 1])
    }

    function Cfg(): Config {
      Config(opc, env, version)
    }

    function Wordcoded(): bool {
      Wordcode(env.hostVersion)
    }

    constructor(version: nat, opc: OpcodeTable, env: Env, builtins: Value, vmtestTesting: bool)
      requires ValidTable(opc)
      ensures Valid() && frames == [] && frame == null
      ensures returnValue == NoneValue && lastException == None && lastTraceback == null && !inExceptionProcessing
      ensures this.version == version && this.opc == opc && this.env == env && this.builtins == builtins
      ensures this.vmtestTesting == vmtestTesting
    {
      this.version := version;
      this.vmtestTesting := vmtestTesting;
      this.opc := opc;
      this.env := env;
      this.builtins := builtins;
      frames := [];
      frame := null;
      returnValue := NoneValue;
      lastException := None;
      lastTraceback := null;
      inExceptionProcessing := false;
      linestarts := map[];
    }

    /** The machine fields other than the current frame's contents and
        `last_exception` are as they were. */
    twostate predicate Kept()
      reads this
    {
      frames == old(frames) && frame == old(frame) && returnValue == old(returnValue) &&
      lastTraceback == old(lastTraceback) && inExceptionProcessing == old(inExceptionProcessing) &&
      linestarts == old(linestarts)
    }

    // -------------------------------------------------------------------------
    // Value stack

    /** `top()`: the top value; an empty stack is an IndexError. */
    method Top() returns (r: Result<Value, ExcInfo>)
      requires frame != null
      ensures |frame.stack| > 0 <==> r.Ok?
      ensures r.Ok? ==> r.value == frame.stack[|frame.stack| - 1]
      ensures r.Err? ==> r.error == HostException(IndexError)
    {
      if |frame.stack| > 0 {
        r := Ok(frame.stack[|frame.stack| - 1]);
      } else {
        r := Err(HostException(IndexError));
      }
    }

    /** `pop(i)`: remove and return the value `i` places below the top. */
    method Pop(i: nat) returns (r: Result<Value, ExcInfo>)
      requires frame != null
      modifies frame`stack, frame`blocks, frame`lasti
      ensures r.Ok? <==> i < |old(frame.stack)|
      ensures r.Ok? ==> var k := |old(frame.stack)| - 1 - i;
        r.value == old(frame.stack)[k] && frame.stack == old(frame.stack)[..k] + old(frame.stack)[k + 1..]
      ensures r.Err? ==> r.error == HostException(IndexError) && frame.stack == old(frame.stack)
      ensures frame.blocks == old(frame.blocks) && frame.lasti == old(frame.lasti)
    {
      var s := frame.stack;
      if i < |s| {
        var k := |s| - 1 - i;
        r := Ok(s[k]);
        frame.stack := s[..k] + s[k + 1..];
      } else {
        r := Err(HostException(IndexError));
      }
    }

    /** `push(*vals)`. */
    method Push(vals: seq<Value>)
      requires frame != null
      modifies frame`stack, frame`blocks, frame`lasti
      ensures frame.stack == old(frame.stack) + vals
      ensures frame.blocks == old(frame.blocks) && frame.lasti == old(frame.lasti)
    {
      frame.stack := frame.stack + vals;
    }

    /** `popn(n)`: remove and return the top `n` values, deepest first; a
        shorter stack is emptied and returned whole. */
    method Popn(n: nat) returns (vals: seq<Value>)
      requires frame != null
      modifies frame`stack, frame`blocks, frame`lasti
      ensures (vals, frame.stack) == PopnSplit(old(frame.stack), n)
      ensures frame.blocks == old(frame.blocks) && frame.lasti == old(frame.lasti)
    {
      if n != 0 {
        var s := frame.stack;
        var cut := if n <= |s| then |s| - n else 0;
        vals := s[cut..];
        frame.stack := s[..cut];
      } else {
        vals := [];
        assert frame.stack[|frame.stack|..] == [] && frame.stack[..|frame.stack|] == frame.stack;
      }
    }

    /** `peek(n)`: `stack[-n]`, so `peek(0)` reads the bottom of the stack. */
    method Peek(n: int) returns (r: Result<Value, ExcInfo>)
      requires frame != null
      ensures r.Ok? <==> -|frame.stack| <= -n < |frame.stack|
      ensures 1 <= n <= |frame.stack| ==> r == Ok(frame.stack[|frame.stack| - n])
      ensures n == 0 && |frame.stack| > 0 ==> r == Ok(frame.stack[0])
    {
      match PyIndex(frame.stack, -n)
      case Some(v) => r := Ok(v);
      case None => r := Err(HostException(IndexError));
    }

    // -------------------------------------------------------------------------
    // Block stack and instruction offset

    /** `push_block(type, handler, level)`: the level defaults to the current
        stack depth. */
    method PushBlock(kind: BlockType, handler: Value, level: Option<nat>)
      requires frame != null
      modifies frame`stack, frame`blocks, frame`lasti
      ensures frame.blocks == old(frame.blocks) + [Block(kind, handler, if level.Some? then level.value else |frame.stack|)]
      ensures frame.stack == old(frame.stack) && frame.lasti == old(frame.lasti)
    {
      var lvl := if level.Some? then level.value else |frame.stack|;
      frame.blocks := frame.blocks + [Block(kind, handler, lvl)];
    }

    /** `pop_block()`. */
    method PopBlock() returns (r: Result<Block, ExcInfo>)
      requires frame != null
      modifies frame`stack, frame`blocks, frame`lasti
      ensures r.Ok? <==> |old(frame.blocks)| > 0
      ensures r.Ok? ==> old(frame.blocks) == frame.blocks + [r.value]
      ensures r.Err? ==> r.error == HostException(IndexError) && frame.blocks == old(frame.blocks)
      ensures frame.stack == old(frame.stack) && frame.lasti == old(frame.lasti)
    {
      var b := frame.blocks;
      if |b| > 0 {
        r := Ok(b[|b| - 1]);
        frame.blocks := b[..|b| - 1];
      } else {
        r := Err(HostException(IndexError));
      }
    }

    /** `top_block()`. */
    method TopBlock() returns (r: Result<Block, ExcInfo>)
      requires frame != null
      ensures r.Ok? <==> |frame.blocks| > 0
      ensures r.Ok? ==> r.value == frame.blocks[|frame.blocks| - 1]
      ensures r.Err? ==> r.error == HostException(IndexError)
    {
      if |frame.blocks| > 0 {
        r := Ok(frame.blocks[|frame.blocks| - 1]);
      } else {
        r := Err(HostException(IndexError));
      }
    }

    /** `jump(target)`: the next instruction is read at `target`. */
    method Jump(target: Value)
      requires frame != null
      modifies frame`stack, frame`blocks, frame`lasti
      ensures frame.lasti == target
      ensures frame.stack == old(frame.stack) && frame.blocks == old(frame.blocks)
    {
      frame.lasti := target;
    }

    // -------------------------------------------------------------------------
    // Frames

    /** `make_frame`: choose the namespaces, give the code fresh locals when it
        asks for them, copy the call arguments into the locals, and link the
        new frame to the current one. A locals namespace passed without
        globals is ignored; one that is used is updated in place. */
    method MakeFrame(code: Code, callargs: map<string, Value>, globals: Namespace?, locals: Namespace?) returns (f: Frame)
      requires Valid()
      modifies globals, locals
      ensures fresh(f) && f.code == code && f.back == frame
      ensures f.stack == [] && f.blocks == [] && f.lasti == IntValue(0)
      ensures globals != null ==> f.globals == globals
      ensures globals == null && |frames| > 0 ==> f.globals == frame.globals
      ensures globals == null && |frames| == 0 ==> fresh(f.globals)
      ensures NewLocals(code.flags) || (globals == null && |frames| > 0) ==> fresh(f.locals) && f.locals.entries == callargs
      ensures !NewLocals(code.flags) && globals == null && |frames| == 0 ==>
        f.locals == f.globals && f.globals.entries == TopLevelNamespace(builtins) + callargs
      ensures NewLocals(code.flags) && globals == null && |frames| == 0 ==> f.globals.entries == TopLevelNamespace(builtins)
      ensures !NewLocals(code.flags) && globals != null ==>
        f.locals == (if locals == null then globals else locals) &&
        f.locals.entries == old((if locals == null then globals else locals).entries) + callargs
      ensures globals != null && globals != f.locals ==> globals.entries == old(globals.entries)
      ensures locals != null && locals != f.locals ==> locals.entries == old(locals.entries)
    {
      var g: Namespace;
      var l: Namespace;
      if globals != null {
        g := globals;
        l := if locals == null then globals else locals;
      } else if |frames| > 0 {
        g := frame.globals;
        l := new Namespace(map[]);
      } else {
        g := new Namespace(TopLevelNamespace(builtins));
        l := g;
      }
      if NewLocals(code.flags) {
        l := new Namespace(map[]);
      }
      l.Update(callargs);
      f := new Frame(code, g, l, frame);
    }

    /** `push_frame`: the frame becomes the innermost and current one. */
    method PushFrame(f: Frame)
      requires Valid()
      modifies this
      ensures Valid() && frames == old(frames) + [f] && frame == f
      ensures returnValue == old(returnValue) && lastException == old(lastException)
      ensures lastTraceback == old(lastTraceback) && inExceptionProcessing == old(inExceptionProcessing)
      ensures linestarts == old(linestarts)
    {
      frames := frames + [f];
      frame := f;
    }

    /** `pop_frame`: drop the innermost frame; its caller, if any, becomes
        current. Popping an empty call stack is an IndexError. */
    method PopFrame() returns (fault: Option<Fault>)
      requires Valid()
      modifies this
      ensures Valid()
      ensures fault.Some? <==> |old(frames)| == 0
      ensures fault.Some? ==> fault.value == HostError(IndexError) && frames == old(frames)
      ensures fault.None? ==> frames == old(frames)[..|old(frames)| - 1]
      ensures returnValue == old(returnValue) && lastException == old(lastException)
      ensures lastTraceback == old(lastTraceback) && inExceptionProcessing == old(inExceptionProcessing)
      ensures linestarts == old(linestarts)
    {
      if |frames| == 0 {
        return Some(HostError(IndexError));
      }
      frames := frames[..|frames| - 1];
      if |frames| > 0 {
        frame := frames[|frames| - 1];
      } else {
        frame := null;
      }
      return None;
    }

    // -------------------------------------------------------------------------
    // Block management

    /** `unwind_block(block)`: pop down to the block's level (three above it for
        an "except-handler" block); for an "except-handler" block pop the saved
        `tb, value, exctype` and make them the last exception. With fewer than
        three values left the unpacking fails and the stack is left empty. */
    method UnwindBlock(b: Block) returns (fault: Option<Fault>)
      requires frame != null
      modifies this, frame`stack, frame`blocks, frame`lasti
      ensures Kept()
      ensures frame.blocks == old(frame.blocks) && frame.lasti == old(frame.lasti)
      ensures var u := Unwind(old(frame.stack), b);
        (fault.None? <==> u.Ok?) &&
        (u.Ok? ==> frame.stack == u.value.stack &&
                   lastException == (if u.value.restored.Some? then u.value.restored else old(lastException))) &&
        (u.Err? ==> fault == Some(u.error) && frame.stack == [])
    {
      var keep := KeepDepth(b);
      ghost var s0 := frame.stack;
      while |frame.stack| > keep
        invariant frame != null && frame == old(frame) && Kept() && lastException == old(lastException)
        invariant frame.stack == s0[..|frame.stack|]
        invariant |frame.stack| >= |Truncate(s0, keep)|
        invariant frame.blocks == old(frame.blocks) && frame.lasti == old(frame.lasti)
        decreases |frame.stack|
      {
        var _ := Pop(0);
      }
      assert frame.stack == Truncate(s0, keep);
      if b.kind == ExceptHandler {
        var vals := Popn(3);
        if |vals| < 3 {
          return Some(HostError(ValueError));
        }
        lastException := Some(ExcInfo(vals[2], vals[1], vals[0]));
      }
      return None;
    }

    /** `manage_block_stack(why)` on the current frame, which has a block. */
    method ManageBlockStack(why: Why) returns (r: Result<Why, Fault>)
      requires frame != null && |frame.blocks| > 0 && why != Yield
      modifies this, frame`stack, frame`blocks, frame`lasti
      ensures Kept()
      ensures var m := ManageBlocks(old(frame.State()), old(returnValue), old(lastException), why, Modern(version));
        (r.Ok? <==> m.Ok?) &&
        (m.Ok? ==> r.value == m.value.why && frame.State() == m.value.frame && lastException == m.value.lastException) &&
        (m.Err? ==> r.error == m.error)
    {
      var block := frame.blocks[|frame.blocks| - 1];
      if block.kind == Loop && why == Continue {
        Jump(returnValue);
        return Ok(NoWhy);
      }
      var _ := PopBlock();
      r := LeaveBlock(block, why);
    }

    /** The rest of `manage_block_stack` once `block` is popped: unwind it,
        then jump to a loop's end on "break" or enter the block's handler. */
    method LeaveBlock(block: Block, why: Why) returns (r: Result<Why, Fault>)
      requires frame != null
      modifies this, frame`stack, frame`blocks, frame`lasti
      ensures Kept()
      ensures var m := Leave(old(frame.State()), block, old(returnValue), old(lastException), why, Modern(version));
        (r.Ok? <==> m.Ok?) &&
        (m.Ok? ==> r.value == m.value.why && frame.State() == m.value.frame && lastException == m.value.lastException) &&
        (m.Err? ==> r.error == m.error)
    {
      var fault := UnwindBlock(block);
      if fault.Some? {
        return Err(fault.value);
      }
      if block.kind == Loop && why == Break {
        Jump(block.handler);
        return Ok(NoWhy);
      }
      r := EnterBlock(block, why);
    }

    /** The rest of `manage_block_stack` once the block is popped and unwound:
        enter its handler if it takes the signal, or hand the signal back. */
    method EnterBlock(block: Block, why: Why) returns (r: Result<Why, Fault>)
      requires frame != null
      modifies this, frame`stack, frame`blocks, frame`lasti
      ensures Kept() && lastException == old(lastException)
      ensures var m := Enter(old(frame.State()), block, old(returnValue), old(lastException), why, Modern(version));
        (r.Ok? <==> m.Ok?) &&
        (m.Ok? ==> r.value == m.value.why && frame.State() == m.value.frame) &&
        (m.Err? ==> r.error == m.error)
    {
      if !Modern(version) {
        r := EnterLegacy(block, why);
      } else {
        r := EnterModern(block, why);
      }
    }

    /** EnterBlock before 3.0: "finally", "with", and "setup-except" on an
        exception, take the signal. */
    method EnterLegacy(block: Block, why: Why) returns (r: Result<Why, Fault>)
      requires frame != null
      modifies frame`stack, frame`blocks, frame`lasti
      ensures var m := Enter(old(frame.State()), block, returnValue, lastException, why, false);
        (r.Ok? <==> m.Ok?) &&
        (m.Ok? ==> r.value == m.value.why && frame.State() == m.value.frame) &&
        (m.Err? ==> r.error == m.error)
    {
      if block.kind == Finally || (block.kind == SetupExcept && why == Exception) || block.kind == With {
        if why == Exception {
          match lastException
          case None =>
            return Err(HostError(TypeError));
          case Some(e) =>
            Push([e.tb, e.value, e.exctype]);
        } else {
          if why in {Return, Continue} {
            Push([returnValue]);
          }
          Push([WhyValue(why)]);
        }
        Jump(block.handler);
        return Ok(NoWhy);
      }
      return Ok(why);
    }

    /** EnterBlock from 3.0 on: an exception enters "setup-except" and
        "finally" behind an "except-handler" guard; "finally" takes every
        other signal. */
    method EnterModern(block: Block, why: Why) returns (r: Result<Why, Fault>)
      requires frame != null
      modifies frame`stack, frame`blocks, frame`lasti
      ensures var m := Enter(old(frame.State()), block, returnValue, lastException, why, true);
        (r.Ok? <==> m.Ok?) &&
        (m.Ok? ==> r.value == m.value.why && frame.State() == m.value.frame) &&
        (m.Err? ==> r.error == m.error)
    {
      if why == Exception && (block.kind == SetupExcept || block.kind == Finally) {
        PushBlock(ExceptHandler, NoneValue, None);
        match lastException
        case None =>
          return Err(HostError(TypeError));
        case Some(e) =>
          Push([e.tb, e.value, e.exctype]);
          Push([e.tb, e.value, e.exctype]);
        Jump(block.handler);
        return Ok(NoWhy);
      } else if block.kind == Finally {
        if why in {Return, Continue} {
          Push([returnValue]);
        }
        Push([WhyValue(why)]);
        Jump(block.handler);
        return Ok(NoWhy);
      }
      return Ok(why);
    }

    // -------------------------------------------------------------------------
    // Decoding

    /** `parse_byte_and_args`: decode the instruction at `f_lasti`, report the
        line starting there, and resolve its operand. */
    method ParseByteAndArgs() returns (r: Result<Decoded, Fault>)
      requires frame != null && ValidTable(opc)
      modifies frame`lasti
      ensures r == DecodeAt(opc, Wordcoded(), frame.code, linestarts, old(frame.lasti))
      ensures r.Ok? ==> frame.lasti == IntValue(r.value.fetched.next)
      ensures frame.stack == old(frame.stack) && frame.blocks == old(frame.blocks)
    {
      if !frame.lasti.IntValue? {
        return Err(HostError(TypeError));
      }
      var fetched := FetchInstruction();
      if fetched.Err? {
        return Err(fetched.error);
      }
      var fx := fetched.value;
      var line := if fx.offset in linestarts then Some(linestarts[fx.offset]) else None;
      var name := opc.opname[fx.opcode];
      match fx.operand
      case None =>
        r := Ok(Decoded(Instr(name, [], fx.offset, line), fx));
      case Some(intArg) =>
        match Resolve(opc, frame.code, fx.opcode, intArg, frame.lasti.i)
        case Err(e) =>
          r := Err(e);
        case Ok(arg) =>
          r := Ok(Decoded(Instr(name, [arg], fx.offset, line), fx));
    }

    /** The decode loop of `parse_byte_and_args`: read opcodes from `f_lasti`,
        folding EXTENDED_ARG operands into the carry, until one that is not
        EXTENDED_ARG, and leave `f_lasti` after it. */
    method FetchInstruction() returns (r: Result<Fetched, Fault>)
      requires frame != null && ValidTable(opc) && frame.lasti.IntValue?
      modifies frame`lasti
      ensures r == Fetch(opc, Wordcoded(), frame.code.code, old(frame.lasti).i, 0)
      ensures r.Ok? ==> frame.lasti == IntValue(r.value.next)
    {
      var co := frame.code.code;
      var wordcode := Wordcoded();
      var pos := frame.lasti.i;
      ghost var start := pos;
      var k: nat := 0;
      var extended: nat := 0;
      while true
        invariant Fetch(opc, wordcode, co, start, 0) == Bump(Fetch(opc, wordcode, co, pos, extended), k)
        decreases |co| - pos
      {
        var opoffset := pos;
        var byte := PyIndex(co, opoffset);
        if byte.None? {
          frame.lasti := IntValue(pos);
          return Err(HostError(IndexError));
        }
        var op := byte.value;
        pos := opoffset + 1;
        if !HasArgument(opc, op) {
          if wordcode {
            pos := opoffset + 2;
          }
          frame.lasti := IntValue(pos);
          return Ok(Fetched(op, opoffset, None, pos, k));
        }
        var operand := ReadOperand(wordcode, co, pos, extended);
        if operand.None? {
          frame.lasti := IntValue(pos);
          return Err(HostError(IndexError));
        }
        var intArg := operand.value;
        pos := opoffset + InstrSize(wordcode, true);
        if op == opc.extendedArg {
          FetchPrefixStep(opc, wordcode, co, opoffset, extended);
          BumpTwice(Fetch(opc, wordcode, co, pos, intArg * CarryBase(wordcode)), k);
          extended := intArg * CarryBase(wordcode);
          k := k + 1;
        } else {
          frame.lasti := IntValue(pos);
          return Ok(Fetched(op, opoffset, Some(intArg), pos, k));
        }
      }
    }

    // -------------------------------------------------------------------------
    // Operators

    /** `unaryOperator(op)`. */
    method UnaryOperator(op: string) returns (raised: Option<ExcInfo>)
      requires frame != null
      modifies frame`stack, frame`blocks, frame`lasti
      ensures var e := UnaryEffect(env.operators, op, old(frame.stack));
        frame.stack == e.stack && raised == e.raised
      ensures frame.blocks == old(frame.blocks) && frame.lasti == old(frame.lasti)
    {
      var x := Pop(0);
      if x.Err? {
        return Some(x.error);
      }
      if op !in UnaryNames {
        return Some(HostException(KeyError));
      }
      match env.operators(UnaryOp, op, [x.value])
      case Err(e) =>
        return Some(e);
      case Ok(v) =>
        Push([v]);
        return None;
    }

    /** `binaryOperator(op)`. */
    method BinaryOperator(op: string) returns (raised: Option<ExcInfo>)
      requires frame != null
      modifies frame`stack, frame`blocks, frame`lasti
      ensures var e := BinaryEffect(env.operators, env.hostVersion, op, old(frame.stack));
        frame.stack == e.stack && raised == e.raised
      ensures frame.blocks == old(frame.blocks) && frame.lasti == old(frame.lasti)
    {
      var vals := Popn(2);
      if |vals| < 2 {
        return Some(HostException(ValueError));
      }
      if op !in BinaryNames(env.hostVersion) {
        return Some(HostException(KeyError));
      }
      match BinaryApply(env.operators, env.hostVersion, op, vals[0], vals[1])
      case Err(e) =>
        return Some(e);
      case Ok(v) =>
        Push([v]);
        return None;
    }

    /** `inplaceOperator(op)`, with `x @= y` binding the result. */
    method InplaceOperator(op: string) returns (raised: Option<ExcInfo>)
      requires frame != null
      modifies frame`stack, frame`blocks, frame`lasti
      ensures var e := InplaceEffect(env.operators, op, old(frame.stack));
        frame.stack == e.stack && raised == e.raised
      ensures frame.blocks == old(frame.blocks) && frame.lasti == old(frame.lasti)
    {
      var vals := Popn(2);
      if |vals| < 2 {
        return Some(HostException(ValueError));
      }
      match InplaceOperation(op)
      case None =>
        return Some(HostException(VirtualMachineError));
      case Some(name) =>
        match env.operators(InplaceOp, name, [vals[0], vals[1]])
        case Err(e) =>
          return Some(e);
        case Ok(v) =>
          Push([v]);
          return None;
    }

    /** `sliceOperator(name)`. */
    method SliceOperator(name: string) returns (raised: Option<ExcInfo>)
      requires frame != null
      modifies frame`stack, frame`blocks, frame`lasti
      ensures var e := SliceEffect(env.operators, name, old(frame.stack));
        frame.stack == e.stack && raised == e.raised
      ensures frame.blocks == old(frame.blocks) && frame.lasti == old(frame.lasti)
    {
      var count := SliceCount(name);
      if count.None? {
        return Some(HostException(if |name| == 0 then IndexError else ValueError));
      }
      var bounds := PopSliceBounds(count.value);
      if bounds.Err? {
        return Some(HostException(IndexError));
      }
      var (start, end) := bounds.value;
      raised := SliceOnSequence(SliceKind(name), start, end);
    }

    /** The bounds `sliceOperator` pops for SLICE+count. */
    method PopSliceBounds(count: nat) returns (r: Result<(Value, Value), ExcInfo>)
      requires frame != null
      modifies frame`stack, frame`blocks, frame`lasti
      ensures var p := PopBounds(count, old(frame.stack));
        (r.Ok? <==> p.Ok?) &&
        (p.Ok? ==> frame.stack == p.value.0 && r.value == (p.value.1, p.value.2)) &&
        (p.Err? ==> frame.stack == p.error)
      ensures frame.blocks == old(frame.blocks) && frame.lasti == old(frame.lasti)
    {
      var start := IntValue(0);
      var end := NoneValue;
      if count == 1 {
        var p := Pop(0);
        if p.Err? {
          return Err(p.error);
        }
        start := p.value;
      } else if count == 2 {
        var p := Pop(0);
        if p.Err? {
          return Err(p.error);
        }
        end := p.value;
      } else if count == 3 {
        var p := Pop(0);
        if p.Err? {
          return Err(p.error);
        }
        end := p.value;
        var q := Pop(0);
        if q.Err? {
          return Err(q.error);
        }
        start := q.value;
      }
      return Ok((start, end));
    }

    /** The part of `sliceOperator` after the bounds are popped. */
    method SliceOnSequence(kind: string, start: Value, end: Value) returns (raised: Option<ExcInfo>)
      requires frame != null
      modifies frame`stack, frame`blocks, frame`lasti
      ensures var e := SliceOn(env.operators, kind, old(frame.stack), start, end);
        frame.stack == e.stack && raised == e.raised
      ensures frame.blocks == old(frame.blocks) && frame.lasti == old(frame.lasti)
    {
      var ops := env.operators;
      var l := Pop(0);
      if l.Err? {
        return Some(l.error);
      }
      var stop := end;
      if end == NoneValue {
        var n := ops(SliceOp, "len", [l.value]);
        if n.Err? {
          return Some(n.error);
        }
        stop := n.value;
      }
      if StartsWith(kind, "STORE_") {
        var v := Pop(0);
        if v.Err? {
          return Some(v.error);
        }
        var done := ops(SliceOp, "setslice", [l.value, start, stop, v.value]);
        return if done.Err? then Some(done.error) else None;
      } else if StartsWith(kind, "DELETE_") {
        var done := ops(SliceOp, "delslice", [l.value, start, stop]);
        return if done.Err? then Some(done.error) else None;
      } else {
        var got := ops(SliceOp, "getslice", [l.value, start, stop]);
        if got.Err? {
          return Some(got.error);
        }
        Push([got.value]);
        return None;
      }
    }

    // -------------------------------------------------------------------------
    // Dispatch

    /** The guarded part of `dispatch`: route the instruction to an operator
        family or to its handler and run it. */
    method ExecuteInstruction(name: string, args: seq<Value>) returns (o: Outcome)
      requires frame != null
      modifies this`returnValue, this`lastException, frame`stack, frame`blocks, frame`lasti
      ensures var x := Execute(env, name, args, OpState(old(frame.State()), old(returnValue), old(lastException)));
        o == x.outcome && frame.State() == x.state.frame &&
        returnValue == x.state.returnValue && lastException == x.state.lastException
    {
      var raised: Option<ExcInfo> := None;
      match RouteOf(name) {
        case ToUnary(op) =>
          raised := UnaryOperator(op);
        case ToBinary(op) =>
          raised := BinaryOperator(op);
        case ToInplace(op) =>
          raised := InplaceOperator(op);
        case ToSlice =>
          raised := SliceOperator(name);
        case ToHandler =>
          match LookupHandler(env, name) {
            case Err(e) =>
              raised := Some(e);
            case Ok(h) =>
              var x := h(args, OpState(frame.State(), returnValue, lastException));
              frame.stack := x.state.frame.stack;
              frame.blocks := x.state.frame.blocks;
              frame.lasti := x.state.frame.lasti;
              returnValue := x.state.returnValue;
              lastException := x.state.lastException;
              return x.outcome;
          }
      }
      o := if raised.Some? then Raise(raised.value) else Signal(NoWhy);
    }

    /** `dispatch(name, args)`: run one instruction; whatever it raises is
        recorded as the last exception, a traceback is taken from the current
        frame, and the signal becomes "exception". */
    method Dispatch(name: string, args: seq<Value>, ghost m: MState, ghost tb0: Frame?) returns (why: Why)
      requires frame != null
      requires m == MState(frame.State(), returnValue, lastException, inExceptionProcessing, m.traced)
      requires lastTraceback == (if m.traced then frame else tb0)
      modifies this, frame`stack, frame`blocks, frame`lasti
      ensures var (m1, w) := DispatchSpec(env, name, args, m);
        frame == old(frame) && why == w && frame.State() == m1.frame && returnValue == m1.returnValue &&
        lastException == m1.lastException && inExceptionProcessing == m1.inExc &&
        lastTraceback == (if m1.traced then frame else tb0)
      ensures frames == old(frames) && linestarts == old(linestarts)
    {
      inExceptionProcessing := false;
      var o := ExecuteInstruction(name, args);
      match o {
        case Signal(w) =>
          why := w;
        case Raise(e) =>
          lastException := Some(e);
          if !inExceptionProcessing {
            lastTraceback := frame;
            inExceptionProcessing := true;
          }
          why := Exception;
      }
    }

    // -------------------------------------------------------------------------
    // Running frames

    /** The block-management loop of `run_frame`: while a signal is set and
        the frame has blocks, let the innermost block handle it. */
    method SettleBlocks(why: Why) returns (r: Result<Why, Fault>)
      requires frame != null && why != Yield
      modifies this, frame`stack, frame`blocks, frame`lasti
      ensures Kept()
      ensures var s := Settle(old(frame.State()), old(returnValue), old(lastException), why, Modern(version));
        (r.Ok? <==> s.Ok?) &&
        (s.Ok? ==> r.value == s.value.why && frame.State() == s.value.frame && lastException == s.value.lastException) &&
        (s.Err? ==> r.error == s.error)
    {
      var w := why;
      while w != NoWhy && |frame.blocks| > 0
        invariant frame != null && Kept() && w != Yield
        invariant Settle(frame.State(), returnValue, lastException, w, Modern(version)) ==
                  Settle(old(frame.State()), old(returnValue), old(lastException), why, Modern(version))
        decreases (if w == NoWhy then 0 else 1) + |frame.blocks|
      {
        var x := ManageBlockStack(w);
        if x.Err? {
          return Err(x.error);
        }
        w := x.value;
      }
      return Ok(w);
    }

    /** What one pass of the `run_frame` loop does after dispatch: take a
        traceback for an "exception" signal unless one is being processed,
        treat "reraise" as "exception", and manage blocks unless the signal is
        "yield". */
    method EndPass(why: Why, ghost m: MState, ghost tb0: Frame?) returns (r: Result<Why, Fault>)
      requires frame != null
      requires m == MState(frame.State(), returnValue, lastException, inExceptionProcessing, m.traced)
      requires lastTraceback == (if m.traced then frame else tb0)
      modifies this, frame`stack, frame`blocks, frame`lasti
      ensures frame == old(frame) && frames == old(frames) && linestarts == old(linestarts)
      ensures var s := AfterDispatch(Cfg(), m, why);
        (r.Ok? <==> s.Ok?) &&
        (s.Ok? ==> var m := s.value.0;
          r.value == s.value.1 && frame.State() == m.frame && returnValue == m.returnValue &&
          lastException == m.lastException && inExceptionProcessing == m.inExc &&
          lastTraceback == (if m.traced then frame else tb0)) &&
        (s.Err? ==> r.error == s.error)
    {
      var w := why;
      if w == Exception {
        if lastException.None? {
          return Err(HostError(TypeError));
        }
        if !inExceptionProcessing {
          lastTraceback := frame;
          inExceptionProcessing := true;
        }
      }
      if w == Reraise {
        w := Exception;
      }
      if w != Yield {
        r := SettleBlocks(w);
      } else {
        r := Ok(w);
      }
    }

    /** One pass of the `run_frame` loop on the current frame: decode,
        dispatch, and finish the pass. */
    method StepFrame(ghost m: MState, ghost tb0: Frame?, ghost pass: Pass) returns (r: Result<Why, Fault>)
      requires frame != null && ValidTable(opc) && linestarts == frame.code.lineStarts
      requires Repeats(pass, Cfg(), frame.code)
      requires m == MState(frame.State(), returnValue, lastException, inExceptionProcessing, m.traced)
      requires lastTraceback == (if m.traced then frame else tb0)
      modifies this, frame`stack, frame`blocks, frame`lasti
      ensures frame == old(frame) && frames == old(frames) && linestarts == old(linestarts)
      ensures var s := pass(m);
        (r.Ok? <==> s.Ok?) &&
        (s.Ok? ==> var m := s.value.0;
          r.value == s.value.1 && frame.State() == m.frame && returnValue == m.returnValue &&
          lastException == m.lastException && inExceptionProcessing == m.inExc &&
          lastTraceback == (if m.traced then frame else tb0)) &&
        (s.Err? ==> r.error == s.error)
    {
      assert pass(m) == Step(Cfg(), frame.code, m);
      var d := ParseByteAndArgs();
      if d.Err? {
        return Err(d.error);
      }
      var instr := d.value.instr;
      ghost var m0 := m.(frame := frame.State());
      var why := Dispatch(instr.name, instr.args, m0, tb0);
      r := EndPass(why, DispatchSpec(env, instr.name, instr.args, m0).0, tb0);
    }

    /** The `while True` loop of `run_frame` on the current frame, allowed at
        most `fuel` passes. It gives the signal the loop left on, nothing when
        the fuel ran out, or the host exception a pass raised. */
    method RunPasses(fuel: nat, ghost pass: Pass) returns (stop: Result<Option<Why>, Fault>)
      requires frame != null && ValidTable(opc) && linestarts == frame.code.lineStarts
      requires Repeats(pass, Cfg(), frame.code)
      modifies this, frame`stack, frame`blocks, frame`lasti
      ensures frame == old(frame) && frames == old(frames) && linestarts == old(linestarts)
      ensures var end := Iterate(pass, MState(old(frame.State()), old(returnValue), old(lastException), old(inExceptionProcessing), false), fuel);
        (stop == Ok(None) <==> end.Exhausted?) &&
        (end.Stuck? ==> stop == Err(end.fault)) &&
        (end.Exited? ==>
          stop == Ok(Some(end.why)) &&
          frame.State() == end.m.frame && returnValue == end.m.returnValue && lastException == end.m.lastException &&
          inExceptionProcessing == end.m.inExc && lastTraceback == (if end.m.traced then frame else old(lastTraceback)))
    {
      ghost var m0 := MState(frame.State(), returnValue, lastException, inExceptionProcessing, false);
      ghost var m := m0;
      ghost var code := frame.code;
      var n := fuel;
      while true
        invariant frame == old(frame) && frames == old(frames) && linestarts == old(linestarts) && code == frame.code
        invariant m == MState(frame.State(), returnValue, lastException, inExceptionProcessing, m.traced)
        invariant lastTraceback == (if m.traced then frame else old(lastTraceback))
        invariant Iterate(pass, m, n) == Iterate(pass, m0, fuel)
        decreases n
      {
        if n == 0 {
          return Ok(None);
        }
        IterateUnfold(pass, m, n);
        var step := StepFrame(m, old(lastTraceback), pass);
        ghost var s := pass(m);
        if step.Err? {
          return Err(step.error);
        }
        m := s.value.0;
        if step.value != NoWhy {
          return Ok(Some(step.value));
        }
        assert Iterate(pass, m, n - 1) == Iterate(pass, m0, fuel);
        n := n - 1;
      }
    }

    /** `run_frame(f)`, allowed at most `fuel` passes: make `f` the current
        frame, run passes until a signal survives block management, pop the
        frame, and re-raise the recorded exception or return `return_value`.
        A host exception from decoding or block management leaves the frame
        on the call stack. */
    method RunFrame(f: Frame, fuel: nat) returns (out: RunOutcome)
      requires Valid()
      modifies this, f`stack, f`blocks, f`lasti
      ensures Valid()
      ensures var end := RunLoop(Cfg(), f.code, MState(old(f.State()), old(returnValue), old(lastException), old(inExceptionProcessing), false), fuel);
        out == Finish(end) &&
        frames == (if end.Exited? then old(frames) else old(frames) + [f]) &&
        linestarts == f.code.lineStarts &&
        (end.Exited? ==>
          f.State() == end.m.frame && returnValue == end.m.returnValue && lastException == end.m.lastException &&
          inExceptionProcessing == (if out.Returned? then false else end.m.inExc) &&
          lastTraceback == (if end.m.traced then f else old(lastTraceback)))
    {
      PushFrame(f);
      linestarts := f.code.lineStarts;
      StepOfRepeats(Cfg(), f.code);
      var stop := RunPasses(fuel, StepOf(Cfg(), f.code));
      if stop.Err? {
        return Failed(stop.error);
      }
      if stop.value.None? {
        return OutOfFuel;
      }
      var why := stop.value.value;
      var _ := PopFrame();
      if why == Exception {
        if lastException.Some? && Truthy(lastException.value.exctype) {
          return Raised(lastException.value);
        }
        return Failed(VmError(BorkedExceptionRecording));
      }
      inExceptionProcessing := false;
      return Returned(returnValue);
    }

    /** `resume_frame(f)`: run `f` with the current frame as its caller; once
        it returns normally it is detached from the caller again. */
    method ResumeFrame(f: Frame, fuel: nat) returns (out: RunOutcome)
      requires Valid()
      modifies this, f
      ensures Valid()
      ensures out == Finish(RunLoop(Cfg(), f.code, MState(old(f.State()), old(returnValue), old(lastException), old(inExceptionProcessing), false), fuel))
      ensures f.back == (if out.Returned? then null else old(frame))
    {
      f.back := frame;
      out := RunFrame(f, fuel);
      if out.Returned? {
        f.back := null;
      }
    }

    /** `run_code`: run `code` in a new frame with no call arguments. Any
        `Exception` escaping the frame becomes a VMRuntimeError unless the
        machine was made for the test driver; `SystemExit`, `KeyboardInterrupt`
        and `GeneratorExit` are not `Exception`s and pass through. After a
        normal return, frames left on the call stack are an internal error.
        The check for values left on the current frame's stack that follows
        never fires: the call stack is then empty, so there is no current
        frame. */
    method RunCode(code: Code, globals: Namespace?, locals: Namespace?, fuel: nat) returns (out: RunOutcome)
      requires Valid()
      modifies this, globals, locals
      ensures var o := Finish(RunLoop(Cfg(), code, MState(FrameState([], [], IntValue(0)), old(returnValue), old(lastException), old(inExceptionProcessing), false), fuel));
        out == (if o.Raised? && !IsException(o.exc) then o
                else if o.Raised? || o.Failed? then (if vmtestTesting then o else Failed(HostError(VMRuntimeError)))
                else if o.Returned? && |old(frames)| > 0 then Failed(VmError(FramesLeftOver))
                else o)
    {
      var f := MakeFrame(code, map[], globals, locals);
      var o := RunFrame(f, fuel);
      if o.Raised? && !IsException(o.exc) {
        return o;
      }
      if o.Raised? || o.Failed? {
        if vmtestTesting {
          return o;
        }
        return Failed(HostError(VMRuntimeError));
      }
      if o.Returned? {
        if |frames| > 0 {
          return Failed(VmError(FramesLeftOver));
        }
        if |StackOf(frame)| > 0 {
          // Data left on the stack: unreachable, as the call stack is empty.
          assert false;
        }
      }
      return o;
    }
  }
}
