/** The block stack: what `unwind_block` and `manage_block_stack` do to a frame's
    value stack, block stack and instruction offset for each block type and
    each `why` signal, stated as functions on values. */
module Blocks {
  import opened Values

  /** The block types "loop", "setup-except", "finally", "with" and
      "except-handler". */
  datatype BlockType = Loop | SetupExcept | Finally | With | ExceptHandler

  /** A block-stack entry: its type, the offset its handler starts at (any
      Python value; None for an "except-handler" block) and the value-stack
      depth it was entered at. */
  datatype Block = Block(kind: BlockType, handler: Value, level: nat)

  /** The parts of a frame that block management reads and writes. */
  datatype FrameState = FrameState(stack: seq<Value>, blocks: seq<Block>, lasti: Value)

  /** The stack left by `unwind_block`, and the exception it restored from an
      "except-handler" block. */
  datatype Unwound = Unwound(stack: seq<Value>, restored: Option<ExcInfo>)

  /** The frame, the machine's `last_exception` and the signal after one step of
      block management. */
  datatype Managed = Managed(frame: FrameState, lastException: Option<ExcInfo>, why: Why)

  /** `stack[:n]` when the stack is deeper than `n`, the stack itself otherwise:
      what popping while `len(stack) > n` leaves. */
  function Truncate(stack: seq<Value>, n: nat): (r: seq<Value>)
    ensures |r| <= n && |r| <= |stack|
    ensures r == stack[..|r|]
    ensures |stack| <= n ==> r == stack
  {
    if |stack| > n then stack[..n] else stack
  }

  /** The three values `push(tb, value, exctype)` adds, deepest first. */
  function Triple(e: ExcInfo): (r: seq<Value>)
    ensures |r| == 3 && r[2] == e.exctype
  {
    [e.tb, e.value, e.exctype]
  }

  /** `unwind_block`: pop down to the block's level (three above it for an
      "except-handler" block), then for an "except-handler" block pop the
      saved `tb, value, exctype` and make them the last exception. Unpacking
      fewer than three values is a ValueError. */
  function Unwind(stack: seq<Value>, b: Block): (r: Result<Unwound, Fault>)
    ensures r.Ok? <==> (b.kind != ExceptHandler || |stack| >= 3)
    ensures r.Ok? ==> |r.value.stack| <= b.level && |r.value.stack| <= |stack| && r.value.stack == stack[..|r.value.stack|]
    ensures r.Ok? ==> (r.value.restored.Some? <==> b.kind == ExceptHandler)
  {
    if b.kind == ExceptHandler then
      var kept := Truncate(stack, b.level + 3);
      if |kept| < 3 then Err(HostError(ValueError))
      else
        var n := |kept| - 3;
        Ok(Unwound(kept[..n], Some(ExcInfo(kept[n + 2], kept[n + 1], kept[n]))))
    else
      Ok(Unwound(Truncate(stack, b.level), None))
  }

  /** The values pushed when a signal other than "exception" enters a handler:
      `return_value` for "return" and "continue", then the signal itself. */
  function SignalValues(why: Why, returnValue: Value): (r: seq<Value>)
    ensures |r| >= 1 && r[|r| - 1] == WhyValue(why)
    ensures |r| == 2 <==> why in {Return, Continue}
    ensures |r| == 2 ==> r[0] == returnValue
  {
    (if why in {Return, Continue} then [returnValue] else []) + [WhyValue(why)]
  }

  /** Reference definition: whether a block of type `kind` takes over signal
      `why`, so that block management jumps to its handler. Loops take
      "continue" and "break"; from 3.0 on "setup-except" and "finally" take an
      exception and "finally" takes every other signal too; before 3.0
      "finally" and "with" take every signal and "setup-except" an exception. */
  predicate Handles(kind: BlockType, why: Why, modern: bool) {
    match kind
    case Loop => why == Continue || why == Break
    case SetupExcept => why == Exception
    case Finally => true
    case With => !modern
    case ExceptHandler => false
  }

  /** One call of `manage_block_stack(why)` on a frame with at least one block.
      `modern` is `self.version >= 3.0`. Unpacking a `last_exception` of None
      is a TypeError. */
  function ManageBlocks(f: FrameState, returnValue: Value, lastException: Option<ExcInfo>, why: Why, modern: bool): (r: Result<Managed, Fault>)
    requires |f.blocks| > 0 && why != Yield
    ensures r.Ok? ==> r.value.why == NoWhy || r.value.why == why
    ensures r.Ok? && r.value.why != NoWhy ==> r.value.frame.blocks == f.blocks[..|f.blocks| - 1]
    ensures r.Ok? ==> |r.value.frame.blocks| <= |f.blocks|
  {
    var b := f.blocks[|f.blocks| - 1];
    if b.kind == Loop && why == Continue then
      Ok(Managed(f.(lasti := returnValue), lastException, NoWhy))
    else
      Leave(f.(blocks := f.blocks[..|f.blocks| - 1]), b, returnValue, lastException, why, modern)
  }

  /** The rest of `manage_block_stack` once block `b` is popped (leaving frame
      `f`): unwind it, then jump to a loop's end on "break" or go on to Enter. */
  function Leave(f: FrameState, b: Block, returnValue: Value, lastException: Option<ExcInfo>, why: Why, modern: bool): (r: Result<Managed, Fault>)
    ensures r.Ok? ==> r.value.why == NoWhy || r.value.why == why
    ensures r.Ok? && r.value.why != NoWhy ==> r.value.frame.blocks == f.blocks
    ensures r.Ok? ==> |r.value.frame.blocks| <= |f.blocks| + 1
  {
    match Unwind(f.stack, b)
    case Err(e) => Err(e)
    case Ok(u) =>
      var exc := if u.restored.Some? then u.restored else lastException;
      if b.kind == Loop && why == Break then
        Ok(Managed(FrameState(u.stack, f.blocks, b.handler), exc, NoWhy))
      else
        Enter(FrameState(u.stack, f.blocks, f.lasti), b, returnValue, exc, why, modern)
  }

  /** The rest of `manage_block_stack` once block `b` is popped and unwound
      (leaving frame `g`), unless it is a loop taking "break": enter the
      block's handler if it takes the signal, pushing what the handler
      expects, or hand the signal back. */
  function Enter(g: FrameState, b: Block, returnValue: Value, exc: Option<ExcInfo>, why: Why, modern: bool): (r: Result<Managed, Fault>)
    ensures r.Ok? ==> r.value.why == NoWhy || r.value.why == why
    ensures r.Ok? && r.value.why != NoWhy ==> r.value.frame == g && r.value.lastException == exc
    ensures r.Ok? ==> |r.value.frame.blocks| <= |g.blocks| + 1
  {
    if !modern then
      if b.kind == Finally || (b.kind == SetupExcept && why == Exception) || b.kind == With then
        if why == Exception then
          match exc
          case None => Err(HostError(TypeError))
          case Some(e) => Ok(Managed(FrameState(g.stack + Triple(e), g.blocks, b.handler), exc, NoWhy))
        else
          Ok(Managed(FrameState(g.stack + SignalValues(why, returnValue), g.blocks, b.handler), exc, NoWhy))
      else
        Ok(Managed(g, exc, why))
    else if why == Exception && (b.kind == SetupExcept || b.kind == Finally) then
      match exc
      case None => Err(HostError(TypeError))
      case Some(e) =>
        var guard := Block(ExceptHandler, NoneValue, |g.stack|);
        Ok(Managed(FrameState(g.stack + Triple(e) + Triple(e), g.blocks + [guard], b.handler), exc, NoWhy))
    else if b.kind == Finally then
      Ok(Managed(FrameState(g.stack + SignalValues(why, returnValue), g.blocks, b.handler), exc, NoWhy))
    else
      Ok(Managed(g, exc, why))
  }

  /** The block-management loop of `run_frame`: call `manage_block_stack` while
      the signal is set and blocks remain. */
  function Settle(f: FrameState, returnValue: Value, lastException: Option<ExcInfo>, why: Why, modern: bool): (r: Result<Managed, Fault>)
    requires why != Yield
    ensures r.Ok? ==> r.value.why == NoWhy || r.value.why == why
    ensures r.Ok? && r.value.why != NoWhy ==> r.value.frame.blocks == []
    decreases |f.blocks|
  {
    if why == NoWhy || |f.blocks| == 0 then Ok(Managed(f, lastException, why))
    else
      match ManageBlocks(f, returnValue, lastException, why, modern)
      case Err(e) => Err(e)
      case Ok(m) =>
        if m.why == NoWhy then Ok(m)
        else Settle(m.frame, returnValue, m.lastException, m.why, modern)
  }

  // ---------------------------------------------------------------------------
  // Properties of unwinding

  /** Unwinding any block but an "except-handler" one at or below the stack
      depth leaves exactly the stack the block was entered with. */
  lemma UnwindToLevel(stack: seq<Value>, b: Block)
    requires b.kind != ExceptHandler && b.level <= |stack|
    ensures Unwind(stack, b) == Ok(Unwound(stack[..b.level], None))
  {
  }

  /** Unwinding an "except-handler" block with its three saved values in place
      leaves the stack at the block's level and restores the exception stored
      bottom to top as `tb, value, exctype`. */
  lemma UnwindHandlerRestores(stack: seq<Value>, b: Block)
    requires b.kind == ExceptHandler && b.level + 3 <= |stack|
    ensures Unwind(stack, b) ==
      Ok(Unwound(stack[..b.level], Some(ExcInfo(stack[b.level + 2], stack[b.level + 1], stack[b.level]))))
  {
  }

  /** Values pushed above a block's level never survive its unwinding. */
  lemma UnwindIgnoresAbove(stack: seq<Value>, extra: seq<Value>, b: Block)
    requires KeepDepth(b) <= |stack|
    ensures Unwind(stack + extra, b) == Unwind(stack, b)
  {
    assert (stack + extra)[..KeepDepth(b)] == stack[..KeepDepth(b)];
  }

  /** The depth `unwind_block` pops down to before taking the saved exception. */
  function KeepDepth(b: Block): nat {
    b.level + (if b.kind == ExceptHandler then 3 else 0)
  }

  // ---------------------------------------------------------------------------
  // Properties of one block-management step

  /** "continue" at a loop block changes nothing but the instruction offset,
      which becomes `return_value`; the signal is resolved. */
  lemma LoopContinue(f: FrameState, returnValue: Value, lastException: Option<ExcInfo>, modern: bool)
    requires |f.blocks| > 0 && f.blocks[|f.blocks| - 1].kind == Loop
    ensures ManageBlocks(f, returnValue, lastException, Continue, modern) ==
      Ok(Managed(FrameState(f.stack, f.blocks, returnValue), lastException, NoWhy))
  {
  }

  /** "break" at a loop block pops exactly that block, unwinds the stack to its
      level and jumps to its handler; the signal is resolved. */
  lemma LoopBreak(f: FrameState, returnValue: Value, lastException: Option<ExcInfo>, modern: bool)
    requires |f.blocks| > 0
    requires var b := f.blocks[|f.blocks| - 1]; b.kind == Loop && b.level <= |f.stack|
    ensures var b := f.blocks[|f.blocks| - 1];
      ManageBlocks(f, returnValue, lastException, Break, modern) ==
      Ok(Managed(FrameState(f.stack[..b.level], f.blocks[..|f.blocks| - 1], b.handler), lastException, NoWhy))
  {
  }

  /** From 3.0 on, an exception reaching a "setup-except" or "finally" block
      pops and unwinds it, enters one "except-handler" block at the resulting
      depth, pushes the exception twice as `tb, value, exctype` and jumps to
      the handler; the signal is resolved. */
  lemma ExceptionIntoGuard(f: FrameState, returnValue: Value, e: ExcInfo)
    requires |f.blocks| > 0
    requires var b := f.blocks[|f.blocks| - 1]; (b.kind == SetupExcept || b.kind == Finally) && b.level <= |f.stack|
    ensures var b := f.blocks[|f.blocks| - 1];
      var base := f.stack[..b.level];
      ManageBlocks(f, returnValue, Some(e), Exception, true) ==
      Ok(Managed(FrameState(base + [e.tb, e.value, e.exctype, e.tb, e.value, e.exctype],
                            f.blocks[..|f.blocks| - 1] + [Block(ExceptHandler, NoneValue, b.level)],
                            b.handler),
                 Some(e), NoWhy))
  {
    var b := f.blocks[|f.blocks| - 1];
    UnwindToLevel(f.stack, b);
    assert Triple(e) + Triple(e) == [e.tb, e.value, e.exctype, e.tb, e.value, e.exctype];
    assert f.stack[..b.level] + Triple(e) + Triple(e) == f.stack[..b.level] + [e.tb, e.value, e.exctype, e.tb, e.value, e.exctype];
  }

  /** The guard entered for an exception gives that exception back: whatever the
      handler pushed above it, whatever exception was recorded since and
      whatever signal later unwinds it, popping the "except-handler" block
      restores the stack below the guard and the exception it was entered
      with, and passes the signal on. */
  lemma {:induction false} GuardRoundTrip(f: FrameState, returnValue: Value, e: ExcInfo, extra: seq<Value>,
                                          later: Option<ExcInfo>, why: Why, laterReturn: Value)
    requires |f.blocks| > 0 && why != Yield
    requires var b := f.blocks[|f.blocks| - 1]; (b.kind == SetupExcept || b.kind == Finally) && b.level <= |f.stack|
    ensures var m := ManageBlocks(f, returnValue, Some(e), Exception, true).value;
      var b := f.blocks[|f.blocks| - 1];
      ManageBlocks(m.frame.(stack := m.frame.stack + extra), laterReturn, later, why, true) ==
      Ok(Managed(FrameState(f.stack[..b.level], f.blocks[..|f.blocks| - 1], m.frame.lasti), Some(e), why))
  {
    ExceptionIntoGuard(f, returnValue, e);
    var b := f.blocks[|f.blocks| - 1];
    var m := ManageBlocks(f, returnValue, Some(e), Exception, true).value;
    var base := f.stack[..b.level];
    var g := m.frame.(stack := m.frame.stack + extra);
    assert g.stack == base + [e.tb, e.value, e.exctype] + ([e.tb, e.value, e.exctype] + extra);
    GuardPops(base, e, [e.tb, e.value, e.exctype] + extra, f.blocks[..|f.blocks| - 1], g, laterReturn, later, why);
  }

  /** Popping an "except-handler" block whose saved exception sits right above
      its level restores that exception and the stack below it. */
  lemma GuardPops(base: seq<Value>, e: ExcInfo, above: seq<Value>, outer: seq<Block>, g: FrameState,
                  laterReturn: Value, later: Option<ExcInfo>, why: Why)
    requires why != Yield
    requires g.stack == base + [e.tb, e.value, e.exctype] + above
    requires g.blocks == outer + [Block(ExceptHandler, NoneValue, |base|)]
    ensures ManageBlocks(g, laterReturn, later, why, true) == Ok(Managed(FrameState(base, outer, g.lasti), Some(e), why))
  {
    var guard := Block(ExceptHandler, NoneValue, |base|);
    assert g.blocks[|g.blocks| - 1] == guard && g.blocks[..|g.blocks| - 1] == outer;
    assert g.stack[..|base| + 3] == base + [e.tb, e.value, e.exctype];
    UnwindHandlerRestores(g.stack, guard);
  }

  /** From 3.0 on, a signal other than "exception" reaching a "finally" block
      pops and unwinds it, pushes `return_value` for "return" and "continue"
      and then the signal, and jumps to the handler; the signal is resolved. */
  lemma FinallyModern(f: FrameState, returnValue: Value, lastException: Option<ExcInfo>, why: Why)
    requires |f.blocks| > 0 && why != Yield && why != Exception
    requires var b := f.blocks[|f.blocks| - 1]; b.kind == Finally && b.level <= |f.stack|
    ensures var b := f.blocks[|f.blocks| - 1];
      ManageBlocks(f, returnValue, lastException, why, true) ==
      Ok(Managed(FrameState(f.stack[..b.level] + SignalValues(why, returnValue), f.blocks[..|f.blocks| - 1], b.handler),
                 lastException, NoWhy))
  {
  }

  /** Before 3.0, "finally", "with", and "setup-except" on an exception, pop and
      unwind the block, push the exception once as `tb, value, exctype` (on an
      exception) or `return_value` for "return" and "continue" and then the
      signal (otherwise), and jump to the handler; the signal is resolved.
      Loops take "break" and "continue" first. */
  lemma HandlerLegacy(f: FrameState, returnValue: Value, lastException: Option<ExcInfo>, why: Why)
    requires |f.blocks| > 0 && why != Yield
    requires var b := f.blocks[|f.blocks| - 1];
      (b.kind == Finally || b.kind == With || (b.kind == SetupExcept && why == Exception)) && b.level <= |f.stack|
    requires why == Exception ==> lastException.Some?
    ensures var b := f.blocks[|f.blocks| - 1];
      var pushed := if why == Exception then Triple(lastException.value) else SignalValues(why, returnValue);
      ManageBlocks(f, returnValue, lastException, why, false) ==
      Ok(Managed(FrameState(f.stack[..b.level] + pushed, f.blocks[..|f.blocks| - 1], b.handler), lastException, NoWhy))
  {
  }

  /** Every other combination pops exactly one block, unwinds it and hands the
      signal back unchanged, with the instruction offset untouched. */
  lemma {:induction false} Propagates(f: FrameState, returnValue: Value, lastException: Option<ExcInfo>, why: Why, modern: bool)
    requires |f.blocks| > 0 && why != Yield
    requires !Handles(f.blocks[|f.blocks| - 1].kind, why, modern)
    requires Unwind(f.stack, f.blocks[|f.blocks| - 1]).Ok?
    ensures var b := f.blocks[|f.blocks| - 1];
      var u := Unwind(f.stack, b).value;
      ManageBlocks(f, returnValue, lastException, why, modern) ==
      Ok(Managed(FrameState(u.stack, f.blocks[..|f.blocks| - 1], f.lasti),
                 if u.restored.Some? then u.restored else lastException, why))
  {
    var b := f.blocks[|f.blocks| - 1];
    var u := Unwind(f.stack, b).value;
    var exc := if u.restored.Some? then u.restored else lastException;
    var g := FrameState(u.stack, f.blocks[..|f.blocks| - 1], f.lasti);
    assert ManageBlocks(f, returnValue, lastException, why, modern) ==
           Leave(f.(blocks := g.blocks), b, returnValue, lastException, why, modern);
    EnterPasses(g, b, returnValue, exc, why, modern);
  }

  /** A block that does not take the signal hands it back untouched. */
  lemma EnterPasses(g: FrameState, b: Block, returnValue: Value, exc: Option<ExcInfo>, why: Why, modern: bool)
    requires !Handles(b.kind, why, modern) && !(b.kind == Loop && why == Break)
    ensures Enter(g, b, returnValue, exc, why, modern) == Ok(Managed(g, exc, why))
  {
  }

  /** A step resolves the signal exactly when the top block handles it, and it
      fails exactly when an "except-handler" block has lost its saved values or
      an exception must be pushed but none is recorded. */
  lemma {:induction false} ManageResolvesIffHandles(f: FrameState, returnValue: Value, lastException: Option<ExcInfo>, why: Why, modern: bool)
    requires |f.blocks| > 0 && why != Yield && why != NoWhy
    ensures var b := f.blocks[|f.blocks| - 1];
      var r := ManageBlocks(f, returnValue, lastException, why, modern);
      (r.Err? <==> (b.kind == ExceptHandler && |f.stack| < 3) ||
                   (why == Exception && Handles(b.kind, why, modern) && lastException.None?)) &&
      (r.Ok? ==> (r.value.why == NoWhy <==> Handles(b.kind, why, modern)))
  {
    var b := f.blocks[|f.blocks| - 1];
    if !(b.kind == Loop && why == Continue) {
      var popped := f.(blocks := f.blocks[..|f.blocks| - 1]);
      assert ManageBlocks(f, returnValue, lastException, why, modern) == Leave(popped, b, returnValue, lastException, why, modern);
      LeaveResolvesIffHandles(popped, b, returnValue, lastException, why, modern);
    }
  }

  /** ManageResolvesIffHandles once the block is popped. */
  lemma LeaveResolvesIffHandles(f: FrameState, b: Block, returnValue: Value, lastException: Option<ExcInfo>, why: Why, modern: bool)
    requires why != NoWhy && !(b.kind == Loop && why == Continue)
    ensures var r := Leave(f, b, returnValue, lastException, why, modern);
      (r.Err? <==> (b.kind == ExceptHandler && |f.stack| < 3) ||
                   (why == Exception && Handles(b.kind, why, modern) && lastException.None?)) &&
      (r.Ok? ==> (r.value.why == NoWhy <==> Handles(b.kind, why, modern)))
  {
    var u := Unwind(f.stack, b);
    if u.Ok? && !(b.kind == Loop && why == Break) {
      var exc := if u.value.restored.Some? then u.value.restored else lastException;
      EnterResolvesIffHandles(FrameState(u.value.stack, f.blocks, f.lasti), b, returnValue, exc, why, modern);
    }
  }

  /** Entering a popped block's handler succeeds unless an exception must be
      pushed and none is recorded, and resolves the signal exactly when the
      block handles it. */
  lemma EnterResolvesIffHandles(g: FrameState, b: Block, returnValue: Value, exc: Option<ExcInfo>, why: Why, modern: bool)
    requires why != NoWhy && !(b.kind == Loop && why == Continue) && !(b.kind == Loop && why == Break)
    ensures var r := Enter(g, b, returnValue, exc, why, modern);
      (r.Err? <==> why == Exception && Handles(b.kind, why, modern) && exc.None?) &&
      (r.Ok? ==> (r.value.why == NoWhy <==> Handles(b.kind, why, modern)))
  {
  }

  // ---------------------------------------------------------------------------
  // Properties of the block-management loop

  /** Every block in `inner` is a loop. */
  predicate AllLoops(inner: seq<Block>) {
    forall i :: 0 <= i < |inner| ==> inner[i].kind == Loop
  }

  /** From 3.0 on, an exception raised inside loops nested in a "setup-except"
      block passes through the loops, popping each, and is caught by the
      guard: the loop ends resolved at the guard's handler with one
      "except-handler" block in the guard's place and the exception pushed
      twice on top. */
  lemma {:induction false} ExceptionCaughtByEnclosingGuard(stack: seq<Value>, outer: seq<Block>, guard: Block, inner: seq<Block>,
                                                           lasti: Value, returnValue: Value, e: ExcInfo)
    requires guard.kind == SetupExcept && AllLoops(inner)
    ensures var m := Settle(FrameState(stack, outer + [guard] + inner, lasti), returnValue, Some(e), Exception, true);
      m.Ok? && m.value.why == NoWhy && m.value.frame.lasti == guard.handler &&
      |m.value.frame.blocks| == |outer| + 1 &&
      m.value.frame.blocks[..|outer|] == outer &&
      m.value.frame.blocks[|outer|].kind == ExceptHandler &&
      |m.value.frame.stack| >= 6 &&
      m.value.frame.stack[|m.value.frame.stack| - 6..] == Triple(e) + Triple(e) &&
      m.value.lastException == Some(e)
    decreases |inner|
  {
    var f := FrameState(stack, outer + [guard] + inner, lasti);
    if |inner| == 0 {
      assert f.blocks == outer + [guard];
      assert f.blocks[..|f.blocks| - 1] == outer;
      var u := Unwind(stack, guard).value;
      var g := FrameState(u.stack, outer, lasti);
      assert ManageBlocks(f, returnValue, Some(e), Exception, true) == Enter(g, guard, returnValue, Some(e), Exception, true);
      var m := Managed(FrameState(u.stack + Triple(e) + Triple(e), outer + [Block(ExceptHandler, NoneValue, |u.stack|)], guard.handler),
                       Some(e), NoWhy);
      assert Enter(g, guard, returnValue, Some(e), Exception, true) == Ok(m);
      assert Settle(f, returnValue, Some(e), Exception, true) == Ok(m);
      assert m.frame.stack[|m.frame.stack| - 6..] == Triple(e) + Triple(e);
    } else {
      var last := inner[|inner| - 1];
      var rest := inner[..|inner| - 1];
      assert last.kind == Loop;
      assert AllLoops(rest);
      assert f.blocks[|f.blocks| - 1] == last;
      assert f.blocks[..|f.blocks| - 1] == outer + [guard] + rest;
      var u := Unwind(stack, last).value;
      var g := FrameState(u.stack, outer + [guard] + rest, lasti);
      assert ManageBlocks(f, returnValue, Some(e), Exception, true) == Enter(g, last, returnValue, Some(e), Exception, true);
      assert Enter(g, last, returnValue, Some(e), Exception, true) == Ok(Managed(g, Some(e), Exception));
      assert Settle(f, returnValue, Some(e), Exception, true) == Settle(g, returnValue, Some(e), Exception, true);
      ExceptionCaughtByEnclosingGuard(u.stack, outer, guard, rest, lasti, returnValue, e);
    }
  }
}
