/** The run loop of one frame as functions on values: dispatching a decoded
    instruction, one pass of the `run_frame` loop (decode, dispatch, record a
    traceback, normalise "reraise", manage blocks), the loop itself, and how
    the frame's run ends. */
module Interp {
  import opened Values
  import opened Bytecode
  import opened Blocks
  import opened Operators

  /** The machine state while one frame runs: the frame, `return_value`,
      `last_exception`, `in_exception_processing`, and whether
      `last_traceback` has been taken from this frame during the run. */
  datatype MState = MState(frame: FrameState, returnValue: Value, lastException: Option<ExcInfo>, inExc: bool, traced: bool)

  /** The machine's fixed parameters: the opcode tables, the handlers and
      operators with the host version, and the guest version times ten. */
  datatype Config = Config(opc: OpcodeTable, env: Env, version: nat)

  /** The host decodes two-byte wordcode from Python 3.6 on. */
  predicate Wordcode(hostVersion: nat) {
    hostVersion >= 36
  }

  /** Block handling follows Python 3 from guest version 3.0 on. */
  predicate Modern(version: nat) {
    version >= 30
  }

  /** How running a frame ends: its return value, the exception re-raised to
      the caller, a host exception raised by the machine itself, or the fuel
      bound on the number of instructions running out. */
  datatype RunOutcome = Returned(value: Value) | Raised(exc: ExcInfo) | Failed(fault: Fault) | OutOfFuel

  /** Where the loop of `run_frame` stops. */
  datatype LoopEnd = Exited(m: MState, why: Why) | Stuck(fault: Fault) | Exhausted

  function OpStateOf(m: MState): OpState {
    OpState(m.frame, m.returnValue, m.lastException)
  }

  /** `dispatch`: `in_exception_processing` is cleared, the instruction runs,
      and anything it raises becomes the signal "exception" with the raised
      exception recorded and a traceback taken. */
  function DispatchSpec(env: Env, name: string, args: seq<Value>, m: MState): (r: (MState, Why))
    ensures var x := Execute(env, name, args, OpStateOf(m));
      r.0.frame == x.state.frame && r.0.returnValue == x.state.returnValue &&
      (x.outcome.Raise? ==> r.1 == Exception && r.0.lastException == Some(x.outcome.exc) && r.0.inExc && r.0.traced) &&
      (x.outcome.Signal? ==> r.1 == x.outcome.why && r.0.lastException == x.state.lastException &&
                             !r.0.inExc && r.0.traced == m.traced)
  {
    var x := Execute(env, name, args, OpStateOf(m));
    var s := x.state;
    match x.outcome
    case Signal(why) => (MState(s.frame, s.returnValue, s.lastException, false, m.traced), why)
    case Raise(e) => (MState(s.frame, s.returnValue, Some(e), true, true), Exception)
  }

  /** Everything one pass does after dispatch: take a traceback for an
      "exception" signal unless one is being processed, treat "reraise" as
      "exception", and unless the signal is "yield" manage blocks while the
      signal is set and blocks remain. An "exception" signal with no exception
      recorded fails with a TypeError, since the loop reads the recorded
      exception's class before anything else. */
  function AfterDispatch(cfg: Config, m: MState, why: Why): (r: Result<(MState, Why), Fault>)
    ensures r.Ok? ==> r.value.1 != Reraise
    ensures r.Ok? && r.value.1 != NoWhy && r.value.1 != Yield ==> r.value.0.frame.blocks == []
    ensures r.Ok? ==> r.value.0.returnValue == m.returnValue
  {
    if why == Exception && m.lastException.None? then Err(HostError(TypeError))
    else
      var m1 := if why == Exception && !m.inExc then m.(inExc := true, traced := true) else m;
      var w := if why == Reraise then Exception else why;
      if w == Yield then Ok((m1, w))
      else
        match Settle(m1.frame, m1.returnValue, m1.lastException, w, Modern(cfg.version))
        case Err(e) => Err(e)
        case Ok(g) => Ok((m1.(frame := g.frame, lastException := g.lastException), g.why))
  }

  /** One pass of the `run_frame` loop on the frame running `code`. */
  function Step(cfg: Config, code: Code, m: MState): (r: Result<(MState, Why), Fault>)
    requires ValidTable(cfg.opc)
    ensures r.Ok? ==> r.value.1 != Reraise
    ensures r.Ok? && r.value.1 != NoWhy && r.value.1 != Yield ==> r.value.0.frame.blocks == []
  {
    match DecodeAt(cfg.opc, Wordcode(cfg.env.hostVersion), code, code.lineStarts, m.frame.lasti)
    case Err(e) => Err(e)
    case Ok(d) =>
      var m0 := m.(frame := m.frame.(lasti := IntValue(d.fetched.next)));
      var (m1, why) := DispatchSpec(cfg.env, d.instr.name, d.instr.args, m0);
      AfterDispatch(cfg, m1, why)
  }

  /** One pass of the loop as a function of the machine state. */
  type Pass = MState -> Result<(MState, Why), Fault>

  /** The `while True` loop of `run_frame` repeating `pass`, allowed at most
      `fuel` passes: it leaves on the first pass whose signal is set. */
  function Iterate(pass: Pass, m: MState, fuel: nat): (r: LoopEnd)
    ensures r.Exited? ==> r.why != NoWhy
    decreases fuel
  {
    if fuel == 0 then Exhausted
    else
      match pass(m)
      case Err(e) => Stuck(e)
      case Ok((m1, why)) =>
        if why != NoWhy then Exited(m1, why) else Iterate(pass, m1, fuel - 1)
  }

  /** The pass of the frame running `code`. */
  function StepOf(cfg: Config, code: Code): Pass
    requires ValidTable(cfg.opc)
  {
    (m: MState) => Step(cfg, code, m)
  }

  /** `pass` is the pass of the frame running `code`, wherever that pass is
      mentioned. */
  ghost predicate Repeats(pass: Pass, cfg: Config, code: Code)
    requires ValidTable(cfg.opc)
  {
    forall m {:trigger Step(cfg, code, m)} :: pass(m) == Step(cfg, code, m)
  }

  lemma StepOfRepeats(cfg: Config, code: Code)
    requires ValidTable(cfg.opc)
    ensures Repeats(StepOf(cfg, code), cfg, code)
  {
  }

  /** The loop of `run_frame` on the frame running `code`. */
  function RunLoop(cfg: Config, code: Code, m: MState, fuel: nat): LoopEnd
    requires ValidTable(cfg.opc)
  {
    Iterate(StepOf(cfg, code), m, fuel)
  }

  /** The loop takes one pass at a time. */
  lemma IterateUnfold(pass: Pass, m: MState, fuel: nat)
    requires fuel > 0
    ensures var s := pass(m);
      (s.Err? ==> Iterate(pass, m, fuel) == Stuck(s.error)) &&
      (s.Ok? && s.value.1 != NoWhy ==> Iterate(pass, m, fuel) == Exited(s.value.0, s.value.1)) &&
      (s.Ok? && s.value.1 == NoWhy ==> Iterate(pass, m, fuel) == Iterate(pass, s.value.0, fuel - 1))
  {
  }

  /** The end of `run_frame` once the frame is popped: an "exception" signal
      re-raises the recorded exception when it has a class, and is the
      internal error "Borked exception recording" otherwise; every other
      signal returns `return_value`. */
  function Finish(end: LoopEnd): (r: RunOutcome)
    ensures end.Exited? && end.why != Exception ==> r == Returned(end.m.returnValue)
    ensures r.Raised? <==> end.Exited? && end.why == Exception && end.m.lastException.Some? && Truthy(end.m.lastException.value.exctype)
    ensures r.Raised? ==> Some(r.exc) == end.m.lastException
    ensures end.Exited? ==> (r == Failed(VmError(BorkedExceptionRecording)) <==>
      end.why == Exception && (end.m.lastException.None? || !Truthy(end.m.lastException.value.exctype)))
  {
    match end
    case Exhausted => OutOfFuel
    case Stuck(e) => Failed(e)
    case Exited(m, why) =>
      if why == Exception then
        if m.lastException.Some? && Truthy(m.lastException.value.exctype) then Raised(m.lastException.value)
        else Failed(VmError(BorkedExceptionRecording))
      else Returned(m.returnValue)
  }

  // ---------------------------------------------------------------------------
  // Properties of dispatch and of one pass

  /** An opcode with no handler is no exception to that: it yields "exception"
      with a VirtualMachineError recorded, and the frame is untouched. */
  lemma UnknownOpcodeSignalsException(env: Env, name: string, args: seq<Value>, m: MState)
    requires RouteOf(name).ToHandler? && name !in env.handlers
    ensures DispatchSpec(env, name, args, m) ==
      (MState(m.frame, m.returnValue, Some(HostException(VirtualMachineError)), true, true), Exception)
  {
  }

  /** A handler that signals "exception" itself (without raising) gets its
      traceback taken by the run loop; one that signals "reraise" keeps the
      traceback already recorded and is unwound as an exception. */
  lemma {:induction false} ExceptionSignalsTakeTraceback(cfg: Config, m: MState, why: Why)
    requires why == Exception || why == Reraise
    requires !m.inExc
    requires AfterDispatch(cfg, m, why).Ok?
    ensures var (m1, w) := AfterDispatch(cfg, m, why).value;
      (w == NoWhy || w == Exception) &&
      (why == Exception ==> m1.inExc && m1.traced) &&
      (why == Reraise ==> !m1.inExc && m1.traced == m.traced)
  {
  }

  /** "reraise" is unwound exactly like "exception" once a traceback is being
      processed and an exception is recorded. */
  lemma ReraiseIsException(cfg: Config, m: MState)
    requires m.inExc && m.lastException.Some?
    ensures AfterDispatch(cfg, m, Reraise) == AfterDispatch(cfg, m, Exception)
  {
  }

  /** "yield" leaves the block stack alone and ends the pass with the frame as
      the instruction left it. */
  lemma YieldSkipsBlocks(cfg: Config, m: MState)
    ensures AfterDispatch(cfg, m, Yield) == Ok((m, Yield))
  {
  }

  /** Signals other than "yield" go through block management: the pass ends
      as `Settle` leaves the frame. */
  lemma {:induction false} PassSettles(cfg: Config, m: MState, why: Why)
    requires why != Yield && why != Exception && why != Reraise
    ensures var s := Settle(m.frame, m.returnValue, m.lastException, why, Modern(cfg.version));
      var r := AfterDispatch(cfg, m, why);
      (r.Ok? <==> s.Ok?) &&
      (r.Ok? ==> r.value == (m.(frame := s.value.frame, lastException := s.value.lastException), s.value.why))
  {
  }

  // ---------------------------------------------------------------------------
  // Properties of the loop

  /** The loop runs passes one after another: with more fuel it ends the same
      way once it has ended. */
  lemma {:induction false} IterateMoreFuel(pass: Pass, m: MState, fuel: nat, extra: nat)
    requires !Iterate(pass, m, fuel).Exhausted?
    ensures Iterate(pass, m, fuel + extra) == Iterate(pass, m, fuel)
    decreases fuel
  {
    IterateUnfold(pass, m, fuel);
    IterateUnfold(pass, m, fuel + extra);
    var s := pass(m);
    if s.Ok? && s.value.1 == NoWhy {
      IterateMoreFuel(pass, s.value.0, fuel - 1, extra);
    }
  }

  /** A pass result that leaves no "reraise" and, unless the signal is None
      or "yield", no block. */
  predicate Settled(r: (MState, Why)) {
    r.1 != Reraise && (r.1 != NoWhy && r.1 != Yield ==> r.0.frame.blocks == [])
  }

  /** A loop whose every pass is settled exits settled. */
  lemma {:induction false} IterateExitsSettled(pass: Pass, m: MState, fuel: nat)
    requires forall m' :: pass(m').Ok? ==> Settled(pass(m').value)
    ensures var end := Iterate(pass, m, fuel);
      end.Exited? ==> Settled((end.m, end.why))
    decreases fuel
  {
    if fuel > 0 {
      IterateUnfold(pass, m, fuel);
      if pass(m).Ok? && pass(m).value.1 == NoWhy {
        IterateExitsSettled(pass, pass(m).value.0, fuel - 1);
      }
    }
  }

  /** The loop of `run_frame` leaves on a signal other than None and
      "reraise", and with no block left unless the signal is "yield". */
  lemma RunLoopExits(cfg: Config, code: Code, m: MState, fuel: nat)
    requires ValidTable(cfg.opc)
    ensures var end := RunLoop(cfg, code, m, fuel);
      end.Exited? ==> end.why != NoWhy && end.why != Reraise && (end.why != Yield ==> end.m.frame.blocks == [])
  {
    var pass := StepOf(cfg, code);
    forall m' | pass(m').Ok?
      ensures Settled(pass(m').value)
    {
      assert pass(m') == Step(cfg, code, m');
    }
    IterateExitsSettled(pass, m, fuel);
  }

  /** A frame whose run returns normally ended on a signal other than
      "exception", with no block left unless it yielded. */
  lemma {:induction false} ReturnedFrameIsSettled(cfg: Config, code: Code, m: MState, fuel: nat)
    requires ValidTable(cfg.opc)
    requires Finish(RunLoop(cfg, code, m, fuel)).Returned?
    ensures var end := RunLoop(cfg, code, m, fuel);
      end.Exited? && end.why != Exception && end.why != NoWhy &&
      (end.why != Yield ==> end.m.frame.blocks == [])
  {
    RunLoopExits(cfg, code, m, fuel);
  }
}
