/** Python values as the interpreter core sees them, the "why" signals it passes
    between dispatch and block management, and the failures that escape it. */
module Values {

  datatype Option<T> = None | Some(value: T)

  datatype Result<T, E> = Ok(value: T) | Err(error: E)

  /** A guest Python object. The core only builds or inspects integers (offsets
      and operands), strings (names and signal words), None, and exception
      classes; every other object is opaque and told apart by an identity. */
  datatype Value =
    | NoneValue
    | IntValue(i: int)
    | StrValue(s: string)
    | ClassValue(name: string)
    | HostClass(cls: ExcClass)
    | HostInstance(cls: ExcClass)
    | ObjValue(id: nat)

  /** The builtin exception classes the interpreter raises itself, with the
      interpreter's own VirtualMachineError and VMRuntimeError. */
  datatype ExcClass =
    | IndexError
    | KeyError
    | ValueError
    | TypeError
    | UnboundLocalError
    | VirtualMachineError
    | VMRuntimeError

  /** Python truthiness, for the values whose truthiness the core relies on.
      Classes and opaque objects count as true. */
  predicate Truthy(v: Value) {
    match v
    case NoneValue => false
    case IntValue(i) => i != 0
    case StrValue(s) => s != ""
    case ClassValue(_) => true
    case HostClass(_) => true
    case HostInstance(_) => true
    case ObjValue(_) => true
  }

  /** The control-flow outcome of one instruction or one block-management step.
      NoWhy is Python's None; the others are the strings "return", "break",
      "continue", "exception", "reraise" and "yield". */
  datatype Why = NoWhy | Return | Break | Continue | Exception | Reraise | Yield

  /** The value `push(why)` leaves on the value stack. */
  function WhyValue(w: Why): (v: Value)
    ensures Truthy(v) <==> w != NoWhy
  {
    match w
    case NoWhy => NoneValue
    case Return => StrValue("return")
    case Break => StrValue("break")
    case Continue => StrValue("continue")
    case Exception => StrValue("exception")
    case Reraise => StrValue("reraise")
    case Yield => StrValue("yield")
  }

  lemma WhyValueInjective(a: Why, b: Why)
    ensures WhyValue(a) == WhyValue(b) <==> a == b
  {
  }

  /** The `sys.exc_info()`-shaped triple kept as the machine's last exception. */
  datatype ExcInfo = ExcInfo(exctype: Value, value: Value, tb: Value)

  /** The record of a Python builtin exception raised by the interpreter itself
      (an empty pop, a missing table key, ...). Only its class is modelled. */
  function HostException(cls: ExcClass): (e: ExcInfo)
    ensures e.exctype == HostClass(cls) && Truthy(e.exctype)
  {
    ExcInfo(HostClass(cls), HostInstance(cls), NoneValue)
  }

  /** A failure that leaves the run loop as a host exception: raised outside the
      guarded part of dispatch, or an internal consistency error. */
  datatype Fault =
    | HostError(cls: ExcClass)
    | VmError(message: VmMessage)

  /** The VirtualMachineError messages the run loop and `run_code` raise. */
  datatype VmMessage = BorkedExceptionRecording | FramesLeftOver

  /** Python's `s[i]`: negative indices count from the end; anything outside
      `-len(s) .. len(s)-1` raises IndexError (None here). */
  function PyIndex<T>(s: seq<T>, i: int): (r: Option<T>)
    ensures r.Some? <==> -|s| <= i < |s|
    ensures 0 <= i < |s| ==> r == Some(s[i])
    ensures -|s| <= i < 0 ==> r == Some(s[|s| + i])
  {
    if 0 <= i < |s| then Some(s[i])
    else if -|s| <= i < 0 then Some(s[|s| + i])
    else None
  }

  /** Python's `s[i]` for an index known not to be negative. */
  function Lookup<T>(s: seq<T>, i: nat): (r: Option<T>)
    ensures r.Some? <==> i < |s|
    ensures i < |s| ==> r.value == s[i]
  {
    if i < |s| then Some(s[i]) else None
  }
}
