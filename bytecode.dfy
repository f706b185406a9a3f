/** The compiled-code object, the opcode table of one Python version, and the
    instruction decoder (`parse_byte_and_args`) as a specification: `Fetch`
    follows the EXTENDED_ARG chain to the final opcode and its raw operand,
    `Resolve` turns the operand into an argument by opcode class, and `Decode`
    puts the two together. */
module Bytecode {
  import opened Values

  type Byte = b: int | 0 <= b < 256

  /** The parts of a code object the core reads. `lineStarts` is what the
      opcode table's `findlinestarts` yields for it. */
  datatype Code = Code(
    code: seq<Byte>,
    consts: seq<Value>,
    names: seq<string>,
    varnames: seq<string>,
    cellvars: seq<string>,
    freevars: seq<string>,
    flags: nat,
    lineStarts: map<int, int>)

  /** The CO_NEWLOCALS bit of `co_flags`. */
  const NewLocalsFlag: nat := 2

  predicate NewLocals(flags: nat) {
    (flags / NewLocalsFlag) % 2 == 1
  }

  /** The version-selected opcode table: names, the first opcode that takes an
      operand, EXTENDED_ARG, and the operand classes. */
  datatype OpcodeTable = OpcodeTable(
    opname: seq<string>,
    haveArgument: int,
    extendedArg: Byte,
    constOps: set<Byte>,
    freeOps: set<Byte>,
    nameOps: set<Byte>,
    jrelOps: set<Byte>,
    jabsOps: set<Byte>,
    localOps: set<Byte>)

  /** `op_has_argument(op, opc)`. */
  predicate HasArgument(opc: OpcodeTable, op: Byte) {
    op >= opc.haveArgument
  }

  /** What every table the interpreter is built with satisfies: one name per
      byte value, and EXTENDED_ARG takes an operand. */
  predicate ValidTable(opc: OpcodeTable) {
    |opc.opname| == 256 && HasArgument(opc, opc.extendedArg)
  }

  /** A decoded instruction: (byteName, arguments, opoffset, line_number). */
  datatype Instr = Instr(name: string, args: seq<Value>, offset: int, line: Option<int>)

  /** The final opcode of an EXTENDED_ARG chain: its byte, where it starts, its
      raw operand (None when it takes none), the offset after it, and how many
      EXTENDED_ARG prefixes were folded into it. */
  datatype Fetched = Fetched(opcode: Byte, offset: int, operand: Option<nat>, next: int, prefixes: nat)

  datatype Decoded = Decoded(instr: Instr, fetched: Fetched)

  /** Python's `a | b` on non-negative integers, bit by bit. */
  function BitOr(a: nat, b: nat): nat
    decreases a + b
  {
    if a == 0 then b
    else if b == 0 then a
    else 2 * BitOr(a / 2, b / 2) + (if a % 2 == 1 || b % 2 == 1 then 1 else 0)
  }

  function Power(base: nat, k: nat): nat {
    if k == 0 then 1 else base * Power(base, k - 1)
  }

  lemma PowerTwoEight()
    ensures Power(2, 8) == 256
  {
    assert Power(2, 1) == 2;
    assert Power(2, 2) == 4;
    assert Power(2, 4) == 16 by { assert Power(2, 3) == 8; }
    assert Power(2, 6) == 64 by { assert Power(2, 5) == 32; }
    assert Power(2, 7) == 128;
  }

  /** OR-ing a number below 2^k into a multiple of 2^k is addition. */
  lemma {:induction false} BitOrDisjoint(a: nat, m: nat, k: nat)
    requires a < Power(2, k)
    ensures BitOr(a, m * Power(2, k)) == a + m * Power(2, k)
  {
    var b := m * Power(2, k);
    if a == 0 || b == 0 {
    } else {
      assert k > 0;
      var p := Power(2, k - 1);
      assert b == 2 * (m * p);
      assert b / 2 == m * p && b % 2 == 0;
      assert a / 2 < p;
      BitOrDisjoint(a / 2, m, k - 1);
      assert BitOr(a / 2, b / 2) == a / 2 + m * p;
    }
  }

  /** OR-ing a byte into a multiple of 256, as the wordcode decoder does with its
      carry, is addition. */
  lemma ByteOrCarry(b: Byte, m: nat)
    ensures BitOr(b, m * 256) == b + m * 256
  {
    PowerTwoEight();
    BitOrDisjoint(b, m, 8);
  }

  /** Bytes one instruction occupies: two in wordcode (CPython 3.6 and later),
      otherwise three with an operand and one without. */
  function InstrSize(wordcode: bool, hasArg: bool): nat {
    if wordcode then 2 else if hasArg then 3 else 1
  }

  /** Bytes taken by `k` EXTENDED_ARG prefixes. */
  function PrefixBytes(wordcode: bool, k: nat): nat {
    if wordcode then 2 * k else 3 * k
  }

  /** What an EXTENDED_ARG operand is multiplied by before it is folded into the
      next operand: `<< 8` in wordcode, `* 65536` in the legacy format. */
  function CarryBase(wordcode: bool): nat {
    if wordcode then 256 else 65536
  }

  /** The operand bytes after the opcode at `at - 1`, combined with the carry:
      `code2num(co_code, at) | carry` in wordcode, and
      `code2num(co_code, at) + code2num(co_code, at + 1) * 256 + carry` in the
      legacy format. None is an IndexError. */
  function ReadOperand(wordcode: bool, co: seq<Byte>, at: int, carry: nat): (r: Option<nat>)
    ensures r.Some? ==> at + (if wordcode then 0 else 1) < |co|
  {
    if wordcode then
      match PyIndex(co, at)
      case None => None
      case Some(b) => Some(BitOr(b, carry))
    else
      match PyIndex(co, at)
      case None => None
      case Some(lo) =>
        match PyIndex(co, at + 1)
        case None => None
        case Some(hi) => Some(lo + hi * 256 + carry)
  }

  /** The decode loop of `parse_byte_and_args` from offset `lasti` with the
      carried EXTENDED_ARG value `carry`: it skips EXTENDED_ARG prefixes and
      stops at the first other opcode. */
  function Fetch(opc: OpcodeTable, wordcode: bool, co: seq<Byte>, lasti: int, carry: nat): (r: Result<Fetched, Fault>)
    requires ValidTable(opc)
    ensures r.Ok? ==> r.value.opcode != opc.extendedArg
    ensures r.Ok? ==> PyIndex(co, r.value.offset) == Some(r.value.opcode)
    ensures r.Ok? ==> (r.value.operand.Some? <==> HasArgument(opc, r.value.opcode))
    ensures r.Ok? ==> r.value.next == r.value.offset + InstrSize(wordcode, HasArgument(opc, r.value.opcode))
    ensures r.Ok? ==> r.value.offset == lasti + PrefixBytes(wordcode, r.value.prefixes)
    decreases |co| - lasti
  {
    match PyIndex(co, lasti)
    case None => Err(HostError(IndexError))
    case Some(op) =>
      if !HasArgument(opc, op) then
        Ok(Fetched(op, lasti, None, lasti + InstrSize(wordcode, false), 0))
      else
        match ReadOperand(wordcode, co, lasti + 1, carry)
        case None => Err(HostError(IndexError))
        case Some(intArg) =>
          var next := lasti + InstrSize(wordcode, true);
          if op == opc.extendedArg then
            var f := Fetch(opc, wordcode, co, next, intArg * CarryBase(wordcode));
            if f.Ok? then Ok(f.value.(prefixes := f.value.prefixes + 1)) else f
          else
            Ok(Fetched(op, lasti, Some(intArg), next, 0))
  }

  /** A decode result with `k` more EXTENDED_ARG prefixes counted. */
  function Bump(r: Result<Fetched, Fault>, k: nat): Result<Fetched, Fault> {
    if r.Ok? then Ok(r.value.(prefixes := r.value.prefixes + k)) else r
  }

  /** Operand resolution by opcode class, in the order the decoder tests the
      classes. None from a table lookup is an IndexError. */
  function Resolve(opc: OpcodeTable, c: Code, op: Byte, intArg: nat, next: int): (r: Result<Value, Fault>)
    ensures r.Err? ==> r.error == HostError(IndexError)
    ensures op in opc.constOps ==> (r.Ok? <==> intArg < |c.consts|) && (r.Ok? ==> r.value == c.consts[intArg])
    ensures op !in opc.constOps && op in opc.freeOps ==>
      (r.Ok? <==> intArg < |c.cellvars| + |c.freevars|) &&
      (r.Ok? ==> r.value == StrValue((c.cellvars + c.freevars)[intArg]))
    ensures op !in opc.constOps && op !in opc.freeOps && op in opc.nameOps ==>
      (r.Ok? <==> intArg < |c.names|) && (r.Ok? ==> r.value == StrValue(c.names[intArg]))
    ensures op !in opc.constOps + opc.freeOps + opc.nameOps && op in opc.jrelOps ==> r == Ok(IntValue(next + intArg))
    ensures op !in opc.constOps + opc.freeOps + opc.nameOps + opc.jrelOps && op in opc.jabsOps ==> r == Ok(IntValue(intArg))
    ensures op !in opc.constOps + opc.freeOps + opc.nameOps + opc.jrelOps + opc.jabsOps && op in opc.localOps ==>
      (r.Ok? <==> intArg < |c.varnames|) && (r.Ok? ==> r.value == StrValue(c.varnames[intArg]))
    ensures op !in opc.constOps + opc.freeOps + opc.nameOps + opc.jrelOps + opc.jabsOps + opc.localOps ==>
      r == Ok(IntValue(intArg))
  {
    if op in opc.constOps then
      match Lookup(c.consts, intArg)
      case None => Err(HostError(IndexError))
      case Some(v) => Ok(v)
    else if op in opc.freeOps then
      if intArg < |c.cellvars| then Ok(StrValue(c.cellvars[intArg]))
      else
        match Lookup(c.freevars, intArg - |c.cellvars|)
        case None => Err(HostError(IndexError))
        case Some(n) => Ok(StrValue(n))
    else if op in opc.nameOps then
      match Lookup(c.names, intArg)
      case None => Err(HostError(IndexError))
      case Some(n) => Ok(StrValue(n))
    else if op in opc.jrelOps then Ok(IntValue(next + intArg))
    else if op in opc.jabsOps then Ok(IntValue(intArg))
    else if op in opc.localOps then
      match Lookup(c.varnames, intArg)
      case None => Err(HostError(IndexError))
      case Some(n) => Ok(StrValue(n))
    else Ok(IntValue(intArg))
  }

  /** `parse_byte_and_args` on a frame whose `f_lasti` is the integer `lasti`. */
  function Decode(opc: OpcodeTable, wordcode: bool, c: Code, lineStarts: map<int, int>, lasti: int): (r: Result<Decoded, Fault>)
    requires ValidTable(opc)
    ensures var f := Fetch(opc, wordcode, c.code, lasti, 0);
      r.Ok? <==> f.Ok? && (f.value.operand.Some? ==> Resolve(opc, c, f.value.opcode, f.value.operand.value, f.value.next).Ok?)
    ensures r.Ok? ==> r.value.fetched == Fetch(opc, wordcode, c.code, lasti, 0).value
    ensures r.Ok? ==> r.value.instr.name == opc.opname[r.value.fetched.opcode]
    ensures r.Ok? ==> r.value.instr.offset == r.value.fetched.offset
    ensures r.Ok? ==> (r.value.instr.line.Some? <==> r.value.fetched.offset in lineStarts)
    ensures r.Ok? && r.value.instr.line.Some? ==> r.value.instr.line.value == lineStarts[r.value.fetched.offset]
    ensures r.Ok? ==> |r.value.instr.args| == (if HasArgument(opc, r.value.fetched.opcode) then 1 else 0)
    ensures r.Ok? && r.value.fetched.operand.Some? ==>
      r.value.instr.args == [Resolve(opc, c, r.value.fetched.opcode, r.value.fetched.operand.value, r.value.fetched.next).value]
  {
    match Fetch(opc, wordcode, c.code, lasti, 0)
    case Err(e) => Err(e)
    case Ok(f) =>
      var line := if f.offset in lineStarts then Some(lineStarts[f.offset]) else None;
      var name := opc.opname[f.opcode];
      match f.operand
      case None => Ok(Decoded(Instr(name, [], f.offset, line), f))
      case Some(intArg) =>
        match Resolve(opc, c, f.opcode, intArg, f.next)
        case Err(e) => Err(e)
        case Ok(arg) => Ok(Decoded(Instr(name, [arg], f.offset, line), f))
  }

  /** `parse_byte_and_args` on whatever `f_lasti` holds: indexing `co_code`
      with anything but an integer is a TypeError. */
  function DecodeAt(opc: OpcodeTable, wordcode: bool, c: Code, lineStarts: map<int, int>, lasti: Value): (r: Result<Decoded, Fault>)
    requires ValidTable(opc)
    ensures !lasti.IntValue? ==> r == Err(HostError(TypeError))
    ensures lasti.IntValue? ==> r == Decode(opc, wordcode, c, lineStarts, lasti.i)
  {
    match lasti
    case IntValue(i) => Decode(opc, wordcode, c, lineStarts, i)
    case _ => Err(HostError(TypeError))
  }

  // ---------------------------------------------------------------------------
  // Properties of the decoder

  /** `k` EXTENDED_ARG prefixes, one instruction size apart, start at `lasti`. */
  ghost predicate PrefixChain(opc: OpcodeTable, wordcode: bool, co: seq<Byte>, lasti: int, k: nat)
    decreases k
  {
    k == 0 ||
    (PyIndex(co, lasti) == Some(opc.extendedArg) &&
     PrefixChain(opc, wordcode, co, lasti + InstrSize(wordcode, true), k - 1))
  }

  /** Every position the decoder skipped before the final opcode is an
      EXTENDED_ARG prefix. */
  lemma {:induction false} FetchSkipsOnlyPrefixes(opc: OpcodeTable, wordcode: bool, co: seq<Byte>, lasti: int, carry: nat)
    requires ValidTable(opc)
    requires Fetch(opc, wordcode, co, lasti, carry).Ok?
    ensures PrefixChain(opc, wordcode, co, lasti, Fetch(opc, wordcode, co, lasti, carry).value.prefixes)
    decreases |co| - lasti
  {
    var op := PyIndex(co, lasti).value;
    if HasArgument(opc, op) && op == opc.extendedArg {
      var intArg := ReadOperand(wordcode, co, lasti + 1, carry).value;
      FetchSkipsOnlyPrefixes(opc, wordcode, co, lasti + InstrSize(wordcode, true), intArg * CarryBase(wordcode));
    }
  }

  /** A carry the wordcode decoder can hold: its low byte is clear. */
  predicate CarryAligned(wordcode: bool, carry: nat) {
    !wordcode || carry % 256 == 0
  }

  /** `x` shifted left past `k` operands of the given base. */
  function Scale(x: nat, base: nat, k: nat): nat {
    if k == 0 then x else base * Scale(x, base, k - 1)
  }

  lemma {:induction false} ScaleStep(a: nat, c: nat, base: nat, k: nat)
    ensures Scale((a + c) * base, base, k) == Scale(a * base, base, k) + Scale(c, base, k + 1)
  {
    if k == 0 {
      assert (a + c) * base == a * base + base * c;
    } else {
      ScaleStep(a, c, base, k - 1);
      var x := Scale(a * base, base, k - 1);
      var y := Scale(c, base, k);
      assert base * (x + y) == base * x + base * y;
    }
  }

  /** Reading an operand with an aligned carry adds the carry; whether the read
      faults does not depend on it. */
  lemma ReadOperandCarry(wordcode: bool, co: seq<Byte>, at: int, carry: nat)
    requires CarryAligned(wordcode, carry)
    ensures var withCarry := ReadOperand(wordcode, co, at, carry);
      var plain := ReadOperand(wordcode, co, at, 0);
      withCarry.Some? == plain.Some? && (plain.Some? ==> withCarry.value == plain.value + carry)
  {
    if wordcode && PyIndex(co, at).Some? {
      var b := PyIndex(co, at).value;
      ByteOrCarry(b, carry / 256);
      ByteOrCarry(b, 0);
    }
  }

  /** One turn of the decode loop at an EXTENDED_ARG prefix. */
  lemma FetchPrefixStep(opc: OpcodeTable, wordcode: bool, co: seq<Byte>, lasti: int, carry: nat)
    requires ValidTable(opc) && PyIndex(co, lasti) == Some(opc.extendedArg)
    requires ReadOperand(wordcode, co, lasti + 1, carry).Some?
    ensures Fetch(opc, wordcode, co, lasti, carry) ==
      Bump(Fetch(opc, wordcode, co, lasti + InstrSize(wordcode, true),
                 ReadOperand(wordcode, co, lasti + 1, carry).value * CarryBase(wordcode)), 1)
  {
  }

  lemma BumpTwice(r: Result<Fetched, Fault>, k: nat)
    ensures Bump(Bump(r, 1), k) == Bump(r, k + 1)
  {
  }

  lemma CarryTimesBaseAligned(wordcode: bool, x: nat)
    ensures CarryAligned(wordcode, x * CarryBase(wordcode))
  {
  }

  /** Whether the decode loop faults, where it stops and every offset it
      reports do not depend on the carry it starts with. */
  lemma {:induction false} FetchCarryIrrelevant(opc: OpcodeTable, wordcode: bool, co: seq<Byte>, lasti: int, c: nat)
    requires ValidTable(opc) && CarryAligned(wordcode, c)
    ensures var withCarry := Fetch(opc, wordcode, co, lasti, c);
      var plain := Fetch(opc, wordcode, co, lasti, 0);
      withCarry.Ok? == plain.Ok? &&
      (plain.Ok? ==> withCarry.value.(operand := plain.value.operand) == plain.value)
    decreases |co| - lasti
  {
    if PyIndex(co, lasti).Some? && HasArgument(opc, PyIndex(co, lasti).value) {
      ReadOperandCarry(wordcode, co, lasti + 1, c);
      var r0 := ReadOperand(wordcode, co, lasti + 1, 0);
      if r0.Some? && PyIndex(co, lasti).value == opc.extendedArg {
        var next := lasti + InstrSize(wordcode, true);
        CarryTimesBaseAligned(wordcode, r0.value + c);
        CarryTimesBaseAligned(wordcode, r0.value);
        FetchCarryIrrelevant(opc, wordcode, co, next, (r0.value + c) * CarryBase(wordcode));
        FetchCarryIrrelevant(opc, wordcode, co, next, r0.value * CarryBase(wordcode));
      }
    }
  }

  /** The carry handed into the decode loop ends up shifted past every prefix
      still to come: decoding with carry `c` gives the operand decoded with no
      carry plus `c` shifted left by one operand per prefix skipped. */
  lemma {:induction false} FetchCarryShifts(opc: OpcodeTable, wordcode: bool, co: seq<Byte>, lasti: int, c: nat)
    requires ValidTable(opc) && CarryAligned(wordcode, c)
    requires Fetch(opc, wordcode, co, lasti, 0).Ok? && Fetch(opc, wordcode, co, lasti, 0).value.operand.Some?
    ensures var plain := Fetch(opc, wordcode, co, lasti, 0).value;
      Fetch(opc, wordcode, co, lasti, c) ==
        Ok(plain.(operand := Some(plain.operand.value + Scale(c, CarryBase(wordcode), plain.prefixes))))
    decreases |co| - lasti, 1
  {
    FetchCarryIrrelevant(opc, wordcode, co, lasti, c);
    ReadOperandCarry(wordcode, co, lasti + 1, c);
    if PyIndex(co, lasti) == Some(opc.extendedArg) {
      PrefixCarryShifts(opc, wordcode, co, lasti, c);
    }
  }

  /** FetchCarryShifts at an EXTENDED_ARG prefix. */
  lemma {:induction false} PrefixCarryShifts(opc: OpcodeTable, wordcode: bool, co: seq<Byte>, lasti: int, c: nat)
    requires ValidTable(opc) && CarryAligned(wordcode, c)
    requires PyIndex(co, lasti) == Some(opc.extendedArg)
    requires Fetch(opc, wordcode, co, lasti, 0).Ok? && Fetch(opc, wordcode, co, lasti, 0).value.operand.Some?
    ensures var plain := Fetch(opc, wordcode, co, lasti, 0).value;
      Fetch(opc, wordcode, co, lasti, c).Ok? &&
      Fetch(opc, wordcode, co, lasti, c).value.operand == Some(plain.operand.value + Scale(c, CarryBase(wordcode), plain.prefixes))
    decreases |co| - lasti, 0
  {
    var a0 := ReadOperand(wordcode, co, lasti + 1, 0).value;
    var next := lasti + InstrSize(wordcode, true);
    PrefixSteps(opc, wordcode, co, lasti, c);
    InnerCarryShifts(opc, wordcode, co, next, a0, c);
  }

  /** The decode after a prefix with operand `a0`: raising its carry by `c`
      operands raises the operand by `c` shifted past one more prefix. */
  lemma {:induction false} InnerCarryShifts(opc: OpcodeTable, wordcode: bool, co: seq<Byte>, next: int, a0: nat, c: nat)
    requires ValidTable(opc) && CarryAligned(wordcode, c)
    requires var r := Fetch(opc, wordcode, co, next, a0 * CarryBase(wordcode)); r.Ok? && r.value.operand.Some?
    ensures var base := CarryBase(wordcode);
      var r0 := Fetch(opc, wordcode, co, next, a0 * base).value;
      var rc := Fetch(opc, wordcode, co, next, (a0 + c) * base);
      rc.Ok? && rc.value.operand == Some(r0.operand.value + Scale(c, base, r0.prefixes + 1))
    decreases |co| - next, 2
  {
    var base := CarryBase(wordcode);
    CarryTimesBaseAligned(wordcode, a0);
    CarryTimesBaseAligned(wordcode, a0 + c);
    FetchCarryIrrelevant(opc, wordcode, co, next, a0 * base);
    FetchCarryShifts(opc, wordcode, co, next, a0 * base);
    FetchCarryShifts(opc, wordcode, co, next, (a0 + c) * base);
    var inner := Fetch(opc, wordcode, co, next, 0).value;
    ShiftCombine(inner, a0, c, base, Bump(Fetch(opc, wordcode, co, next, a0 * base), 1).value,
                 Bump(Fetch(opc, wordcode, co, next, (a0 + c) * base), 1).value);
  }

  /** An EXTENDED_ARG prefix read with carry `c` or with none: the rest is
      decoded with the operand's carry, which `c` raises by `c` operands. */
  lemma PrefixSteps(opc: OpcodeTable, wordcode: bool, co: seq<Byte>, lasti: int, c: nat)
    requires ValidTable(opc) && CarryAligned(wordcode, c)
    requires PyIndex(co, lasti) == Some(opc.extendedArg)
    requires Fetch(opc, wordcode, co, lasti, 0).Ok?
    ensures ReadOperand(wordcode, co, lasti + 1, 0).Some?
    ensures var a0 := ReadOperand(wordcode, co, lasti + 1, 0).value;
      var next := lasti + InstrSize(wordcode, true);
      Fetch(opc, wordcode, co, lasti, 0) == Bump(Fetch(opc, wordcode, co, next, a0 * CarryBase(wordcode)), 1) &&
      Fetch(opc, wordcode, co, lasti, c) == Bump(Fetch(opc, wordcode, co, next, (a0 + c) * CarryBase(wordcode)), 1)
  {
    ReadOperandCarry(wordcode, co, lasti + 1, c);
    FetchPrefixStep(opc, wordcode, co, lasti, 0);
    FetchPrefixStep(opc, wordcode, co, lasti, c);
  }

  /** The arithmetic of PrefixCarryShifts: one more prefix shifts the carry one
      operand further. */
  lemma ShiftCombine(inner: Fetched, a0: nat, c: nat, base: nat, r0: Fetched, rc: Fetched)
    requires inner.operand.Some?
    requires r0 == inner.(operand := Some(inner.operand.value + Scale(a0 * base, base, inner.prefixes)), prefixes := inner.prefixes + 1)
    requires rc == inner.(operand := Some(inner.operand.value + Scale((a0 + c) * base, base, inner.prefixes)), prefixes := inner.prefixes + 1)
    ensures rc.operand == Some(r0.operand.value + Scale(c, base, r0.prefixes))
  {
    ScaleStep(a0, c, base, inner.prefixes);
  }

  /** EXTENDED_ARG is never handed back; in wordcode every instruction takes two
      bytes and the operand of `EXTENDED_ARG a; OP b` is `(a << 8) | b`. */
  lemma WordcodeOneExtension(opc: OpcodeTable, c: Code, lineStarts: map<int, int>, lasti: int, op: Byte, a: Byte, b: Byte)
    requires ValidTable(opc) && 0 <= lasti && lasti + 4 <= |c.code|
    requires c.code[lasti] == opc.extendedArg && c.code[lasti + 1] == a
    requires c.code[lasti + 2] == op && c.code[lasti + 3] == b
    requires op != opc.extendedArg && HasArgument(opc, op)
    ensures var f := Fetch(opc, true, c.code, lasti, 0);
      f == Ok(Fetched(op, lasti + 2, Some(a * 256 + b), lasti + 4, 1))
  {
    ByteOrCarry(a, 0);
    ByteOrCarry(b, a);
  }

  /** In the legacy format two EXTENDED_ARG prefixes each contribute sixteen
      bits: `EXTENDED_ARG a; EXTENDED_ARG b; op c` carries the operand
      `(a * 65536 + b) * 65536 + c`, each operand read as two little-endian
      bytes. */
  lemma LegacyTwoExtensions(opc: OpcodeTable, co: seq<Byte>, lasti: int, op: Byte,
                            a0: Byte, a1: Byte, b0: Byte, b1: Byte, c0: Byte, c1: Byte)
    requires ValidTable(opc) && 0 <= lasti && lasti + 9 <= |co|
    requires co[lasti] == opc.extendedArg && co[lasti + 1] == a0 && co[lasti + 2] == a1
    requires co[lasti + 3] == opc.extendedArg && co[lasti + 4] == b0 && co[lasti + 5] == b1
    requires co[lasti + 6] == op && co[lasti + 7] == c0 && co[lasti + 8] == c1
    requires op != opc.extendedArg && HasArgument(opc, op)
    ensures var a := a0 + a1 * 256;
      var b := b0 + b1 * 256;
      var c := c0 + c1 * 256;
      Fetch(opc, false, co, lasti, 0) == Ok(Fetched(op, lasti + 6, Some((a * 65536 + b) * 65536 + c), lasti + 9, 2))
  {
    var a := a0 + a1 * 256;
    var b := b0 + b1 * 256;
    var c := c0 + c1 * 256;
    var last := Fetch(opc, false, co, lasti + 6, (a * 65536 + b) * 65536);
    assert last == Ok(Fetched(op, lasti + 6, Some((a * 65536 + b) * 65536 + c), lasti + 9, 0));
    FetchPrefixStep(opc, false, co, lasti + 3, a * 65536);
    assert Fetch(opc, false, co, lasti + 3, a * 65536) == Bump(last, 1);
    FetchPrefixStep(opc, false, co, lasti, 0);
    BumpTwice(last, 1);
  }

  /** A relative jump resolves to the offset after its operand plus the operand,
      that is, its own offset plus its size plus the operand. */
  lemma DecodeRelativeJump(opc: OpcodeTable, wordcode: bool, c: Code, lineStarts: map<int, int>, lasti: int)
    requires ValidTable(opc)
    requires Decode(opc, wordcode, c, lineStarts, lasti).Ok?
    requires var f := Decode(opc, wordcode, c, lineStarts, lasti).value.fetched;
      f.operand.Some? && f.opcode in opc.jrelOps && f.opcode !in opc.constOps && f.opcode !in opc.freeOps && f.opcode !in opc.nameOps
    ensures var d := Decode(opc, wordcode, c, lineStarts, lasti).value;
      d.instr.args == [IntValue(d.instr.offset + InstrSize(wordcode, true) + d.fetched.operand.value)]
  {
  }

  /** A free-variable index past the cell variables names a free variable; an
      index past both tables is an IndexError. */
  lemma DecodeFreeVariable(opc: OpcodeTable, wordcode: bool, c: Code, lineStarts: map<int, int>, lasti: int)
    requires ValidTable(opc)
    requires var f := Fetch(opc, wordcode, c.code, lasti, 0);
      f.Ok? && f.value.operand.Some? && f.value.opcode !in opc.constOps && f.value.opcode in opc.freeOps &&
      f.value.operand.value >= |c.cellvars|
    ensures var i := Fetch(opc, wordcode, c.code, lasti, 0).value.operand.value - |c.cellvars|;
      var d := Decode(opc, wordcode, c, lineStarts, lasti);
      (d.Ok? <==> i < |c.freevars|) &&
      (d.Ok? ==> d.value.instr.args == [StrValue(c.freevars[i])])
  {
  }

  /** The decoded instruction starts at an opcode that is not EXTENDED_ARG,
      reports the line recorded for that offset, and carries one argument
      exactly when its opcode takes one. */
  lemma DecodeShape(opc: OpcodeTable, wordcode: bool, c: Code, lineStarts: map<int, int>, lasti: int)
    requires ValidTable(opc)
    requires Decode(opc, wordcode, c, lineStarts, lasti).Ok?
    ensures var d := Decode(opc, wordcode, c, lineStarts, lasti).value;
      d.fetched.opcode != opc.extendedArg &&
      d.instr.name == opc.opname[d.fetched.opcode] &&
      d.instr.offset == d.fetched.offset &&
      PyIndex(c.code, d.instr.offset) == Some(d.fetched.opcode) &&
      (d.instr.line.Some? <==> d.instr.offset in lineStarts) &&
      (|d.instr.args| == 1 <==> HasArgument(opc, d.fetched.opcode)) &&
      (|d.instr.args| == 0 <==> !HasArgument(opc, d.fetched.opcode)) &&
      d.fetched.next == d.instr.offset + InstrSize(wordcode, HasArgument(opc, d.fetched.opcode))
  {
  }
}
