/** The virtual machine of src/vm.c as values: the byte stack, the call stack of
    frames, the program counter and what the program has printed.  `ExecuteByte`
    is `execute_byte`, `Run` the fetch-execute loop of `execute` and
    `debug_execute`.  Every `ASSERT`/`ERROR` that ends the process is a `Fault`. */
module Machines {
  import opened Words
  import opened Results
  import opened Opcodes
  import opened Numerals

  /** `#define MB *1024`, so `MAX_STACK_SIZE` = `2 MB` = 2 * 1024 bytes. */
  const MAX_STACK_SIZE: nat := 2 * 1024
  const MAX_CALLSTACK_SIZE: nat := 10 * 1024
  /** `sizeof(u64)`. */
  const WORD_SIZE: nat := 8

  datatype Frame = Frame(callerSite: U64, callee: U64, stackStart: nat)

  /** `pc`, the live part `storage[..sp]` of the stack, the live part of the call
      stack (innermost frame last) and the bytes written to standard output. */
  datatype Machine = Machine(pc: U64, stack: seq<Byte>, frames: seq<Frame>, out: seq<Byte>)

  datatype Fault =
    | StackOverflow        // push past MAX_STACK_SIZE
    | CallStackOverflow    // push past MAX_CALLSTACK_SIZE
    | NoFrame              // the call stack is empty
    | OutOfFrame           // a pop or peek below the current frame's stack start
    | StackUnderflow       // a pop or peek of more bytes than the stack holds that the
                           // unsigned frame check let through: the copy would read before
                           // the stack storage
    | ShortPeek            // a peek whose offset is below its size
    | ShortStack           // ROT or OVR on fewer than 3 or 2 bytes
    | DivisionByZero       // DIV or MOD by 0
    | ReadPastProgram      // an operand that runs past the end of the program
    | BadStringPointer     // PTS on a string that is not inside the program
    | NotImplemented(op: Opcode)
    | InvalidOpcode(b: Byte)
    | NotModelled(op: Opcode)

  /** A value taken from the machine together with the machine after taking it. */
  datatype Got<T> = Got(val: T, after: Machine)

  // ---- Call stack (src/vm.c:5-21) ----

  /** `push_to_call_stack`. */
  function PushFrame(m: Machine, f: Frame): (r: Result<Machine, Fault>)
    ensures r.Ok? <==> |m.frames| < MAX_CALLSTACK_SIZE
    ensures r.Ok? ==> r.value == m.(frames := m.frames + [f])
    ensures r.Err? ==> r.error == CallStackOverflow
  {
    if |m.frames| < MAX_CALLSTACK_SIZE then Ok(m.(frames := m.frames + [f]))
    else Err(CallStackOverflow)
  }

  /** `pop_from_call_stack`. */
  function PopFrame(m: Machine): (r: Result<Got<Frame>, Fault>)
    ensures r.Ok? <==> m.frames != []
    ensures r.Ok? ==> r.value.after.frames + [r.value.val] == m.frames
    ensures r.Ok? ==> r.value.after == m.(frames := r.value.after.frames)
    ensures r.Err? ==> r.error == NoFrame
  {
    if m.frames != [] then
      var n := |m.frames|;
      assert m.frames[..n - 1] + [m.frames[n - 1]] == m.frames;
      Ok(Got(m.frames[n - 1], m.(frames := m.frames[..n - 1])))
    else Err(NoFrame)
  }

  /** `current_stack_frame`. */
  function CurrentFrame(m: Machine): (r: Result<Frame, Fault>)
    ensures r.Ok? <==> m.frames != []
    ensures r.Ok? ==> r.value == m.frames[|m.frames| - 1]
    ensures r.Err? ==> r.error == NoFrame
  {
    if m.frames != [] then Ok(m.frames[|m.frames| - 1]) else Err(NoFrame)
  }

  // ---- Data stack (src/vm.c:23-101) ----

  /** The floor of the current frame: the lowest byte its pops may take. */
  function Floor(m: Machine): nat {
    if m.frames == [] then 0 else m.frames[|m.frames| - 1].stackStart
  }

  /** The bytes below the current frame's start, which the frame may not touch. */
  function Below(m: Machine): seq<Byte> {
    if Floor(m) <= |m.stack| then m.stack[..Floor(m)] else m.stack
  }

  /** `m'` has the same frames as `m`, a stack at least as high as the frame's start
      and the same bytes below it: what a push or a pop inside the frame may change
      and what it may not. */
  predicate Within(m: Machine, m': Machine) {
    && m'.frames == m.frames && Floor(m') == Floor(m)
    && Floor(m) <= |m.stack| && Floor(m) <= |m'.stack|
    && Below(m') == Below(m)
  }

  /** The bounds check of the pop and peek helpers as the authors meant it: taking `n`
      bytes from a stack of `sp` bytes leaves at least `floor` of them. */
  predicate FrameAllows(sp: nat, n: nat, floor: nat) {
    n <= sp && sp - n >= floor
  }

  /** The same check as written, `sp - n >= stack_start` on `usize`: the subtraction
      wraps when `n > sp`. */
  predicate FrameCheckAsWritten(sp: nat, n: nat, floor: nat) {
    Wrap(sp - n) >= floor
  }

  /** The fault a refused pop or peek of `n` bytes ends in: the unsigned check rejects
      it (out of frame), or it lets through a request larger than the stack. */
  function PopFault(sp: nat, n: nat, floor: nat): (r: Fault)
    ensures r == StackUnderflow || r == OutOfFrame
    ensures r == StackUnderflow ==> n > sp
  {
    if n > sp && FrameCheckAsWritten(sp, n, floor) then StackUnderflow else OutOfFrame
  }

  /** `push_to_stack`. */
  function PushByte(m: Machine, v: Byte): (r: Result<Machine, Fault>)
    ensures r.Ok? <==> |m.stack| < MAX_STACK_SIZE
    ensures r.Ok? ==> r.value == m.(stack := m.stack + [v])
    ensures r.Ok? && Floor(m) <= |m.stack| ==> Within(m, r.value)
    ensures r.Err? ==> r.error == StackOverflow
  {
    if |m.stack| < MAX_STACK_SIZE then Ok(m.(stack := m.stack + [v])) else Err(StackOverflow)
  }

  /** `push_n_to_stack`: the check is `sp + n <= MAX_STACK_SIZE`. */
  function PushBytes(m: Machine, bytes: seq<Byte>): (r: Result<Machine, Fault>)
    ensures r.Ok? <==> |m.stack| + |bytes| <= MAX_STACK_SIZE
    ensures r.Ok? ==> r.value == m.(stack := m.stack + bytes)
    ensures r.Ok? && Floor(m) <= |m.stack| ==> Within(m, r.value)
    ensures r.Err? ==> r.error == StackOverflow
  {
    if |m.stack| + |bytes| <= MAX_STACK_SIZE then Ok(m.(stack := m.stack + bytes))
    else Err(StackOverflow)
  }

  /** `push_u64_to_stack`: the check is STRICT, `sp + 8 < MAX_STACK_SIZE`, so the
      last eight bytes of the stack never hold a word. */
  function PushWord(m: Machine, v: U64): (r: Result<Machine, Fault>)
    ensures r.Ok? <==> |m.stack| + WORD_SIZE < MAX_STACK_SIZE
    ensures r.Ok? ==> r.value == m.(stack := m.stack + WordBytes(v))
    ensures r.Ok? && Floor(m) <= |m.stack| ==> Within(m, r.value)
    ensures r.Err? ==> r.error == StackOverflow
  {
    if |m.stack| + WORD_SIZE < MAX_STACK_SIZE then Ok(m.(stack := m.stack + WordBytes(v)))
    else Err(StackOverflow)
  }

  /** `pop_n_from_stack`: the frame must exist, then the `n` top bytes must lie at or
      above its stack start; they are returned in stack order.  When `n <= sp` the
      source's unsigned test is exactly `FrameAllows` (the stack pointer never reaches
      2^64); when `n > sp` a test that wraps past the floor is a StackUnderflow. */
  function PopBytes(m: Machine, n: nat): (r: Result<Got<seq<Byte>>, Fault>)
    ensures r.Ok? <==> m.frames != [] && FrameAllows(|m.stack|, n, Floor(m))
    ensures r.Ok? ==> |r.value.val| == n && r.value.after.stack + r.value.val == m.stack
    ensures r.Ok? ==> r.value.after == m.(stack := r.value.after.stack)
    ensures r.Ok? ==> Within(m, r.value.after)
    ensures r.Err? ==> r.error == if m.frames == [] then NoFrame else PopFault(|m.stack|, n, Floor(m))
  {
    var f :- CurrentFrame(m);
    var sp := |m.stack|;
    if FrameAllows(sp, n, f.stackStart) then
      assert m.stack[..sp - n] + m.stack[sp - n..] == m.stack;
      Ok(Got(m.stack[sp - n..], m.(stack := m.stack[..sp - n])))
    else Err(PopFault(sp, n, f.stackStart))
  }

  /** `pop_from_stack`: the same check with one byte. */
  function PopByte(m: Machine): (r: Result<Got<Byte>, Fault>)
    ensures r.Ok? <==> m.frames != [] && FrameAllows(|m.stack|, 1, Floor(m))
    ensures r.Ok? ==> r.value.after.stack + [r.value.val] == m.stack
    ensures r.Ok? ==> r.value.after == m.(stack := r.value.after.stack)
    ensures r.Ok? ==> Within(m, r.value.after)
    ensures r.Err? ==> r.error == if m.frames == [] then NoFrame else PopFault(|m.stack|, 1, Floor(m))
  {
    var p :- PopBytes(m, 1);
    assert p.val == [p.val[0]];
    Ok(Got(p.val[0], p.after))
  }

  /** `pop_u64_from_stack`: the same check with eight bytes, read as a word. */
  function PopWord(m: Machine): (r: Result<Got<U64>, Fault>)
    ensures r.Ok? <==> m.frames != [] && FrameAllows(|m.stack|, WORD_SIZE, Floor(m))
    ensures r.Ok? ==> r.value.after.stack + WordBytes(r.value.val) == m.stack
    ensures r.Ok? ==> r.value.after == m.(stack := r.value.after.stack)
    ensures r.Ok? ==> Within(m, r.value.after)
    ensures r.Err? ==> r.error == if m.frames == [] then NoFrame else PopFault(|m.stack|, WORD_SIZE, Floor(m))
  {
    var p :- PopBytes(m, WORD_SIZE);
    Ok(Got(WordValue(p.val), p.after))
  }

  /** `peek_n_from_stack_with_offset` followed by the `n`-byte read `push_n_to_stack`
      makes through the pointer it returns: the `n` bytes starting `offset` bytes
      below the top. */
  function PeekBytes(m: Machine, offset: nat, n: nat): (r: Result<seq<Byte>, Fault>)
    ensures r.Ok? <==> m.frames != [] && n <= offset && FrameAllows(|m.stack|, offset, Floor(m))
    ensures r.Ok? ==> r.value == m.stack[|m.stack| - offset..|m.stack| - offset + n]
    ensures r.Err? ==> r.error == (if m.frames == [] then NoFrame else if offset < n then ShortPeek
                                   else PopFault(|m.stack|, offset, Floor(m)))
  {
    var f :- CurrentFrame(m);
    var sp := |m.stack|;
    if offset < n then Err(ShortPeek)
    else if !FrameAllows(sp, offset, f.stackStart) then Err(PopFault(sp, offset, f.stackStart))
    else Ok(m.stack[sp - offset..sp - offset + n])
  }

  // ---- Operand fetch (src/vm.c:111-121) ----

  /** `get_next_u8_from_program`. */
  function FetchByte(code: seq<Byte>, m: Machine): (r: Result<Got<Byte>, Fault>)
    ensures r.Ok? <==> m.pc < |code|
    ensures r.Ok? ==> r.value.val == code[m.pc] && r.value.after == m.(pc := Wrap(m.pc + 1))
  {
    if m.pc < |code| then Ok(Got(code[m.pc], m.(pc := Wrap(m.pc + 1))))
    else Err(ReadPastProgram)
  }

  /** `get_next_u64_from_program`: eight program bytes read as a word. */
  function FetchWord(code: seq<Byte>, m: Machine): (r: Result<Got<U64>, Fault>)
    ensures r.Ok? <==> m.pc + WORD_SIZE <= |code|
    ensures r.Ok? ==> WordBytes(r.value.val) == code[m.pc..m.pc + WORD_SIZE]
    ensures r.Ok? ==> r.value.after == m.(pc := Wrap(m.pc + WORD_SIZE))
  {
    if m.pc + WORD_SIZE <= |code| then
      Ok(Got(WordValue(code[m.pc..m.pc + WORD_SIZE]), m.(pc := Wrap(m.pc + WORD_SIZE))))
    else Err(ReadPastProgram)
  }

  // ---- Opcodes (src/vm.c:130-509) ----

  predicate IsArith(op: Opcode) {
    op == ADD || op == SUB || op == MUL || op == DIV || op == MOD
  }

  /** The `u64` arithmetic of ADD, SUB, MUL, DIV and MOD, `b op a` with `a` the top
      word: wrapping, and division truncating. */
  function Arith(op: Opcode, b: U64, a: U64): (r: Result<U64, Fault>)
    requires IsArith(op)
    ensures r.Err? <==> (op == DIV || op == MOD) && a == 0
  {
    match op
    case ADD => Ok(Wrap(b + a))
    case SUB => Ok(Wrap(b - a))
    case MUL => Ok(Wrap(b * a))
    case DIV => if a == 0 then Err(DivisionByZero) else Ok(b / a)
    case MOD => if a == 0 then Err(DivisionByZero) else Ok(b % a)
  }

  predicate IsComparison(op: Opcode) {
    op == EQU || op == LT || op == GT
  }

  function Bool(c: bool): Byte {
    if c then 1 else 0
  }

  /** EQU compares `(u8) a == b`, with the cast applied to `a` only; LT is `b < a` and
      GT is `b > a`. */
  function Compare(op: Opcode, b: U64, a: U64): (r: Byte)
    requires IsComparison(op)
    ensures r == 0 || r == 1
  {
    match op
    case EQU => Bool(a % 256 == b)
    case LT => Bool(b < a)
    case GT => Bool(b > a)
  }

  /** `execute_byte` on a decoded opcode; the program counter is already past it.
      Each `case` of the source's `switch` is one function below. */
  function ExecuteOp(code: seq<Byte>, m: Machine, op: Opcode): (r: Result<Machine, Fault>)
    ensures r.Ok? && Floor(m) <= |m.stack| && op != CLL && op != RET ==> Within(m, r.value)
  {
    Semantics(op)(code, m)
  }

  /** The `switch` of `execute_byte`: what each opcode does to the machine. */
  function Semantics(op: Opcode): (seq<Byte>, Machine) -> Result<Machine, Fault> {
    match op
    case NOP => NoOp
    case STR => ExecuteStr
    case PTS => ExecutePrintString
    case PTC => PrintChar
    case ADD => Add
    case SUB => Subtract
    case MOD => Remainder
    case MUL => Multiply
    case DIV => Divide
    case CLL => Call
    case RET => Return
    case JMP => Jump
    case JPT => JumpIfTrue
    case JPF => JumpIfFalse
    case EQU => Equal
    case LT => Less
    case GT => Greater
    case NOT => Not
    case OR => Or
    case DBG => DebugPrint
    case EXT => Exit
    case INC => Increment
    case DEC => Decrement
    case PSH => ExecutePush
    case PS8 => ExecutePushByte
    case DUP => Dup
    case SWP => Swap
    case DRP => Drop
    case ROT => Rotate
    case OVR => Over
    case DRPZ => ExecuteDropBytes
    case DUPZ => ExecuteDupBytes
    case BKP => Breakpoint
    case SWPZ => ExecuteSwapBytes
    case TKS => UnmodelledTKS
    case REF => UnmodelledREF
    case RF8 => UnmodelledRF8
    case LDR => UnhandledLDR
    case PNT => UnhandledPNT
    case LBL => UnhandledLBL
  }

  // The handles of the table above that wrap a shared definition.

  /** NOP and BKP leave the machine as it is (BKP only prints it). */
  function NoOp(code: seq<Byte>, m: Machine): Result<Machine, Fault> { Ok(m) }
  function Breakpoint(code: seq<Byte>, m: Machine): Result<Machine, Fault> { Ok(m) }

  /** PTC and DBG print the top of the stack. */
  function PrintChar(code: seq<Byte>, m: Machine): Result<Machine, Fault> { ExecutePrintChar(m) }
  function DebugPrint(code: seq<Byte>, m: Machine): Result<Machine, Fault> { ExecuteDebugPrint(m) }

  /** The arithmetic opcodes. */
  function Add(code: seq<Byte>, m: Machine): Result<Machine, Fault> { ExecuteArith(m, ADD) }
  function Subtract(code: seq<Byte>, m: Machine): Result<Machine, Fault> { ExecuteArith(m, SUB) }
  function Remainder(code: seq<Byte>, m: Machine): Result<Machine, Fault> { ExecuteArith(m, MOD) }
  function Multiply(code: seq<Byte>, m: Machine): Result<Machine, Fault> { ExecuteArith(m, MUL) }
  function Divide(code: seq<Byte>, m: Machine): Result<Machine, Fault> { ExecuteArith(m, DIV) }
  function Increment(code: seq<Byte>, m: Machine): Result<Machine, Fault> { ExecuteIncrement(m) }
  function Decrement(code: seq<Byte>, m: Machine): Result<Machine, Fault> { ExecuteDecrement(m) }

  /** Calls, returns and jumps. */
  function Call(code: seq<Byte>, m: Machine): Result<Machine, Fault> { ExecuteCall(m) }
  function Return(code: seq<Byte>, m: Machine): Result<Machine, Fault> { ExecuteReturn(m) }
  function Jump(code: seq<Byte>, m: Machine): Result<Machine, Fault> { ExecuteJump(m) }
  function JumpIfTrue(code: seq<Byte>, m: Machine): Result<Machine, Fault> { ExecuteJumpIf(m, true) }
  function JumpIfFalse(code: seq<Byte>, m: Machine): Result<Machine, Fault> { ExecuteJumpIf(m, false) }

  /** Comparisons and the logical opcodes. */
  function Equal(code: seq<Byte>, m: Machine): Result<Machine, Fault> { ExecuteComparison(m, EQU) }
  function Less(code: seq<Byte>, m: Machine): Result<Machine, Fault> { ExecuteComparison(m, LT) }
  function Greater(code: seq<Byte>, m: Machine): Result<Machine, Fault> { ExecuteComparison(m, GT) }
  function Not(code: seq<Byte>, m: Machine): Result<Machine, Fault> { ExecuteNot(m) }
  function Or(code: seq<Byte>, m: Machine): Result<Machine, Fault> { ExecuteOr(m) }

  /** EXT moves `pc` to the end of the program. */
  function Exit(code: seq<Byte>, m: Machine): Result<Machine, Fault> { Ok(m.(pc := Wrap(|code|))) }

  /** The word-sized stack shuffles. */
  function Dup(code: seq<Byte>, m: Machine): Result<Machine, Fault> { ExecuteDup(m) }
  function Swap(code: seq<Byte>, m: Machine): Result<Machine, Fault> { ExecuteSwap(m) }
  function Drop(code: seq<Byte>, m: Machine): Result<Machine, Fault> { ExecuteDrop(m) }
  function Rotate(code: seq<Byte>, m: Machine): Result<Machine, Fault> { ExecuteRotate(m) }
  function Over(code: seq<Byte>, m: Machine): Result<Machine, Fault> { ExecuteOver(m) }

  /** TKS, REF and RF8 lie outside this model. */
  function UnmodelledTKS(code: seq<Byte>, m: Machine): Result<Machine, Fault> { Err(NotModelled(TKS)) }
  function UnmodelledREF(code: seq<Byte>, m: Machine): Result<Machine, Fault> { Err(NotModelled(REF)) }
  function UnmodelledRF8(code: seq<Byte>, m: Machine): Result<Machine, Fault> { Err(NotModelled(RF8)) }

  /** LDR, PNT and LBL have no case in the `switch`. */
  function UnhandledLDR(code: seq<Byte>, m: Machine): Result<Machine, Fault> { Err(NotImplemented(LDR)) }
  function UnhandledPNT(code: seq<Byte>, m: Machine): Result<Machine, Fault> { Err(NotImplemented(PNT)) }
  function UnhandledLBL(code: seq<Byte>, m: Machine): Result<Machine, Fault> { Err(NotImplemented(LBL)) }

  /** STR: the length operand, then the address of the string bytes that follow it
      are pushed, address first, and `pc` skips the string.  The address is the
      string's offset in the program (see README). */
  function ExecuteStr(code: seq<Byte>, m: Machine): (r: Result<Machine, Fault>)
    ensures r.Ok? && Floor(m) <= |m.stack| ==> Within(m, r.value)
  {
    var len :- FetchWord(code, m);
    var str := len.after.pc;
    var m1 := len.after.(pc := Wrap(len.after.pc + len.val));
    var m2 :- PushWord(m1, str);
    PushWord(m2, len.val)
  }

  /** PTS: pops the length, then the address, and prints that many bytes.  With length
      0 the print loop reads nothing, so the address is not checked. */
  function ExecutePrintString(code: seq<Byte>, m: Machine): (r: Result<Machine, Fault>)
    ensures r.Ok? && Floor(m) <= |m.stack| ==> Within(m, r.value)
    ensures m.frames == [] ==> r == Err(NoFrame)
  {
    var len :- PopWord(m);
    var str :- PopWord(len.after);
    if len.val == 0 then Ok(str.after)
    else if str.val + len.val <= |code| then
      Ok(str.after.(out := str.after.out + code[str.val..str.val + len.val]))
    else Err(BadStringPointer)
  }

  /** PTC: pops one byte and prints it. */
  function ExecutePrintChar(m: Machine): (r: Result<Machine, Fault>)
    ensures r.Ok? && Floor(m) <= |m.stack| ==> Within(m, r.value)
    ensures m.frames == [] ==> r == Err(NoFrame)
  {
    var c :- PopByte(m);
    Ok(c.after.(out := c.after.out + [c.val]))
  }

  /** CLL: pops the target, opens a frame that remembers the return position, the
      target and the stack height after the pop, and jumps. */
  function ExecuteCall(m: Machine): (r: Result<Machine, Fault>)
    ensures m.frames == [] ==> r == Err(NoFrame)
  {
    var target :- PopWord(m);
    var m1 :- PushFrame(target.after, Frame(m.pc, target.val, |target.after.stack|));
    Ok(m1.(pc := target.val))
  }

  /** RET: closes the innermost frame and returns to its caller site; the stack is
      left as the callee left it. */
  function ExecuteReturn(m: Machine): (r: Result<Machine, Fault>)
    ensures m.frames == [] ==> r == Err(NoFrame)
  {
    var frame :- PopFrame(m);
    Ok(frame.after.(pc := frame.val.callerSite))
  }

  /** JMP: pops the target and jumps. */
  function ExecuteJump(m: Machine): (r: Result<Machine, Fault>)
    ensures r.Ok? && Floor(m) <= |m.stack| ==> Within(m, r.value)
    ensures m.frames == [] ==> r == Err(NoFrame)
  {
    var target :- PopWord(m);
    Ok(target.after.(pc := target.val))
  }

  /** JPT (`onTrue`) and JPF: pop the target, then the condition byte, and jump when
      the condition is nonzero, or zero, respectively. */
  function ExecuteJumpIf(m: Machine, onTrue: bool): (r: Result<Machine, Fault>)
    ensures r.Ok? && Floor(m) <= |m.stack| ==> Within(m, r.value)
    ensures m.frames == [] ==> r == Err(NoFrame)
  {
    var target :- PopWord(m);
    var c :- PopByte(target.after);
    Ok(if (c.val != 0) == onTrue then c.after.(pc := target.val) else c.after)
  }

  /** NOT: pops a byte and pushes 1 if it was 0, else 0. */
  function ExecuteNot(m: Machine): (r: Result<Machine, Fault>)
    ensures r.Ok? && Floor(m) <= |m.stack| ==> Within(m, r.value)
    ensures m.frames == [] ==> r == Err(NoFrame)
  {
    var a :- PopByte(m);
    PushByte(a.after, Bool(a.val == 0))
  }

  /** OR: pops two bytes and pushes 1 if either was nonzero, else 0. */
  function ExecuteOr(m: Machine): (r: Result<Machine, Fault>)
    ensures r.Ok? && Floor(m) <= |m.stack| ==> Within(m, r.value)
    ensures m.frames == [] ==> r == Err(NoFrame)
  {
    var a :- PopByte(m);
    var b :- PopByte(a.after);
    PushByte(b.after, Bool(a.val != 0 || b.val != 0))
  }

  /** DBG: pops a word and prints it in decimal. */
  function ExecuteDebugPrint(m: Machine): (r: Result<Machine, Fault>)
    ensures r.Ok? && Floor(m) <= |m.stack| ==> Within(m, r.value)
    ensures m.frames == [] ==> r == Err(NoFrame)
  {
    var n :- PopWord(m);
    Ok(n.after.(out := n.after.out + Decimal(n.val)))
  }

  /** INC: the top word plus one, wrapping. */
  function ExecuteIncrement(m: Machine): (r: Result<Machine, Fault>)
    ensures r.Ok? && Floor(m) <= |m.stack| ==> Within(m, r.value)
    ensures m.frames == [] ==> r == Err(NoFrame)
  {
    var v :- PopWord(m);
    PushWord(v.after, Wrap(v.val + 1))
  }

  /** DEC: the top word minus one, wrapping. */
  function ExecuteDecrement(m: Machine): (r: Result<Machine, Fault>)
    ensures r.Ok? && Floor(m) <= |m.stack| ==> Within(m, r.value)
    ensures m.frames == [] ==> r == Err(NoFrame)
  {
    var v :- PopWord(m);
    PushWord(v.after, Wrap(v.val - 1))
  }

  /** PSH: the eight operand bytes are pushed as a word. */
  function ExecutePush(code: seq<Byte>, m: Machine): (r: Result<Machine, Fault>)
    ensures r.Ok? && Floor(m) <= |m.stack| ==> Within(m, r.value)
  {
    var v :- FetchWord(code, m);
    PushWord(v.after, v.val)
  }

  /** PS8: the one operand byte is pushed. */
  function ExecutePushByte(code: seq<Byte>, m: Machine): (r: Result<Machine, Fault>)
    ensures r.Ok? && Floor(m) <= |m.stack| ==> Within(m, r.value)
  {
    var v :- FetchByte(code, m);
    PushByte(v.after, v.val)
  }

  /** DUP: pops a word and pushes it twice. */
  function ExecuteDup(m: Machine): (r: Result<Machine, Fault>)
    ensures r.Ok? && Floor(m) <= |m.stack| ==> Within(m, r.value)
    ensures m.frames == [] ==> r == Err(NoFrame)
  {
    var v :- PopWord(m);
    var m1 :- PushWord(v.after, v.val);
    PushWord(m1, v.val)
  }

  /** SWP: pops `a`, then `b`, and pushes `a`, then `b`. */
  function ExecuteSwap(m: Machine): (r: Result<Machine, Fault>)
    ensures r.Ok? && Floor(m) <= |m.stack| ==> Within(m, r.value)
    ensures m.frames == [] ==> r == Err(NoFrame)
  {
    var a :- PopWord(m);
    var b :- PopWord(a.after);
    var m1 :- PushWord(b.after, a.val);
    PushWord(m1, b.val)
  }

  /** DRP: pops a word. */
  function ExecuteDrop(m: Machine): (r: Result<Machine, Fault>)
    ensures r.Ok? && Floor(m) <= |m.stack| ==> Within(m, r.value)
    ensures m.frames == [] ==> r == Err(NoFrame)
  {
    var v :- PopWord(m);
    Ok(v.after)
  }

  /** DRPZ `n`: pops `n` bytes. */
  function ExecuteDropBytes(code: seq<Byte>, m: Machine): (r: Result<Machine, Fault>)
    ensures r.Ok? && Floor(m) <= |m.stack| ==> Within(m, r.value)
  {
    var n :- FetchWord(code, m);
    var dropped :- PopBytes(n.after, n.val);
    Ok(dropped.after)
  }

  /** DUPZ `offset` `n`: pushes a copy of the `n` bytes `offset` bytes below the top. */
  function ExecuteDupBytes(code: seq<Byte>, m: Machine): (r: Result<Machine, Fault>)
    ensures r.Ok? && Floor(m) <= |m.stack| ==> Within(m, r.value)
  {
    var offset :- FetchWord(code, m);
    var n :- FetchWord(code, offset.after);
    var bytes :- PeekBytes(n.after, offset.val, n.val);
    PushBytes(n.after, bytes)
  }

  /** SWPZ `n`: pops two blocks of `n` bytes and pushes them back in swapped order. */
  function ExecuteSwapBytes(code: seq<Byte>, m: Machine): (r: Result<Machine, Fault>)
    ensures r.Ok? && Floor(m) <= |m.stack| ==> Within(m, r.value)
  {
    var n :- FetchWord(code, m);
    var a :- PopBytes(n.after, n.val);
    var b :- PopBytes(a.after, n.val);
    var m1 :- PushBytes(b.after, a.val);
    PushBytes(m1, b.val)
  }

  /** ADD, SUB, MOD, MUL, DIV: pop `a`, pop `b`, push `b op a`. */
  function ExecuteArith(m: Machine, op: Opcode): (r: Result<Machine, Fault>)
    requires IsArith(op)
    ensures r.Ok? && Floor(m) <= |m.stack| ==> Within(m, r.value)
    ensures m.frames == [] ==> r == Err(NoFrame)
  {
    var a :- PopWord(m);
    var b :- PopWord(a.after);
    var v :- Arith(op, b.val, a.val);
    PushWord(b.after, v)
  }

  /** EQU, LT, GT: pop `a`, pop `b`, push one byte 1 or 0. */
  function ExecuteComparison(m: Machine, op: Opcode): (r: Result<Machine, Fault>)
    requires IsComparison(op)
    ensures r.Ok? && Floor(m) <= |m.stack| ==> Within(m, r.value)
    ensures m.frames == [] ==> r == Err(NoFrame)
  {
    var a :- PopWord(m);
    var b :- PopWord(a.after);
    PushByte(b.after, Compare(op, b.val, a.val))
  }

  /** ROT: checks only that three BYTES are there, then pops `a`, `b`, `c` and pushes
      `b`, `a`, `c`, so the third word ends on top. */
  function ExecuteRotate(m: Machine): (r: Result<Machine, Fault>)
    ensures r.Ok? && Floor(m) <= |m.stack| ==> Within(m, r.value)
  {
    if |m.stack| < 3 then Err(ShortStack)
    else
      var a :- PopWord(m);
      var b :- PopWord(a.after);
      var c :- PopWord(b.after);
      var m1 :- PushWord(c.after, b.val);
      var m2 :- PushWord(m1, a.val);
      PushWord(m2, c.val)
  }

  /** OVR: checks that two bytes are there, pops `a` and `b` and pushes `b`, `a`, `b`. */
  function ExecuteOver(m: Machine): (r: Result<Machine, Fault>)
    ensures r.Ok? && Floor(m) <= |m.stack| ==> Within(m, r.value)
  {
    if |m.stack| < 2 then Err(ShortStack)
    else
      var a :- PopWord(m);
      var b :- PopWord(a.after);
      var m1 :- PushWord(b.after, b.val);
      var m2 :- PushWord(m1, a.val);
      PushWord(m2, b.val)
  }

  /** `execute_byte` on a raw byte: one that names no opcode is invalid. */
  function ExecuteByte(code: seq<Byte>, m: Machine, b: Byte): (r: Result<Machine, Fault>)
    ensures forall op | Encode(op) == b :: r == ExecuteOp(code, m, op)
    ensures (forall op :: Encode(op) != b) ==> r == Err(InvalidOpcode(b))
  {
    match Decode(b)
    case None => Err(InvalidOpcode(b))
    case Some(op) => DecodeEncode(b, op); ExecuteOp(code, m, op)
  }

  /** One turn of the loop: fetch the opcode byte at `pc`, then execute it. */
  function Step(code: seq<Byte>, m: Machine): (r: Result<Machine, Fault>)
    ensures m.pc >= |code| ==> r == Err(ReadPastProgram)
    ensures m.pc < |code| ==> r == ExecuteByte(code, m.(pc := Wrap(m.pc + 1)), code[m.pc])
  {
    var op :- FetchByte(code, m);
    ExecuteByte(code, op.after, op.val)
  }

  // ---- The loops (src/vm.c:511-538) ----

  /** How a bounded run ends: the loop left because `pc` reached the program size, a
      fault ended the process (the machine is the one before the faulting step, so its
      output is everything printed), or the step budget ran out first. */
  datatype Outcome = Halted(m: Machine) | Faulted(fault: Fault, before: Machine) | Stopped(m: Machine)

  /** How a run can end: it halts only once `pc` has left the program, it is stopped
      with `pc` still inside, and a fault comes from a step taken inside the program
      that fails with exactly that fault. */
  predicate Ends(code: seq<Byte>, r: Outcome) {
    match r
    case Halted(m) => m.pc >= |code|
    case Stopped(m) => m.pc < |code|
    case Faulted(f, m) => m.pc < |code| && Step(code, m) == Err(f)
  }

  /** `while (vm.pc < program->size) step`, for at most `fuel` steps: the loop ends
      when `pc` leaves the program. */
  function Run(code: seq<Byte>, m: Machine, fuel: nat): (r: Outcome)
    ensures Ends(code, r)
    decreases fuel, 2
  {
    if m.pc >= |code| then Halted(m) else Continue(code, m, fuel)
  }

  /** The loop is still running: it stops when the budget of turns is spent. */
  function Continue(code: seq<Byte>, m: Machine, fuel: nat): (r: Outcome)
    requires m.pc < |code|
    ensures Ends(code, r)
    decreases fuel, 1
  {
    if fuel == 0 then Stopped(m) else Advance(code, m, fuel)
  }

  /** One turn of the loop: a step that succeeds continues the run from where it left
      the machine, one that faults ends it. */
  function Advance(code: seq<Byte>, m: Machine, fuel: nat): (r: Outcome)
    requires m.pc < |code| && fuel > 0
    ensures Ends(code, r)
    decreases fuel, 0
  {
    match Step(code, m)
    case Err(f) => Faulted(f, m)
    case Ok(m') => Run(code, m', fuel - 1)
  }

  /** One turn of the loop in terms of the fetched opcode byte: a step that succeeds
      continues the run from where it left the machine, one that fails ends it. */
  lemma RunTurn(code: seq<Byte>, m: Machine, fuel: nat, b: Byte, m1: Machine)
    requires m.pc < |code| && fuel > 0 && FetchByte(code, m) == Ok(Got(b, m1))
    ensures ExecuteByte(code, m1, b).Ok? ==>
      Run(code, m, fuel) == Run(code, ExecuteByte(code, m1, b).value, fuel - 1)
    ensures ExecuteByte(code, m1, b).Err? ==>
      Run(code, m, fuel) == Faulted(ExecuteByte(code, m1, b).error, m)
  {
    assert Run(code, m, fuel) == Advance(code, m, fuel);
    assert Step(code, m) == ExecuteByte(code, m1, b);
  }

  /** The loop has ended: `pc` has left the program, or the budget is spent. */
  lemma RunEnds(code: seq<Byte>, m: Machine, fuel: nat)
    requires m.pc >= |code| || fuel == 0
    ensures Run(code, m, fuel) == if m.pc >= |code| then Halted(m) else Stopped(m)
  {
  }

  /** `execute` starts a zeroed VM: no call frame at all. */
  function FramelessStart(): Machine {
    Machine(0, [], [], [])
  }

  /** `debug_execute` pushes the global frame {0, 0, 0} first. */
  function DebugStart(): Machine {
    Machine(0, [], [Frame(0, 0, 0)], [])
  }

  function Execute(code: seq<Byte>, fuel: nat): (r: Outcome)
    ensures Ends(code, r)
    ensures code == [] ==> r == Halted(FramelessStart())
  {
    Run(code, FramelessStart(), fuel)
  }

  function DebugExecute(code: seq<Byte>, fuel: nat): (r: Outcome)
    ensures Ends(code, r)
    ensures code == [] ==> r == Halted(DebugStart())
  {
    Run(code, DebugStart(), fuel)
  }
}
