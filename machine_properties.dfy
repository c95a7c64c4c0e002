/** What the virtual machine of src/vm.c guarantees, proved about module Machines:
    the word round trip through the stack, the frame bounds, the effect of each
    stack-shuffling opcode, calls and returns, and what the two loops can reach. */
module MachineProperties {
  import opened Words
  import opened Results
  import opened Opcodes
  import opened Numerals
  import opened Machines

  // ---- Pops and pushes ----

  /** Popping a word that sits on top of `s`, inside the frame, yields that word and
      leaves `s`. */
  lemma PopWordOf(m: Machine, s: seq<Byte>, a: U64)
    requires m.frames != [] && Floor(m) <= |s| && m.stack == s + WordBytes(a)
    ensures PopWord(m) == Ok(Got(a, m.(stack := s)))
  {
    var r := PopWord(m).value;
    assert m.stack[..|s|] == s && m.stack[|s|..] == WordBytes(a);
    assert (r.after.stack + WordBytes(r.val))[..|s|] == r.after.stack;
    assert (r.after.stack + WordBytes(r.val))[|s|..] == WordBytes(r.val);
    WordRoundTrip(r.val);
    WordRoundTrip(a);
  }

  /** The same for one byte. */
  lemma PopByteOf(m: Machine, s: seq<Byte>, c: Byte)
    requires m.frames != [] && Floor(m) <= |s| && m.stack == s + [c]
    ensures PopByte(m) == Ok(Got(c, m.(stack := s)))
  {
    var r := PopByte(m).value;
    assert (r.after.stack + [r.val])[..|s|] == r.after.stack;
    assert m.stack[..|s|] == s && m.stack[|s|] == c;
  }

  /** The same for `n` bytes. */
  lemma PopBytesOf(m: Machine, s: seq<Byte>, bytes: seq<Byte>)
    requires m.frames != [] && Floor(m) <= |s| && m.stack == s + bytes
    ensures PopBytes(m, |bytes|) == Ok(Got(bytes, m.(stack := s)))
  {
    var r := PopBytes(m, |bytes|).value;
    assert (r.after.stack + r.val)[..|s|] == r.after.stack;
    assert (r.after.stack + r.val)[|s|..] == r.val;
    assert m.stack[..|s|] == s && m.stack[|s|..] == bytes;
  }

  /** A word pushed inside the frame pops back unchanged, and the machine is as before:
      `pop_u64_from_stack` undoes `push_u64_to_stack`. */
  lemma PushPopWord(m: Machine, v: U64)
    requires m.frames != [] && Floor(m) <= |m.stack| && |m.stack| + WORD_SIZE < MAX_STACK_SIZE
    ensures PushWord(m, v).Ok?
    ensures PopWord(PushWord(m, v).value) == Ok(Got(v, m))
  {
    PopWordOf(PushWord(m, v).value, m.stack, v);
  }

  /** The same for a byte. */
  lemma PushPopByte(m: Machine, v: Byte)
    requires m.frames != [] && Floor(m) <= |m.stack| && |m.stack| < MAX_STACK_SIZE
    ensures PushByte(m, v).Ok?
    ensures PopByte(PushByte(m, v).value) == Ok(Got(v, m))
  {
    PopByteOf(PushByte(m, v).value, m.stack, v);
  }

  /** The strict check of `push_u64_to_stack`: with exactly eight bytes free, a word
      does not fit although eight single bytes (or one `push_n_to_stack` of eight) do. */
  lemma LastWordDoesNotFit(m: Machine, v: U64)
    requires |m.stack| == MAX_STACK_SIZE - WORD_SIZE
    ensures PushWord(m, v) == Err(StackOverflow)
    ensures PushBytes(m, WordBytes(v)).Ok?
  {
  }

  // ---- The frame check (src/vm.c:47-97) ----

  /** As written, `sp - n >= stack_start` lets a pop of 8 bytes from a 3-byte stack
      through in the outermost frame: 3 - 8 wraps to 2^64 - 5, and the copy that
      follows would read before the stack storage. */
  lemma FrameCheckAdmitsUnderflow(m: Machine)
    requires m.frames != [] && Floor(m) == 0 && |m.stack| == 3
    ensures FrameCheckAsWritten(3, 8, 0)
    ensures !FrameAllows(3, 8, 0)
    ensures PopWord(m) == Err(StackUnderflow)
  {
  }

  /** Whenever `n > sp` the check as written passes for every floor up to
      2^64 + sp - n, although no such pop fits. */
  lemma FrameCheckAsWrittenOnUnderflow(sp: U64, n: U64, floor: U64)
    requires n > sp
    ensures FrameCheckAsWritten(sp, n, floor) <==> floor <= U64_MODULUS + sp - n
    ensures !FrameAllows(sp, n, floor)
  {
  }

  /** The two checks agree whenever the stack holds the bytes asked for, which is the
      only case the authors' check can mean. */
  lemma FrameCheckAgrees(sp: U64, n: U64, floor: U64)
    requires n <= sp
    ensures FrameCheckAsWritten(sp, n, floor) <==> FrameAllows(sp, n, floor)
  {
  }

  // ---- Opcode effects (src/vm.c:130-509) ----

  /** ADD, SUB, MOD, MUL, DIV: the two top words `b`, `a` are replaced by `b op a`,
      or DIV and MOD by zero fault. */
  lemma ArithEffect(m: Machine, op: Opcode, s: seq<Byte>, b: U64, a: U64)
    requires IsArith(op)
    requires m.frames != [] && Floor(m) <= |s| && m.stack == s + WordBytes(b) + WordBytes(a)
    requires |s| + WORD_SIZE < MAX_STACK_SIZE
    ensures Arith(op, b, a).Err? ==> ExecuteArith(m, op) == Err(DivisionByZero)
    ensures Arith(op, b, a).Ok? ==>
      ExecuteArith(m, op) == Ok(m.(stack := s + WordBytes(Arith(op, b, a).value)))
  {
    PopWordOf(m, s + WordBytes(b), a);
    PopWordOf(m.(stack := s + WordBytes(b)), s, b);
  }

  /** EQU, LT, GT: the two top words are replaced by one byte 1 or 0. */
  lemma ComparisonEffect(m: Machine, op: Opcode, s: seq<Byte>, b: U64, a: U64)
    requires IsComparison(op)
    requires m.frames != [] && Floor(m) <= |s| && m.stack == s + WordBytes(b) + WordBytes(a)
    requires |s| < MAX_STACK_SIZE
    ensures ExecuteComparison(m, op) == Ok(m.(stack := s + [Compare(op, b, a)]))
  {
    PopWordOf(m, s + WordBytes(b), a);
    PopWordOf(m.(stack := s + WordBytes(b)), s, b);
  }

  /** EQU truncates only the top word to a byte: a second word of 256 or more never
      compares equal, the two agree with `==` on bytes, and the comparison is not
      symmetric (0 under 256 is equal, 256 under 0 is not). */
  lemma EqualityCastsTopOnly(b: U64, a: U64)
    ensures b >= 256 ==> Compare(EQU, b, a) == 0
    ensures a < 256 && b < 256 ==> (Compare(EQU, b, a) == 1 <==> a == b)
    ensures Compare(EQU, 0, 256) == 1 && Compare(EQU, 256, 0) == 0
  {
  }

  /** DUP: the top word appears twice. */
  lemma DupEffect(m: Machine, s: seq<Byte>, a: U64)
    requires m.frames != [] && Floor(m) <= |s| && m.stack == s + WordBytes(a)
    requires |s| + 2 * WORD_SIZE < MAX_STACK_SIZE
    ensures ExecuteDup(m) == Ok(m.(stack := s + WordBytes(a) + WordBytes(a)))
  {
    PopWordOf(m, s, a);
  }

  /** SWP: the two top words change places. */
  lemma SwapEffect(m: Machine, s: seq<Byte>, b: U64, a: U64)
    requires m.frames != [] && Floor(m) <= |s| && m.stack == s + WordBytes(b) + WordBytes(a)
    requires |s| + 2 * WORD_SIZE < MAX_STACK_SIZE
    ensures ExecuteSwap(m) == Ok(m.(stack := s + WordBytes(a) + WordBytes(b)))
  {
    PopWordOf(m, s + WordBytes(b), a);
    PopWordOf(m.(stack := s + WordBytes(b)), s, b);
  }

  /** Because of the strict push check, SWP on a completely full stack pops both
      words, pushes one back and then overflows. */
  lemma SwapOnFullStack(m: Machine, s: seq<Byte>, b: U64, a: U64)
    requires m.frames != [] && Floor(m) <= |s| && m.stack == s + WordBytes(b) + WordBytes(a)
    requires |m.stack| == MAX_STACK_SIZE
    ensures ExecuteSwap(m) == Err(StackOverflow)
  {
    PopWordOf(m, s + WordBytes(b), a);
    PopWordOf(m.(stack := s + WordBytes(b)), s, b);
  }

  /** ROT: with `a` on top of `b` on top of `c`, the third word moves to the top. */
  lemma RotateEffect(m: Machine, s: seq<Byte>, c: U64, b: U64, a: U64)
    requires m.frames != [] && Floor(m) <= |s|
    requires m.stack == s + WordBytes(c) + WordBytes(b) + WordBytes(a)
    requires |s| + 3 * WORD_SIZE < MAX_STACK_SIZE
    ensures ExecuteRotate(m) ==
      Ok(m.(stack := s + WordBytes(b) + WordBytes(a) + WordBytes(c)))
  {
    PopWordOf(m, s + WordBytes(c) + WordBytes(b), a);
    PopWordOf(m.(stack := s + WordBytes(c) + WordBytes(b)), s + WordBytes(c), b);
    PopWordOf(m.(stack := s + WordBytes(c)), s, c);
  }

  /** OVR: the word below the top is copied over it. */
  lemma OverEffect(m: Machine, s: seq<Byte>, b: U64, a: U64)
    requires m.frames != [] && Floor(m) <= |s| && m.stack == s + WordBytes(b) + WordBytes(a)
    requires |s| + 3 * WORD_SIZE < MAX_STACK_SIZE
    ensures ExecuteOver(m) ==
      Ok(m.(stack := s + WordBytes(b) + WordBytes(a) + WordBytes(b)))
  {
    PopWordOf(m, s + WordBytes(b), a);
    PopWordOf(m.(stack := s + WordBytes(b)), s, b);
  }

  /** INC: the top word is replaced by its successor, wrapping at 2^64. */
  lemma IncrementEffect(m: Machine, s: seq<Byte>, a: U64)
    requires m.frames != [] && Floor(m) <= |s| && m.stack == s + WordBytes(a)
    requires |s| + WORD_SIZE < MAX_STACK_SIZE
    ensures ExecuteIncrement(m) == Ok(m.(stack := s + WordBytes(Wrap(a + 1))))
  {
    PopWordOf(m, s, a);
  }

  /** DEC: the top word is replaced by its predecessor, wrapping at 0. */
  lemma DecrementEffect(m: Machine, s: seq<Byte>, a: U64)
    requires m.frames != [] && Floor(m) <= |s| && m.stack == s + WordBytes(a)
    requires |s| + WORD_SIZE < MAX_STACK_SIZE
    ensures ExecuteDecrement(m) == Ok(m.(stack := s + WordBytes(Wrap(a - 1))))
  {
    PopWordOf(m, s, a);
  }

  /** DRP: the top word is removed. */
  lemma DropEffect(m: Machine, s: seq<Byte>, a: U64)
    requires m.frames != [] && Floor(m) <= |s| && m.stack == s + WordBytes(a)
    ensures ExecuteDrop(m) == Ok(m.(stack := s))
  {
    PopWordOf(m, s, a);
  }

  /** JMP: the top word is removed and becomes the program counter. */
  lemma JumpEffect(m: Machine, s: seq<Byte>, target: U64)
    requires m.frames != [] && Floor(m) <= |s| && m.stack == s + WordBytes(target)
    ensures ExecuteJump(m) == Ok(m.(stack := s, pc := target))
  {
    PopWordOf(m, s, target);
  }

  /** NOT: the top byte is replaced by 1 if it was 0 and by 0 otherwise. */
  lemma NotEffect(m: Machine, s: seq<Byte>, c: Byte)
    requires m.frames != [] && Floor(m) <= |s| && m.stack == s + [c]
    requires |s| < MAX_STACK_SIZE
    ensures ExecuteNot(m) == Ok(m.(stack := s + [Bool(c == 0)]))
  {
    PopByteOf(m, s, c);
  }

  /** OR: the two top bytes are replaced by 1 if either is nonzero and by 0 otherwise. */
  lemma OrEffect(m: Machine, s: seq<Byte>, b: Byte, a: Byte)
    requires m.frames != [] && Floor(m) <= |s| && m.stack == s + [b] + [a]
    requires |s| < MAX_STACK_SIZE
    ensures ExecuteOr(m) == Ok(m.(stack := s + [Bool(a != 0 || b != 0)]))
  {
    PopByteOf(m, s + [b], a);
    PopByteOf(m.(stack := s + [b]), s, b);
  }

  /** PTC: the top byte is removed and printed. */
  lemma PrintCharEffect(m: Machine, s: seq<Byte>, c: Byte)
    requires m.frames != [] && Floor(m) <= |s| && m.stack == s + [c]
    ensures ExecutePrintChar(m) == Ok(m.(stack := s, out := m.out + [c]))
  {
    PopByteOf(m, s, c);
  }

  /** DBG: the top word is removed and printed in decimal. */
  lemma DebugPrintEffect(m: Machine, s: seq<Byte>, n: U64)
    requires m.frames != [] && Floor(m) <= |s| && m.stack == s + WordBytes(n)
    ensures ExecuteDebugPrint(m) == Ok(m.(stack := s, out := m.out + Decimal(n)))
  {
    PopWordOf(m, s, n);
  }

  /** PTS: with the address below the length on top, both are removed and the `length`
      bytes of the program from the address on are printed. */
  lemma PrintStringEffect(code: seq<Byte>, m: Machine, s: seq<Byte>, start: U64, length: U64)
    requires m.frames != [] && Floor(m) <= |s| && m.stack == s + WordBytes(start) + WordBytes(length)
    requires start + length <= |code|
    ensures ExecutePrintString(code, m) ==
      Ok(m.(stack := s, out := m.out + code[start..start + length]))
  {
    if length == 0 {
      EmptyPrintIgnoresAddress(code, m, s, start);
      assert m.(stack := s) == m.(stack := s, out := m.out + code[start..start]);
    } else {
      NonEmptyPrint(code, m, s, start, length);
    }
  }

  /** PrintStringEffect for a string of at least one byte. */
  lemma NonEmptyPrint(code: seq<Byte>, m: Machine, s: seq<Byte>, start: U64, length: U64)
    requires m.frames != [] && Floor(m) <= |s| && m.stack == s + WordBytes(start) + WordBytes(length)
    requires 0 < length && start + length <= |code|
    ensures ExecutePrintString(code, m) ==
      Ok(m.(stack := s, out := m.out + code[start..start + length]))
  {
    PopWordOf(m, s + WordBytes(start), length);
    PopWordOf(m.(stack := s + WordBytes(start)), s, start);
  }

  /** PTS of an empty string pops both words and prints nothing, wherever the address
      points: the print loop of src/vm.c:155 runs zero times. */
  lemma EmptyPrintIgnoresAddress(code: seq<Byte>, m: Machine, s: seq<Byte>, start: U64)
    requires m.frames != [] && Floor(m) <= |s| && m.stack == s + WordBytes(start) + WordBytes(0)
    ensures ExecutePrintString(code, m) == Ok(m.(stack := s))
  {
    PopWordOf(m, s + WordBytes(start), 0);
    PopWordOf(m.(stack := s + WordBytes(start)), s, start);
  }

  /** STR: the string that follows the length operand is skipped, and its address and
      then its length are pushed; PTS prints exactly it. */
  lemma StrEffect(code: seq<Byte>, m: Machine, length: U64)
    requires m.pc + WORD_SIZE <= |code| < U64_MODULUS
    requires code[m.pc..m.pc + WORD_SIZE] == WordBytes(length)
    requires |m.stack| + 2 * WORD_SIZE < MAX_STACK_SIZE
    ensures ExecuteStr(code, m) == Ok(m.(pc := Wrap(m.pc + WORD_SIZE + length),
      stack := m.stack + WordBytes(m.pc + WORD_SIZE) + WordBytes(length)))
  {
    WordRoundTrip(length);
  }

  /** PSH copies the eight operand bytes that follow it onto the stack unchanged and
      moves past them. */
  lemma PushOperandEffect(code: seq<Byte>, m: Machine)
    requires m.pc + WORD_SIZE <= |code| < U64_MODULUS
    requires |m.stack| + WORD_SIZE < MAX_STACK_SIZE
    ensures ExecutePush(code, m) ==
      Ok(m.(pc := m.pc + WORD_SIZE, stack := m.stack + code[m.pc..m.pc + WORD_SIZE]))
  {
  }

  /** PS8 copies the one operand byte that follows it. */
  lemma PushByteOperandEffect(code: seq<Byte>, m: Machine)
    requires m.pc < |code| < U64_MODULUS
    requires |m.stack| < MAX_STACK_SIZE
    ensures ExecutePushByte(code, m) == Ok(m.(pc := m.pc + 1, stack := m.stack + [code[m.pc]]))
  {
  }

  /** DUPZ `offset` `n` copies the `n` bytes that start `offset` bytes below the top
      onto the top. */
  lemma DupBytesEffect(code: seq<Byte>, m: Machine, offset: U64, n: U64)
    requires m.pc + 2 * WORD_SIZE <= |code| < U64_MODULUS
    requires code[m.pc..m.pc + WORD_SIZE] == WordBytes(offset)
    requires code[m.pc + WORD_SIZE..m.pc + 2 * WORD_SIZE] == WordBytes(n)
    requires m.frames != [] && n <= offset && FrameAllows(|m.stack|, offset, Floor(m))
    requires |m.stack| + n <= MAX_STACK_SIZE
    ensures ExecuteDupBytes(code, m) == Ok(m.(pc := m.pc + 2 * WORD_SIZE,
      stack := m.stack + m.stack[|m.stack| - offset..|m.stack| - offset + n]))
  {
    WordRoundTrip(offset);
    WordRoundTrip(n);
    var o := FetchWord(code, m).value;
    assert o.val == offset;
    var k := FetchWord(code, o.after).value;
    assert k.val == n && k.after == m.(pc := m.pc + 2 * WORD_SIZE);
    var bytes := m.stack[|m.stack| - offset..|m.stack| - offset + n];
    assert PeekBytes(k.after, offset, n) == Ok(bytes);
    assert PushBytes(k.after, bytes) == Ok(k.after.(stack := m.stack + bytes));
  }

  /** SWPZ `n`: the two top blocks of `n` bytes change places. */
  lemma SwapBytesEffect(code: seq<Byte>, m: Machine, s: seq<Byte>, lower: seq<Byte>, upper: seq<Byte>)
    requires m.pc + WORD_SIZE <= |code| < U64_MODULUS
    requires |lower| == |upper| < U64_MODULUS
    requires code[m.pc..m.pc + WORD_SIZE] == WordBytes(|upper|)
    requires m.frames != [] && Floor(m) <= |s| && m.stack == s + lower + upper
    requires |m.stack| <= MAX_STACK_SIZE
    ensures ExecuteSwapBytes(code, m) == Ok(m.(pc := m.pc + WORD_SIZE, stack := s + upper + lower))
  {
    WordRoundTrip(|upper|);
    var m1 := m.(pc := m.pc + WORD_SIZE);
    PopBytesOf(m1, s + lower, upper);
    PopBytesOf(m1.(stack := s + lower), s, lower);
  }

  /** DRPZ `n` drops the `n` top bytes. */
  lemma DropBytesEffect(code: seq<Byte>, m: Machine, s: seq<Byte>, top: seq<Byte>)
    requires m.pc + WORD_SIZE <= |code| < U64_MODULUS
    requires |top| < U64_MODULUS
    requires code[m.pc..m.pc + WORD_SIZE] == WordBytes(|top|)
    requires m.frames != [] && Floor(m) <= |s| && m.stack == s + top
    ensures ExecuteDropBytes(code, m) == Ok(m.(pc := m.pc + WORD_SIZE, stack := s))
  {
    WordRoundTrip(|top|);
    PopBytesOf(m.(pc := m.pc + WORD_SIZE), s, top);
  }

  /** JPT and JPF pop the target, then the condition byte, and jump on a nonzero or a
      zero condition respectively. */
  lemma ConditionalJumpEffect(m: Machine, s: seq<Byte>, c: Byte, target: U64)
    requires m.frames != [] && Floor(m) <= |s| && m.stack == s + [c] + WordBytes(target)
    ensures ExecuteJumpIf(m, true) == Ok(m.(stack := s, pc := if c != 0 then target else m.pc))
    ensures ExecuteJumpIf(m, false) == Ok(m.(stack := s, pc := if c == 0 then target else m.pc))
  {
    PopWordOf(m, s + [c], target);
    PopByteOf(m.(stack := s + [c]), s, c);
  }

  // ---- Calls (src/vm.c:209-238) ----

  /** CLL pops the target, opens a frame whose stack start is the stack height after
      that pop, remembers the return position and jumps; a later RET, whatever the
      callee did to the stack, closes that frame and returns there WITHOUT resetting
      the stack height (the reset is commented out in the source). */
  lemma CallThenReturn(m: Machine, s: seq<Byte>, target: U64, later: Machine)
    requires m.frames != [] && Floor(m) <= |s| && m.stack == s + WordBytes(target)
    requires |m.frames| < MAX_CALLSTACK_SIZE
    ensures var called := ExecuteCall(m);
      && called.Ok?
      && called.value == m.(stack := s, pc := target, frames := m.frames + [Frame(m.pc, target, |s|)])
      && (later.frames == called.value.frames ==>
            ExecuteReturn(later) == Ok(later.(frames := m.frames, pc := m.pc)))
  {
    PopWordOf(m, s, target);
    var frames := m.frames + [Frame(m.pc, target, |s|)];
    assert frames[..|frames| - 1] == m.frames;
  }

  /** RET with no frame left (the global one of `debug_execute` already closed, or any
      RET under `execute`) faults. */
  lemma ReturnWithoutFrame(m: Machine)
    requires m.frames == []
    ensures ExecuteReturn(m) == Err(NoFrame)
  {
  }

  /** TKS, REF and RF8 lie outside this model and LDR, PNT and LBL have no case in
      `execute_byte`: each of them ends the run. */
  lemma UnmodelledOpFaults(code: seq<Byte>, m: Machine, op: Opcode)
    requires op == TKS || op == REF || op == RF8 || op == LDR || op == PNT || op == LBL
    ensures ExecuteOp(code, m, op) == Err(if op == TKS || op == REF || op == RF8 then NotModelled(op) else NotImplemented(op))
  {
  }

  /** EXT sets `pc` to the program size, so the loop stops right after it. */
  lemma ExitHalts(code: seq<Byte>, m: Machine, fuel: nat)
    requires m.pc < |code| < U64_MODULUS && code[m.pc] == Encode(EXT) && fuel > 0
    ensures Run(code, m, fuel) == Halted(m.(pc := |code|))
  {
    assert Run(code, m, fuel) == Advance(code, m, fuel);
    assert Step(code, m) == Ok(m.(pc := |code|));
  }

  // ---- The loops (src/vm.c:511-538) ----

  /** Without a frame no step ever opens one: CLL must pop its target first, and
      every other opcode keeps the frames it found. */
  lemma FramelessStep(code: seq<Byte>, m: Machine)
    requires m.frames == [] && Step(code, m).Ok?
    ensures Step(code, m).value.frames == []
  {
    var fetched := FetchByte(code, m).value;
    var op := Decode(fetched.val).value;
    assert Step(code, m) == ExecuteOp(code, fetched.after, op);
  }

  /** What `execute` can reach: every machine along the run, including the one before
      a fault, has no frame, so every pop it attempts faults. */
  lemma {:induction false} FramelessRun(code: seq<Byte>, m: Machine, fuel: nat)
    requires m.frames == []
    ensures var o := Run(code, m, fuel);
      var last := if o.Faulted? then o.before else o.m;
      last.frames == []
    decreases fuel
  {
    if m.pc < |code| && fuel > 0 {
      assert Run(code, m, fuel) == Advance(code, m, fuel);
      if Step(code, m).Ok? {
        FramelessStep(code, m);
        FramelessRun(code, Step(code, m).value, fuel - 1);
      }
    }
  }

  lemma ExecuteIsFrameless(code: seq<Byte>, fuel: nat, n: nat)
    ensures var o := Execute(code, fuel);
      var last := if o.Faulted? then o.before else o.m;
      last.frames == [] && PopBytes(last, n) == Err(NoFrame)
  {
    FramelessRun(code, FramelessStart(), fuel);
  }

  // ---- Frame isolation ----

  /** Frames are nested: each one starts at or above the one that opened it, and the
      stack never sinks below the innermost. */
  predicate FramesNested(m: Machine) {
    && (forall i, j | 0 <= i <= j < |m.frames| :: m.frames[i].stackStart <= m.frames[j].stackStart)
    && Floor(m) <= |m.stack|
  }

  /** The bytes below the current frame's start are left as they were. */
  predicate KeepsBelowFloor(m: Machine, m': Machine) {
    Floor(m) <= |m.stack| && Floor(m) <= |m'.stack| && m'.stack[..Floor(m)] == m.stack[..Floor(m)]
  }

  lemma PopKeepsBelowFloor(m: Machine, n: nat)
    requires PopBytes(m, n).Ok?
    ensures KeepsBelowFloor(m, PopBytes(m, n).value.after)
    ensures Floor(PopBytes(m, n).value.after) == Floor(m)
  {
    var r := PopBytes(m, n).value.after;
    assert r.stack == m.stack[..|m.stack| - n] by {
      assert (r.stack + PopBytes(m, n).value.val)[..|r.stack|] == r.stack;
    }
  }

  lemma PushKeepsBelowFloor(m: Machine, bytes: seq<Byte>)
    requires Floor(m) <= |m.stack|
    ensures KeepsBelowFloor(m, m.(stack := m.stack + bytes))
  {
    assert (m.stack + bytes)[..Floor(m)] == m.stack[..Floor(m)];
  }

  /** Staying inside the frame keeps the frames nested. */
  lemma WithinNested(m: Machine, m': Machine)
    requires FramesNested(m) && Within(m, m')
    ensures FramesNested(m') && KeepsBelowFloor(m, m')
  {
  }

  /** CLL opens a frame at the height its pop left, which is at or above every open
      frame's start. */
  lemma CallNested(m: Machine)
    requires FramesNested(m) && ExecuteCall(m).Ok?
    ensures FramesNested(ExecuteCall(m).value) && KeepsBelowFloor(m, ExecuteCall(m).value)
  {
    var target := PopWord(m).value;
    var r := ExecuteCall(m).value;
    assert r.frames == m.frames + [Frame(m.pc, target.val, |target.after.stack|)];
    assert r.stack == target.after.stack;
    forall i, j | 0 <= i <= j < |r.frames|
      ensures r.frames[i].stackStart <= r.frames[j].stackStart
    {
      if j == |m.frames| && i < j {
        assert m.frames[i].stackStart <= Floor(m);
      }
    }
  }

  /** RET closes the innermost frame; the stack is not touched and the frame below
      starts no higher. */
  lemma ReturnNested(m: Machine)
    requires FramesNested(m) && ExecuteReturn(m).Ok?
    ensures FramesNested(ExecuteReturn(m).value) && KeepsBelowFloor(m, ExecuteReturn(m).value)
  {
    var r := ExecuteReturn(m).value;
    var n := |m.frames|;
    assert r.frames == m.frames[..n - 1] && r.stack == m.stack;
    forall i, j | 0 <= i <= j < |r.frames|
      ensures r.frames[i].stackStart <= r.frames[j].stackStart
    {
      assert r.frames[i] == m.frames[i] && r.frames[j] == m.frames[j];
    }
    if n >= 2 {
      assert Floor(r) == m.frames[n - 2].stackStart <= Floor(m);
    }
  }

  /** Every opcode keeps the frames nested and leaves the bytes below the current
      frame's start as they were. */
  lemma OpNested(code: seq<Byte>, m: Machine, op: Opcode)
    requires FramesNested(m) && ExecuteOp(code, m, op).Ok?
    ensures FramesNested(ExecuteOp(code, m, op).value)
    ensures KeepsBelowFloor(m, ExecuteOp(code, m, op).value)
  {
    if op == CLL {
      assert ExecuteOp(code, m, op) == ExecuteCall(m);
      CallNested(m);
    } else if op == RET {
      assert ExecuteOp(code, m, op) == ExecuteReturn(m);
      ReturnNested(m);
    } else {
      WithinNested(m, ExecuteOp(code, m, op).value);
    }
  }

  /** The same for one turn of the loop. */
  lemma StepNested(code: seq<Byte>, m: Machine)
    requires FramesNested(m) && Step(code, m).Ok?
    ensures FramesNested(Step(code, m).value) && KeepsBelowFloor(m, Step(code, m).value)
  {
    var fetched := FetchByte(code, m).value;
    OpNested(code, fetched.after, Decode(fetched.val).value);
  }

  /** Along a run from nested frames, every machine reached, including the one before
      a fault, still has nested frames. */
  lemma {:induction false} NestedRun(code: seq<Byte>, m: Machine, fuel: nat)
    requires FramesNested(m)
    ensures var o := Run(code, m, fuel);
      FramesNested(if o.Faulted? then o.before else o.m)
    decreases fuel
  {
    if m.pc < |code| && fuel > 0 {
      assert Run(code, m, fuel) == Advance(code, m, fuel);
      if Step(code, m).Ok? {
        StepNested(code, m);
        NestedRun(code, Step(code, m).value, fuel - 1);
      }
    }
  }

  /** `debug_execute` starts with one frame at 0, so its frames stay nested and no
      step ever touches the bytes below the frame it runs in. */
  lemma DebugExecuteNested(code: seq<Byte>, fuel: nat)
    ensures var o := DebugExecute(code, fuel);
      FramesNested(if o.Faulted? then o.before else o.m)
  {
    NestedRun(code, DebugStart(), fuel);
  }
}
