/** The virtual machine of src/vm.c as the source keeps it: a fixed stack array and its
    stack pointer, the call stack, the program counter and the output stream, all
    updated in place by `execute_byte`.  Every method is proved to do what the
    functions of module Machines say, which is where the properties are proved. */
module VirtualMachines {
  import opened Words
  import opened Results
  import opened Opcodes
  import opened Numerals
  import opened Machines

  class VM {
    /** `vm->program`: the bytes being run. */
    const code: seq<Byte>
    var pc: U64
    /** `stack.storage`, of which the first `sp` bytes are live. */
    const storage: array<Byte>
    var sp: nat
    /** `call_stack.storage[..call_stack.sp]`, innermost frame last. */
    var frames: seq<Frame>
    /** What `printf`/`putc` wrote to standard output. */
    var out: seq<Byte>

    ghost predicate Valid()
      reads this
    {
      storage.Length == MAX_STACK_SIZE && sp <= MAX_STACK_SIZE && |code| < U64_MODULUS
    }

    ghost function Model(): Machine
      reads this, storage
      requires Valid()
    {
      Machine(pc, storage[..sp], frames, out)
    }

    /** The machine is valid and is what `spec` says, or the call failed as `spec` did
        with the output still `printed`: no operation writes before it can fail. */
    ghost predicate Becomes(r: Result<(), Fault>, printed: seq<Byte>, spec: Result<Machine, Fault>)
      reads this, storage
    {
      Valid() &&
      match spec
      case Ok(m) => r.Ok? && Model() == m
      case Err(e) => r == Err(e) && out == printed
    }

    /** The same for a call that also hands back a value. */
    ghost predicate Yields<T>(r: Result<T, Fault>, printed: seq<Byte>, spec: Result<Got<T>, Fault>)
      reads this, storage
    {
      Valid() &&
      match spec
      case Ok(g) => r == Ok(g.val) && Model() == g.after
      case Err(e) => r == Err(e) && out == printed
    }

    /** `VM vm = {0}; vm.program = program;`: no frame, empty stack, `pc` 0. */
    constructor (program: seq<Byte>)
      requires |program| < U64_MODULUS
      ensures Valid() && fresh(storage) && code == program
      ensures Model() == FramelessStart()
    {
      code := program;
      pc := 0;
      storage := new Byte[MAX_STACK_SIZE](_ => 0);
      sp := 0;
      frames := [];
      out := [];
    }

    // ---- Call stack (src/vm.c:5-21) ----

    /** `push_to_call_stack`. */
    method PushFrame(f: Frame) returns (r: Result<(), Fault>)
      requires Valid()
      modifies this
      ensures Becomes(r, old(out), Machines.PushFrame(old(Model()), f))
    {
      if |frames| >= MAX_CALLSTACK_SIZE {
        return Err(CallStackOverflow);
      }
      frames := frames + [f];
      return Ok(());
    }

    /** `pop_from_call_stack`. */
    method PopFrame() returns (r: Result<Frame, Fault>)
      requires Valid()
      modifies this
      ensures Yields(r, old(out), Machines.PopFrame(old(Model())))
    {
      if |frames| == 0 {
        return Err(NoFrame);
      }
      var top := frames[|frames| - 1];
      frames := frames[..|frames| - 1];
      return Ok(top);
    }

    /** `current_stack_frame`, whose frame is only read. */
    method CurrentFrame() returns (r: Result<Frame, Fault>)
      requires Valid()
      ensures r == Machines.CurrentFrame(Model())
    {
      if |frames| == 0 {
        return Err(NoFrame);
      }
      return Ok(frames[|frames| - 1]);
    }

    // ---- Data stack (src/vm.c:23-97) ----

    /** `push_to_stack`. */
    method PushByte(v: Byte) returns (r: Result<(), Fault>)
      requires Valid()
      modifies this, storage
      ensures Becomes(r, old(out), Machines.PushByte(old(Model()), v))
    {
      if sp >= MAX_STACK_SIZE {
        return Err(StackOverflow);
      }
      storage[sp] := v;
      sp := sp + 1;
      return Ok(());
    }

    /** `push_n_to_stack`: `memcpy` of the bytes to the top, after the check
        `sp + n <= MAX_STACK_SIZE`. */
    method PushBytes(bytes: seq<Byte>) returns (r: Result<(), Fault>)
      requires Valid()
      modifies this, storage
      ensures Becomes(r, old(out), Machines.PushBytes(old(Model()), bytes))
    {
      if sp + |bytes| > MAX_STACK_SIZE {
        return Err(StackOverflow);
      }
      forall i | 0 <= i < |bytes| {
        storage[sp + i] := bytes[i];
      }
      assert storage[..sp + |bytes|] == old(storage[..sp]) + bytes;
      sp := sp + |bytes|;
      return Ok(());
    }

    /** `push_u64_to_stack`: the check is `sp + 8 < MAX_STACK_SIZE`, then the eight
        bytes of the word are copied to the top. */
    method PushWord(v: U64) returns (r: Result<(), Fault>)
      requires Valid()
      modifies this, storage
      ensures Becomes(r, old(out), Machines.PushWord(old(Model()), v))
    {
      if sp + WORD_SIZE >= MAX_STACK_SIZE {
        return Err(StackOverflow);
      }
      var bytes := WordBytes(v);
      forall i | 0 <= i < WORD_SIZE {
        storage[sp + i] := bytes[i];
      }
      assert storage[..sp + WORD_SIZE] == old(storage[..sp]) + bytes;
      sp := sp + WORD_SIZE;
      return Ok(());
    }

    /** `pop_n_from_stack`: the frame check exactly as written, on unsigned values,
        then the copy of the `n` top bytes.  A request for more bytes than the stack
        holds that the wrapped check lets through would copy from before the storage
        and is reported as a StackUnderflow. */
    method PopBytes(n: nat) returns (r: Result<seq<Byte>, Fault>)
      requires Valid()
      modifies this
      ensures Yields(r, old(out), Machines.PopBytes(old(Model()), n))
    {
      var frame :- CurrentFrame();
      if !FrameCheckAsWritten(sp, n, frame.stackStart) {
        return Err(OutOfFrame);
      }
      if n > sp {
        return Err(StackUnderflow);
      }
      var bytes := storage[sp - n..sp];
      assert storage[..sp][sp - n..] == bytes && storage[..sp][..sp - n] == storage[..sp - n];
      sp := sp - n;
      return Ok(bytes);
    }

    /** `pop_from_stack`. */
    method PopByte() returns (r: Result<Byte, Fault>)
      requires Valid()
      modifies this
      ensures Yields(r, old(out), Machines.PopByte(old(Model())))
    {
      var bytes :- PopBytes(1);
      return Ok(bytes[0]);
    }

    /** `pop_u64_from_stack`. */
    method PopWord() returns (r: Result<U64, Fault>)
      requires Valid()
      modifies this
      ensures Yields(r, old(out), Machines.PopWord(old(Model())))
    {
      var bytes :- PopBytes(WORD_SIZE);
      return Ok(WordValue(bytes));
    }

    /** `peek_n_from_stack_with_offset`, with the `n`-byte read through the pointer
        it returns. */
    method PeekBytes(offset: nat, n: nat) returns (r: Result<seq<Byte>, Fault>)
      requires Valid()
      ensures r == Machines.PeekBytes(Model(), offset, n)
    {
      var frame :- CurrentFrame();
      if offset < n {
        return Err(ShortPeek);
      }
      if !FrameCheckAsWritten(sp, offset, frame.stackStart) {
        return Err(OutOfFrame);
      }
      if offset > sp {
        return Err(StackUnderflow);
      }
      assert storage[..sp][sp - offset..sp - offset + n] == storage[sp - offset..sp - offset + n];
      return Ok(storage[sp - offset..sp - offset + n]);
    }

    // ---- Operand fetch (src/vm.c:111-121) ----

    /** `get_next_u8_from_program`. */
    method FetchByte() returns (r: Result<Byte, Fault>)
      requires Valid()
      modifies this
      ensures Yields(r, old(out), Machines.FetchByte(code, old(Model())))
    {
      if pc >= |code| {
        return Err(ReadPastProgram);
      }
      var value := code[pc];
      pc := Wrap(pc + 1);
      return Ok(value);
    }

    /** `get_next_u64_from_program`. */
    method FetchWord() returns (r: Result<U64, Fault>)
      requires Valid()
      modifies this
      ensures Yields(r, old(out), Machines.FetchWord(code, old(Model())))
    {
      if pc + WORD_SIZE > |code| {
        return Err(ReadPastProgram);
      }
      var value := WordValue(code[pc..pc + WORD_SIZE]);
      pc := Wrap(pc + WORD_SIZE);
      return Ok(value);
    }

    // ---- Opcodes (src/vm.c:130-509) ----

    /** ADD, SUB, MOD, MUL, DIV. */
    method ExecuteArith(op: Opcode) returns (r: Result<(), Fault>)
      requires Valid() && IsArith(op)
      modifies this, storage
      ensures Becomes(r, old(out), Machines.ExecuteArith(old(Model()), op))
    {
      var a :- PopWord();
      var b :- PopWord();
      var v :- Arith(op, b, a);
      r := PushWord(v);
    }

    /** EQU, LT, GT. */
    method ExecuteComparison(op: Opcode) returns (r: Result<(), Fault>)
      requires Valid() && IsComparison(op)
      modifies this, storage
      ensures Becomes(r, old(out), Machines.ExecuteComparison(old(Model()), op))
    {
      var a :- PopWord();
      var b :- PopWord();
      r := PushByte(Compare(op, b, a));
    }

    /** STR: pushes the position of the string bytes, then the length operand. */
    method ExecuteStr() returns (r: Result<(), Fault>)
      requires Valid()
      modifies this, storage
      ensures Becomes(r, old(out), Machines.ExecuteStr(code, old(Model())))
    {
      var length :- FetchWord();
      var str := pc;
      pc := Wrap(pc + length);
      var pushed :- PushWord(str);
      r := PushWord(length);
    }

    /** PTS: pops the length, then the string position, and prints those bytes. */
    method ExecutePrintString() returns (r: Result<(), Fault>)
      requires Valid()
      modifies this
      ensures Becomes(r, old(out), Machines.ExecutePrintString(code, old(Model())))
    {
      var length :- PopWord();
      var str :- PopWord();
      if length == 0 {
        return Ok(());
      }
      if str + length > |code| {
        return Err(BadStringPointer);
      }
      PrintBytes(str, length);
      return Ok(());
    }

    /** The `putc` loop of PTS: writes `length` program bytes from `start` on. */
    method PrintBytes(start: nat, length: nat)
      requires Valid() && start + length <= |code|
      modifies this
      ensures Valid() && out == old(out) + code[start..start + length]
      ensures pc == old(pc) && sp == old(sp) && frames == old(frames)
    {
      var i := 0;
      while i < length
        invariant 0 <= i <= length && Valid()
        invariant out == old(out) + code[start..start + i]
        invariant pc == old(pc) && sp == old(sp) && frames == old(frames)
      {
        assert code[start..start + i + 1] == code[start..start + i] + [code[start + i]];
        out := out + [code[start + i]];
        i := i + 1;
      }
    }

    /** PTC: pops a byte and prints it. */
    method ExecutePrintChar() returns (r: Result<(), Fault>)
      requires Valid()
      modifies this
      ensures Becomes(r, old(out), Machines.ExecutePrintChar(old(Model())))
    {
      var c :- PopByte();
      out := out + [c];
      return Ok(());
    }

    /** CLL. */
    method ExecuteCall() returns (r: Result<(), Fault>)
      requires Valid()
      modifies this
      ensures Becomes(r, old(out), Machines.ExecuteCall(old(Model())))
    {
      var position := pc;
      var target :- PopWord();
      var sf := Frame(position, target, sp);
      var pushed :- PushFrame(sf);
      pc := target;
      return Ok(());
    }

    /** RET: the stack pointer is left where the callee left it. */
    method ExecuteReturn() returns (r: Result<(), Fault>)
      requires Valid()
      modifies this
      ensures Becomes(r, old(out), Machines.ExecuteReturn(old(Model())))
    {
      var frame :- PopFrame();
      pc := frame.callerSite;
      return Ok(());
    }

    /** JMP. */
    method ExecuteJump() returns (r: Result<(), Fault>)
      requires Valid()
      modifies this
      ensures Becomes(r, old(out), Machines.ExecuteJump(old(Model())))
    {
      var target :- PopWord();
      pc := target;
      return Ok(());
    }

    /** JPT (`onTrue`) and JPF. */
    method ExecuteJumpIf(onTrue: bool) returns (r: Result<(), Fault>)
      requires Valid()
      modifies this
      ensures Becomes(r, old(out), Machines.ExecuteJumpIf(old(Model()), onTrue))
    {
      var target :- PopWord();
      var condition :- PopByte();
      if (condition != 0) == onTrue {
        pc := target;
      }
      return Ok(());
    }

    /** NOT. */
    method ExecuteNot() returns (r: Result<(), Fault>)
      requires Valid()
      modifies this, storage
      ensures Becomes(r, old(out), Machines.ExecuteNot(old(Model())))
    {
      var a :- PopByte();
      r := PushByte(Bool(a == 0));
    }

    /** OR. */
    method ExecuteOr() returns (r: Result<(), Fault>)
      requires Valid()
      modifies this, storage
      ensures Becomes(r, old(out), Machines.ExecuteOr(old(Model())))
    {
      var a :- PopByte();
      var b :- PopByte();
      r := PushByte(Bool(a != 0 || b != 0));
    }

    /** DBG: `printf("%llu", num)`. */
    method ExecuteDebugPrint() returns (r: Result<(), Fault>)
      requires Valid()
      modifies this
      ensures Becomes(r, old(out), Machines.ExecuteDebugPrint(old(Model())))
    {
      var num :- PopWord();
      out := out + Decimal(num);
      return Ok(());
    }

    /** INC: the top word plus one. */
    method ExecuteIncrement() returns (r: Result<(), Fault>)
      requires Valid()
      modifies this, storage
      ensures Becomes(r, old(out), Machines.ExecuteIncrement(old(Model())))
    {
      var value :- PopWord();
      r := PushWord(Wrap(value as int + 1));
    }

    /** DEC. */
    method ExecuteDecrement() returns (r: Result<(), Fault>)
      requires Valid()
      modifies this, storage
      ensures Becomes(r, old(out), Machines.ExecuteDecrement(old(Model())))
    {
      var value :- PopWord();
      r := PushWord(Wrap(value as int - 1));
    }

    /** PSH. */
    method ExecutePush() returns (r: Result<(), Fault>)
      requires Valid()
      modifies this, storage
      ensures Becomes(r, old(out), Machines.ExecutePush(code, old(Model())))
    {
      var value :- FetchWord();
      r := PushWord(value);
    }

    /** PS8. */
    method ExecutePushByte() returns (r: Result<(), Fault>)
      requires Valid()
      modifies this, storage
      ensures Becomes(r, old(out), Machines.ExecutePushByte(code, old(Model())))
    {
      var value :- FetchByte();
      r := PushByte(value);
    }

    /** DUP. */
    method ExecuteDup() returns (r: Result<(), Fault>)
      requires Valid()
      modifies this, storage
      ensures Becomes(r, old(out), Machines.ExecuteDup(old(Model())))
    {
      var value :- PopWord();
      var pushed :- PushWord(value);
      r := PushWord(value);
    }

    /** SWP. */
    method ExecuteSwap() returns (r: Result<(), Fault>)
      requires Valid()
      modifies this, storage
      ensures Becomes(r, old(out), Machines.ExecuteSwap(old(Model())))
    {
      var a :- PopWord();
      var b :- PopWord();
      // two words were just popped, so the first push cannot overflow
      var pushed := PushWord(a);
      r := PushWord(b);
    }

    /** DRP. */
    method ExecuteDrop() returns (r: Result<(), Fault>)
      requires Valid()
      modifies this
      ensures Becomes(r, old(out), Machines.ExecuteDrop(old(Model())))
    {
      var dropped :- PopWord();
      return Ok(());
    }

    /** ROT. */
    method ExecuteRotate() returns (r: Result<(), Fault>)
      requires Valid()
      modifies this, storage
      ensures Becomes(r, old(out), Machines.ExecuteRotate(old(Model())))
    {
      if sp < 3 {
        return Err(ShortStack);
      }
      var a :- PopWord();
      var b :- PopWord();
      var c :- PopWord();
      // three words were just popped, so the first two pushes cannot overflow
      var pushedB := PushWord(b);
      var pushedA := PushWord(a);
      r := PushWord(c);
    }

    /** OVR. */
    method ExecuteOver() returns (r: Result<(), Fault>)
      requires Valid()
      modifies this, storage
      ensures Becomes(r, old(out), Machines.ExecuteOver(old(Model())))
    {
      if sp < 2 {
        return Err(ShortStack);
      }
      var a :- PopWord();
      var b :- PopWord();
      // two words were just popped, so the first push cannot overflow
      var pushedB := PushWord(b);
      var pushedA :- PushWord(a);
      r := PushWord(b);
    }

    /** DRPZ. */
    method ExecuteDropBytes() returns (r: Result<(), Fault>)
      requires Valid()
      modifies this
      ensures Becomes(r, old(out), Machines.ExecuteDropBytes(code, old(Model())))
    {
      var n :- FetchWord();
      var dropped :- PopBytes(n);
      return Ok(());
    }

    /** DUPZ. */
    method ExecuteDupBytes() returns (r: Result<(), Fault>)
      requires Valid()
      modifies this, storage
      ensures Becomes(r, old(out), Machines.ExecuteDupBytes(code, old(Model())))
    {
      var offset :- FetchWord();
      var n :- FetchWord();
      var bytes :- PeekBytes(offset, n);
      r := PushBytes(bytes);
    }

    /** SWPZ. */
    method ExecuteSwapBytes() returns (r: Result<(), Fault>)
      requires Valid()
      modifies this, storage
      ensures Becomes(r, old(out), Machines.ExecuteSwapBytes(code, old(Model())))
    {
      var n :- FetchWord();
      var a :- PopBytes(n);
      var b :- PopBytes(n);
      var pushed :- PushBytes(a);
      r := PushBytes(b);
    }

    /** `execute_byte` (src/vm.c:130-509) on a decoded opcode. */
    method ExecuteOp(op: Opcode) returns (r: Result<(), Fault>)
      requires Valid()
      modifies this, storage
      ensures Becomes(r, old(out), Machines.ExecuteOp(code, old(Model()), op))
    {
      match op
      case NOP => r := Ok(());
      case STR => r := ExecuteStr();
      case PTS => r := ExecutePrintString();
      case PTC => r := ExecutePrintChar();
      case ADD => r := ExecuteArith(op);
      case SUB => r := ExecuteArith(op);
      case MOD => r := ExecuteArith(op);
      case MUL => r := ExecuteArith(op);
      case DIV => r := ExecuteArith(op);
      case CLL => r := ExecuteCall();
      case RET => r := ExecuteReturn();
      case JMP => r := ExecuteJump();
      case JPT => r := ExecuteJumpIf(true);
      case JPF => r := ExecuteJumpIf(false);
      case EQU => r := ExecuteComparison(op);
      case LT => r := ExecuteComparison(op);
      case GT => r := ExecuteComparison(op);
      case NOT => r := ExecuteNot();
      case OR => r := ExecuteOr();
      case DBG => r := ExecuteDebugPrint();
      case EXT => pc := Wrap(|code|); r := Ok(());
      case INC => r := ExecuteIncrement();
      case DEC => r := ExecuteDecrement();
      case PSH => r := ExecutePush();
      case PS8 => r := ExecutePushByte();
      case DUP => r := ExecuteDup();
      case SWP => r := ExecuteSwap();
      case DRP => r := ExecuteDrop();
      case ROT => r := ExecuteRotate();
      case OVR => r := ExecuteOver();
      case DRPZ => r := ExecuteDropBytes();
      case DUPZ => r := ExecuteDupBytes();
      case BKP => r := Ok(());
      case SWPZ => r := ExecuteSwapBytes();
      case TKS => r := Err(NotModelled(TKS));
      case REF => r := Err(NotModelled(REF));
      case RF8 => r := Err(NotModelled(RF8));
      case LDR => r := Err(NotImplemented(LDR));
      case PNT => r := Err(NotImplemented(PNT));
      case LBL => r := Err(NotImplemented(LBL));
    }

    /** `execute_byte` on the raw opcode byte: the `default` case reports a byte that
        names no opcode. */
    method ExecuteByte(b: Byte) returns (r: Result<(), Fault>)
      requires Valid()
      modifies this, storage
      ensures Becomes(r, old(out), Machines.ExecuteByte(code, old(Model()), b))
    {
      match Decode(b)
      case None => r := Err(InvalidOpcode(b));
      case Some(op) => r := ExecuteOp(op);
    }

    /** One turn of the loop of `execute`: fetch the opcode byte at `pc` and execute
        it.  Stated as what it does to a run of `fuel` turns from the current state. */
    method Turn(ghost fuel: nat) returns (r: Result<(), Fault>)
      requires Valid() && pc < |code| && fuel > 0
      modifies this, storage
      ensures Valid()
      ensures r.Ok? ==> Machines.Run(code, old(Model()), fuel) == Machines.Run(code, Model(), fuel - 1)
      ensures r.Err? ==> Machines.Run(code, old(Model()), fuel) == Faulted(r.error, old(Model()))
      ensures r.Err? ==> out == old(out)
    {
      ghost var before := Model();
      var op := FetchByte();
      assert op.Ok?;
      ghost var fetched := Model();
      r := ExecuteByte(op.value);
      RunTurn(code, before, fuel, op.value, fetched);
    }

    /** The loop of `execute` and `debug_execute` (src/vm.c:515-519, 534-539): fetch the
        opcode byte at `pc` and execute it while `pc` is inside the program, for at most
        `fuel` turns.  Yields the fault that ended the run, if any. */
    method Run(fuel: nat) returns (fault: Option<Fault>)
      requires Valid()
      modifies this, storage
      ensures Valid()
      ensures match Machines.Run(code, old(Model()), fuel)
        case Halted(m) => fault == None && Model() == m
        case Stopped(m) => fault == None && Model() == m
        case Faulted(f, m) => fault == Some(f) && out == m.out
    {
      ghost var outcome := Machines.Run(code, Model(), fuel);
      var left := fuel;
      while pc < |code| && left > 0
        invariant Valid()
        invariant outcome == Machines.Run(code, Model(), left)
        decreases left
      {
        ghost var before := Model();
        var executed := Turn(left);
        if executed.Err? {
          assert outcome == Faulted(executed.error, before) && out == before.out;
          return Some(executed.error);
        }
        left := left - 1;
      }
      RunEnds(code, Model(), left);
      return None;
    }
  }

  /** What a run prints and how it ends, for each way a bounded run can end. */
  predicate Reports(o: Outcome, out: seq<Byte>, fault: Option<Fault>) {
    match o
    case Halted(m) => fault == None && out == m.out
    case Stopped(m) => fault == None && out == m.out
    case Faulted(f, m) => fault == Some(f) && out == m.out
  }

  /** `execute` (src/vm.c:511-522): a zeroed VM, so no call frame at all. */
  method Execute(program: seq<Byte>, fuel: nat) returns (out: seq<Byte>, fault: Option<Fault>)
    requires |program| < U64_MODULUS
    ensures Reports(Machines.Execute(program, fuel), out, fault)
  {
    var vm := new VM(program);
    fault := vm.Run(fuel);
    out := vm.out;
  }

  /** `debug_execute` (src/vm.c:524-538) without its console: the global frame
      {0, 0, 0} is pushed before the loop. */
  method DebugExecute(program: seq<Byte>, fuel: nat) returns (out: seq<Byte>, fault: Option<Fault>)
    requires |program| < U64_MODULUS
    ensures Reports(Machines.DebugExecute(program, fuel), out, fault)
  {
    var vm := new VM(program);
    var pushed := vm.PushFrame(Frame(0, 0, 0));
    assert pushed.Ok? && vm.Model() == DebugStart();
    fault := vm.Run(fuel);
    out := vm.out;
  }
}
