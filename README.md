# bytecode_target in Dafny

A model of the core of `bytecode_target`, a small stack-based bytecode virtual machine
written in C, together with its text assembler. The model covers four source files.

- **The virtual machine** (`src/vm.c`). It holds a byte stack of at most 2 × 1024 bytes
  (`#define MB *1024`, so `2 MB` is 2048). It also holds a call stack of at most
  10 × 1024 frames, a program counter, and what the program prints. The model has:
  - the push, pop and peek helpers with their frame bounds checks;
  - the operand fetches;
  - every case of `execute_byte`;
  - the fetch–execute loops of `execute` and `debug_execute`.

  Every `ASSERT` or `ERROR` that ends the process becomes a `Fault`. So do three cases
  the source does not check: a division by zero (the hardware trap ends the process),
  an operand read past the end of the program and a non-empty PTS string that reaches
  outside the program (both undefined behaviour in C). A PTS of length 0 reads nothing,
  so its address is never checked.
- **The support library** (`src/core.c`):
  - the growable `StringBuffer`;
  - the 64-bit FNV-1 hash;
  - the open-addressing `HashMap` that holds the assembler's labels: `find_entry`,
    `insert_hash_map` and `grow_hash_map` with its table of prime capacities;
  - `strbeingswith`.
- **The program builder** (`src/program_builder.c`):
  - the growable instruction byte array;
  - the `emit_*` helpers;
  - label creation and linking;
  - `clone_to_program`, which replaces each `LBL id` marker pair by the label's address,
    corrected for the bytes removed before it.
- **The assembler** (`src/assembler.c`). It works character by character: comments,
  white space, `name:` label definitions, and instruction words. It also reads the
  operands of `PSH`: a `'label` reference or a number read by `strtoull`. It reads the
  string literal of `STR` with its `\n`/`\r` escapes. At the end it calls
  `clone_to_program`.

Each file is modelled in two layers:

1. **Pure functions over values** hold the meaning, and the properties are proved as
   lemmas about them. These are modules `Machines`, `HashTables`, `Builders` and
   `Assembly`, with `Words`, `Numerals`, `Opcodes`, `CStrings`, `Fnv` and `Growth`
   beneath them. Modules `MachineProperties` and `AssemblyProperties` hold lemmas.
2. **Classes that update fields and arrays in place**, as the C code does. These are
   `VirtualMachines.VM`, `HashMaps.HashMap`, `StringBuffers.StringBuffer`,
   `ProgramBuilders.InstructionArray`, `ProgramBuilders.ProgramBuilder` and
   `Assemblers.Assembler`. Each method is proved to leave exactly the state the
   matching function describes.

Behaviours of the code that the model keeps as written:

- **Hash map probing.** `insert_hash_map` advances `index` while it probes but never
  moves `bucket`. So a home bucket that holds a different key always ends in the fatal
  "Could not find a valid bucket" error. `find_entry` returns the home bucket whenever
  it is taken, whatever key it holds. Two label names with the same home bucket
  therefore share one label.
- **`EQU`** compares `(u8) a` with `b`: the cast applies to `a` only.
- **`push_u64_to_stack`** uses a strict `<`. So the last eight bytes of the stack can
  hold a word pushed byte by byte but not one pushed as a word.
- **The first value of an `execute` run.** `execute` starts with an empty call stack,
  so the first pop or peek of such a run faults. `debug_execute` pushes the global
  frame first.
- **The character after a `:`** is skipped unread (`current_pos` is incremented twice).
- **Numeric `PSH` operands** are emitted as one byte. `emit_push` takes a `u8`, so the
  `u64` operand is truncated.

The opcode table in `include/opcodes.h` lacks most of the opcodes `vm.c` dispatches on.
It also gives `DBG` and `PCH` the same value. The model therefore uses one fixed
injective byte encoding (module `Opcodes`). That encoding keeps the values the header
does give, and `LBL` is 0xFE.

## Model

| member | source | states |
|---|---|---|
| Machines.PushFrame | src/vm.c:5-9 | succeeds iff fewer than MAX_CALLSTACK_SIZE frames are live; the frame is appended; otherwise CallStackOverflow |
| Machines.PopFrame | src/vm.c:11-15 | succeeds iff a frame is live; returns the innermost frame and removes exactly it; otherwise NoFrame |
| Machines.CurrentFrame | src/vm.c:17-21 | the innermost frame iff one is live; otherwise NoFrame |
| Machines.PushByte | src/vm.c:23-27 | succeeds iff the stack is below MAX_STACK_SIZE; the byte is appended; bytes below the frame floor are kept; otherwise StackOverflow |
| Machines.PushBytes | src/vm.c:29-38 | succeeds iff sp + n <= MAX_STACK_SIZE; the bytes are appended in order; otherwise StackOverflow |
| Machines.PushWord | src/vm.c:40-45 | succeeds iff sp + 8 < MAX_STACK_SIZE (strict, as written); appends the word's eight little-endian bytes |
| Machines.PopBytes | src/vm.c:55-69 | succeeds iff a frame is live and n bytes can be taken without going below the frame's stack start; returns the top n bytes in order and removes them; otherwise NoFrame, OutOfFrame or StackUnderflow |
| Machines.PopByte | src/vm.c:47-53 | the same for one byte: returns the top byte and removes it |
| Machines.PopWord | src/vm.c:71-86 | the same for eight bytes: returns the word whose little-endian image is the top eight bytes |
| Machines.FrameCheckAsWritten | src/vm.c:59 | definition of the unsigned test `sp - n >= stack_start`, whose subtraction wraps modulo 2^64; MachineProperties.FrameCheckAgrees and FrameCheckAsWrittenOnUnderflow state when it agrees with the intended check and when it does not |
| Machines.PopFault | src/vm.c:55-69 | a refused pop or peek ends in OutOfFrame or StackUnderflow, and in StackUnderflow only when more bytes are asked for than the stack holds |
| Machines.PeekBytes | src/vm.c:88-101 | succeeds iff a frame is live, n <= offset and the frame check passes for offset; returns the n bytes starting offset below the top, leaving the stack unchanged; otherwise NoFrame, ShortPeek or a frame fault |
| Machines.FetchByte | src/vm.c:118-121 | succeeds iff pc is inside the program; returns code[pc] and advances pc by one |
| Machines.FetchWord | src/vm.c:111-116 | succeeds iff eight bytes remain; returns the word whose image is code[pc..pc+8] and advances pc by eight |
| Machines.Arith | src/vm.c:167-208 | ADD/SUB/MUL/DIV/MOD on u64 fail exactly for DIV and MOD by zero |
| Machines.Compare | src/vm.c:294-324 | EQU, LT and GT push 0 or 1 |
| Machines.ExecuteOp | src/vm.c:130-509 | every opcode other than CLL and RET that succeeds leaves the frames and the bytes below the current frame untouched |
| Machines.ExecuteStr | src/vm.c:135-147 | a successful STR keeps the frames and the bytes below the frame |
| Machines.ExecutePrintString | src/vm.c:148-159 | PTS faults with NoFrame on an empty call stack; on success it stays within the frame |
| Machines.ExecutePrintChar | src/vm.c:160-166 | PTC faults with NoFrame on an empty call stack; on success it stays within the frame |
| Machines.ExecuteCall | src/vm.c:209-227 | CLL faults with NoFrame on an empty call stack |
| Machines.ExecuteReturn | src/vm.c:228-238 | RET faults with NoFrame on an empty call stack |
| Machines.ExecuteJump | src/vm.c:259-265 | JMP faults with NoFrame on an empty call stack; on success it stays within the frame |
| Machines.ExecuteJumpIf | src/vm.c:266-293 | JPT/JPF fault with NoFrame on an empty call stack; on success they stay within the frame |
| Machines.ExecuteNot | src/vm.c:325-334 | NOT faults with NoFrame on an empty call stack; on success it stays within the frame |
| Machines.ExecuteOr | src/vm.c:335-345 | OR faults with NoFrame on an empty call stack; on success it stays within the frame |
| Machines.ExecuteDebugPrint | src/vm.c:362-366 | DBG faults with NoFrame on an empty call stack; on success it stays within the frame |
| Machines.ExecuteIncrement | src/vm.c:373-379 | INC faults with NoFrame on an empty call stack; on success it stays within the frame |
| Machines.ExecuteDecrement | src/vm.c:380-386 | DEC faults with NoFrame on an empty call stack; on success it stays within the frame |
| Machines.ExecutePush | src/vm.c:387-394 | a successful PSH stays within the frame |
| Machines.ExecutePushByte | src/vm.c:395-402 | a successful PS8 stays within the frame |
| Machines.ExecuteDup | src/vm.c:403-410 | DUP faults with NoFrame on an empty call stack; on success it stays within the frame |
| Machines.ExecuteSwap | src/vm.c:411-420 | SWP faults with NoFrame on an empty call stack; on success it stays within the frame |
| Machines.ExecuteDrop | src/vm.c:421-424 | DRP faults with NoFrame on an empty call stack; on success it stays within the frame |
| Machines.ExecuteRotate | src/vm.c:425-437 | a successful ROT stays within the frame |
| Machines.ExecuteOver | src/vm.c:438-449 | a successful OVR stays within the frame |
| Machines.ExecuteDropBytes | src/vm.c:451-458 | a successful DRPZ stays within the frame |
| Machines.ExecuteDupBytes | src/vm.c:459-468 | a successful DUPZ stays within the frame |
| Machines.ExecuteSwapBytes | src/vm.c:485-498 | a successful SWPZ stays within the frame |
| Machines.ExecuteArith | src/vm.c:167-208 | arithmetic faults with NoFrame on an empty call stack; on success it stays within the frame |
| Machines.ExecuteComparison | src/vm.c:294-324 | comparisons fault with NoFrame on an empty call stack; on success they stay within the frame |
| Machines.RunTurn | src/vm.c:515-519 | one turn of the loop: a successful execute_byte continues the run from the new state with one turn less; a fault ends the run with the state before the turn |
| Machines.RunEnds | src/vm.c:515 | the loop stops exactly when pc reaches the program size (or the turn budget is spent) |
| Machines.ExecuteByte | src/vm.c:130-509 | a byte that is the encoding of an opcode executes that opcode; a byte that encodes none faults InvalidOpcode |
| Machines.Step | src/vm.c:515-518 | with pc outside the program the fetch faults ReadPastProgram; inside, the byte at pc is executed with pc already past it |
| Machines.Run | src/vm.c:515-519 | a run halts only once pc has reached the program size, is stopped only with pc inside, and ends in a fault only from a step at a pc inside the program that fails with that very fault |
| Machines.Execute | src/vm.c:511-522 | the run of `execute` from a zeroed VM ends as Run says; an empty program halts at once with nothing printed (MachineProperties.ExecuteIsFrameless gives its frameless end) |
| Machines.DebugExecute | src/vm.c:524-560 | the run of `debug_execute` from the global frame ends as Run says; an empty program halts at once (MachineProperties.DebugExecuteNested gives its frame nesting) |
| MachineProperties.PopWordOf | src/vm.c:71-86 | popping a word from `s + WordBytes(a)` inside the frame yields a and leaves s |
| MachineProperties.PopByteOf | src/vm.c:47-53 | popping from `s + [c]` yields c and leaves s |
| MachineProperties.PopBytesOf | src/vm.c:55-69 | popping n bytes from `s + bytes` yields bytes and leaves s |
| MachineProperties.PushPopWord | src/vm.c:40-86 | pushing a word and popping it back restores the machine and returns the word |
| MachineProperties.PushPopByte | src/vm.c:23-53 | pushing a byte and popping it back restores the machine and returns the byte |
| MachineProperties.LastWordDoesNotFit | src/vm.c:41 | with 8 bytes free, push_u64 refuses a word that push_n accepts (the strict bound) |
| MachineProperties.FrameCheckAdmitsUnderflow | src/vm.c:74-75 | with sp = 3 and stack start 0, the unsigned check `sp - 8 >= 0` passes though fewer than 8 bytes exist; the model reports StackUnderflow |
| MachineProperties.FrameCheckAsWrittenOnUnderflow | src/vm.c:59 | when n > sp the written check passes iff floor <= 2^64 + sp - n |
| MachineProperties.FrameCheckAgrees | src/vm.c:59 | when n <= sp the written check and the intended one agree |
| MachineProperties.ArithEffect | src/vm.c:167-208 | on a stack `s, b, a` an arithmetic op leaves `s, b op a`, or DivisionByZero |
| MachineProperties.ComparisonEffect | src/vm.c:294-324 | on `s, b, a` a comparison leaves `s` plus one 0/1 byte |
| MachineProperties.EqualityCastsTopOnly | src/vm.c:294-301 | EQU casts only the top word to u8: a second word of 256 or more is never equal, bytes compare as `==`, and 0 under 256 is equal while 256 under 0 is not |
| MachineProperties.DupEffect | src/vm.c:403-410 | DUP turns `s, a` into `s, a, a` |
| MachineProperties.SwapEffect | src/vm.c:411-420 | SWP turns `s, b, a` into `s, a, b` |
| MachineProperties.SwapOnFullStack | src/vm.c:411-420 | SWP on a full stack faults on the re-push although it would fit |
| MachineProperties.RotateEffect | src/vm.c:425-437 | ROT turns `s, c, b, a` into `s, b, a, c` |
| MachineProperties.OverEffect | src/vm.c:438-449 | OVR turns `s, b, a` into `s, b, a, b` |
| MachineProperties.IncrementEffect | src/vm.c:373-379 | INC turns `s, a` into `s, a + 1` mod 2^64 |
| MachineProperties.DecrementEffect | src/vm.c:380-386 | DEC turns `s, a` into `s, a - 1` mod 2^64 |
| MachineProperties.DropEffect | src/vm.c:421-424 | DRP turns `s, a` into `s` |
| MachineProperties.JumpEffect | src/vm.c:259-265 | JMP pops the target and sets pc to it |
| MachineProperties.NotEffect | src/vm.c:325-334 | NOT replaces the top byte by 1 if it was 0, else by 0 |
| MachineProperties.OrEffect | src/vm.c:335-345 | OR replaces the two top bytes by 1 if either is nonzero, else by 0 |
| MachineProperties.PrintCharEffect | src/vm.c:160-166 | PTC pops the top byte and appends it to the output |
| MachineProperties.DebugPrintEffect | src/vm.c:362-366 | DBG pops the top word and appends its decimal text to the output |
| MachineProperties.PrintStringEffect | src/vm.c:148-159 | PTS pops the length, then the address, and prints exactly those program bytes |
| MachineProperties.EmptyPrintIgnoresAddress | src/vm.c:151-157 | PTS of length 0 pops both words and prints nothing, whatever the address, even one outside the program |
| MachineProperties.StrEffect | src/vm.c:135-147 | STR reads the length operand, pushes the string's address then its length, and skips the string |
| MachineProperties.PushOperandEffect | src/vm.c:387-394 | PSH pushes the eight operand bytes that follow it and skips them |
| MachineProperties.PushByteOperandEffect | src/vm.c:395-402 | PS8 pushes the operand byte that follows it and skips it |
| MachineProperties.DupBytesEffect | src/vm.c:459-468 | DUPZ off n pushes a copy of the n bytes starting off below the top |
| MachineProperties.SwapBytesEffect | src/vm.c:485-498 | SWPZ n exchanges the top two n-byte blocks |
| MachineProperties.DropBytesEffect | src/vm.c:451-458 | DRPZ n removes the top n bytes |
| MachineProperties.ConditionalJumpEffect | src/vm.c:266-293 | JPT jumps iff the condition byte is non-zero, JPF iff it is zero; both pop target and condition |
| MachineProperties.CallThenReturn | src/vm.c:209-238 | CLL pushes a frame recording the call site and the stack start and jumps; a later RET with that frame innermost restores the frames and returns to the call site |
| MachineProperties.ReturnWithoutFrame | src/vm.c:231 | RET with no frame faults |
| MachineProperties.UnmodelledOpFaults | src/vm.c:499-507 | LDR, PNT and LBL hit the default case (not implemented); TKS, REF and RF8 fault as unmodelled |
| MachineProperties.ExitHalts | src/vm.c:367-372 | EXT ends the run with pc = program size |
| MachineProperties.FramelessStep | src/vm.c:511-513 | a successful step from an empty call stack keeps it empty |
| MachineProperties.FramelessRun | src/vm.c:511-519 | a run from an empty call stack never gains a frame |
| MachineProperties.ExecuteIsFrameless | src/vm.c:511-522 | under execute, every pop fails with NoFrame at every point of the run |
| MachineProperties.PopKeepsBelowFloor | src/vm.c:55-69 | a successful pop never changes bytes below the frame floor |
| MachineProperties.PushKeepsBelowFloor | src/vm.c:29-38 | a push never changes bytes below the frame floor |
| MachineProperties.WithinNested | src/vm.c:47-101 | a change confined to the current frame keeps the frames' stack starts nested |
| MachineProperties.CallNested | src/vm.c:209-227 | CLL keeps the stack starts nested and the bytes below the floor |
| MachineProperties.ReturnNested | src/vm.c:228-238 | RET keeps the stack starts nested |
| MachineProperties.OpNested | src/vm.c:130-509 | every opcode keeps the stack starts nested |
| MachineProperties.StepNested | src/vm.c:515-519 | every turn keeps the stack starts nested |
| MachineProperties.NestedRun | src/vm.c:515-519 | a whole run keeps the stack starts nested |
| MachineProperties.DebugExecuteNested | src/vm.c:524-557 | a debug run keeps the stack starts nested throughout |
| VirtualMachines.VM.constructor | src/vm.c:512-513 | a zeroed VM over the program: no frames, empty stack, pc 0 |
| VirtualMachines.VM.PushFrame | src/vm.c:5-9 | the in-place call stack changes as Machines.PushFrame says |
| VirtualMachines.VM.PopFrame | src/vm.c:11-15 | returns and removes what Machines.PopFrame says |
| VirtualMachines.VM.CurrentFrame | src/vm.c:17-21 | returns what Machines.CurrentFrame says |
| VirtualMachines.VM.PushByte | src/vm.c:23-27 | writes the storage array as Machines.PushByte says |
| VirtualMachines.VM.PushBytes | src/vm.c:29-38 | copies into the storage array as Machines.PushBytes says |
| VirtualMachines.VM.PushWord | src/vm.c:40-45 | writes eight bytes as Machines.PushWord says |
| VirtualMachines.VM.PopBytes | src/vm.c:55-69 | copies out and lowers sp as Machines.PopBytes says |
| VirtualMachines.VM.PopByte | src/vm.c:47-53 | as Machines.PopByte |
| VirtualMachines.VM.PopWord | src/vm.c:71-86 | as Machines.PopWord |
| VirtualMachines.VM.PeekBytes | src/vm.c:88-101 | as Machines.PeekBytes, without changing state |
| VirtualMachines.VM.FetchByte | src/vm.c:118-121 | as Machines.FetchByte |
| VirtualMachines.VM.FetchWord | src/vm.c:111-116 | as Machines.FetchWord |
| VirtualMachines.VM.ExecuteArith | src/vm.c:167-208 | as Machines.ExecuteArith |
| VirtualMachines.VM.ExecuteComparison | src/vm.c:294-324 | as Machines.ExecuteComparison |
| VirtualMachines.VM.ExecuteStr | src/vm.c:135-147 | as Machines.ExecuteStr |
| VirtualMachines.VM.ExecutePrintString | src/vm.c:148-159 | as Machines.ExecutePrintString |
| VirtualMachines.VM.PrintBytes | src/vm.c:155-157 | the putc loop appends exactly code[start..start+length] to the output and changes nothing else |
| VirtualMachines.VM.ExecutePrintChar | src/vm.c:160-166 | as Machines.ExecutePrintChar |
| VirtualMachines.VM.ExecuteCall | src/vm.c:209-227 | as Machines.ExecuteCall |
| VirtualMachines.VM.ExecuteReturn | src/vm.c:228-238 | as Machines.ExecuteReturn |
| VirtualMachines.VM.ExecuteJump | src/vm.c:259-265 | as Machines.ExecuteJump |
| VirtualMachines.VM.ExecuteJumpIf | src/vm.c:266-293 | as Machines.ExecuteJumpIf |
| VirtualMachines.VM.ExecuteNot | src/vm.c:325-334 | as Machines.ExecuteNot |
| VirtualMachines.VM.ExecuteOr | src/vm.c:335-345 | as Machines.ExecuteOr |
| VirtualMachines.VM.ExecuteDebugPrint | src/vm.c:362-366 | as Machines.ExecuteDebugPrint |
| VirtualMachines.VM.ExecuteIncrement | src/vm.c:373-379 | as Machines.ExecuteIncrement |
| VirtualMachines.VM.ExecuteDecrement | src/vm.c:380-386 | as Machines.ExecuteDecrement |
| VirtualMachines.VM.ExecutePush | src/vm.c:387-394 | as Machines.ExecutePush |
| VirtualMachines.VM.ExecutePushByte | src/vm.c:395-402 | as Machines.ExecutePushByte |
| VirtualMachines.VM.ExecuteDup | src/vm.c:403-410 | as Machines.ExecuteDup |
| VirtualMachines.VM.ExecuteSwap | src/vm.c:411-420 | as Machines.ExecuteSwap |
| VirtualMachines.VM.ExecuteDrop | src/vm.c:421-424 | as Machines.ExecuteDrop |
| VirtualMachines.VM.ExecuteRotate | src/vm.c:425-437 | as Machines.ExecuteRotate |
| VirtualMachines.VM.ExecuteOver | src/vm.c:438-449 | as Machines.ExecuteOver |
| VirtualMachines.VM.ExecuteDropBytes | src/vm.c:451-458 | as Machines.ExecuteDropBytes |
| VirtualMachines.VM.ExecuteDupBytes | src/vm.c:459-468 | as Machines.ExecuteDupBytes |
| VirtualMachines.VM.ExecuteSwapBytes | src/vm.c:485-498 | as Machines.ExecuteSwapBytes |
| VirtualMachines.VM.ExecuteOp | src/vm.c:130-509 | the in-place execute_byte on a decoded opcode leaves the state Machines.ExecuteOp gives, or its fault |
| VirtualMachines.VM.ExecuteByte | src/vm.c:499-507 | a byte that names no opcode is InvalidOpcode; otherwise as ExecuteOp |
| VirtualMachines.VM.Turn | src/vm.c:515-519 | one loop turn: the remaining run from the new state equals the run from the old state with one turn less, or the run faults with the turn's fault and nothing has been printed during the failed turn |
| VirtualMachines.VM.Run | src/vm.c:515-519 | the loop ends in the state Machines.Run gives, or with its fault and with exactly the output printed before the failing turn, which the `exit` of ASSERT/ERROR flushes |
| VirtualMachines.Execute | src/vm.c:511-522 | prints what the frameless run prints, up to the fault when there is one, and reports that fault |
| VirtualMachines.DebugExecute | src/vm.c:524-538 | prints what the run from the global frame {0,0,0} prints, up to the fault when there is one, and reports that fault |
| Words.Wrap | src/vm.c:114 | reduction to u64 is the identity in range and adds 2^64 to a negative difference |
| Words.LeBytes | src/vm.c:43 | n little-endian bytes |
| Words.LeValueBound | src/vm.c:83 | n bytes denote a value below 256^n |
| Words.LeValueOfBytes | src/vm.c:43 | reading back n written bytes yields the value mod 256^n |
| Words.LeBytesOfValue | src/vm.c:83 | writing back what was read yields the same bytes |
| Words.WordBytes | src/vm.c:43 | the eight bytes memcpy stores for a u64, which read back to it |
| Words.WordValue | src/vm.c:83 | the u64 memcpy reads from eight bytes, whose image is those bytes |
| Words.WordRoundTrip | src/vm.c:40-86 | a pushed word pops back unchanged at the byte level |
| Opcodes.Encode | include/opcodes.h:6-23 | every opcode's byte decodes back to it; only LBL is stored as 0xFE |
| Opcodes.DecodeEncode | src/opcodes.c:4-11 | a byte that names an opcode is that opcode's encoding (decoding is injective) |
| Opcodes.Decode | src/opcodes.c:4-11 | definition of the byte-to-opcode map, none for a byte that names no opcode; Opcodes.Encode and Opcodes.DecodeEncode state that it inverts the encoding |
| Numerals.Decimal | src/vm.c:364 | the `%llu` text of n: non-empty decimal digits, without a leading zero unless n is 0 |
| Numerals.DigitValueOfChar | src/assembler.c:58 | the value strtoull gives a digit character is the digit it stands for, in every base up to 36 |
| Numerals.Digits | src/assembler.c:58 | the spelling of n in a base is non-empty and made only of digits of that base |
| Numerals.SkipLeadingSpaces | src/assembler.c:58 | strtoull's leading white space is removed |
| Numerals.AccumulateDigitsThenEnd | src/assembler.c:58 | reading one more digit multiplies by the base and adds it |
| Numerals.AccumulateDecimal | src/assembler.c:58 | reading the decimal text of n in base 10 gives n |
| Numerals.StrToULLOfDecimal | src/assembler.c:58 | strtoull(·, NULL, 0) reads the `%llu` text DBG prints back to the same u64 |
| Numerals.Accumulate | src/assembler.c:58 | definition of the positional reading of the longest digit prefix; AccumulateDigits and AccumulateStopsAtNonDigit state what it reads |
| Numerals.Magnitude | src/assembler.c:58 | definition of base detection (16 after `0x`, 8 after a leading `0`, else 10); MagnitudeOfDecimal and the StrToULLOf lemmas state what it reads |
| Numerals.StrToULL | src/assembler.c:58 | definition of `strtoull(s, NULL, 0)`; the StrToULL lemmas in this table state its behaviour |
| Numerals.AccumulateDigits | src/assembler.c:58 | the digits of n in any base from 2 to 36 read back to n |
| Numerals.AccumulateStopsAtNonDigit | src/assembler.c:58 | the conversion stops at the first character that is not a digit of the base |
| Numerals.MagnitudeOfDecimal | src/assembler.c:58 | the decimal text of n, followed by a non-digit or nothing, has magnitude n (a lone `0` read as octal gives 0) |
| Numerals.StrToULLOfDecimalPrefix | src/assembler.c:58 | a decimal run followed by a non-digit reads as the run: `12abc` gives 12 |
| Numerals.StrToULLOfNegative | src/assembler.c:58 | `-` before the digits of n gives -n modulo 2^64 |
| Numerals.StrToULLOfHex | src/assembler.c:58 | `0x` followed by the hexadecimal digits of a word reads as that word |
| Numerals.StrToULLOfOctal | src/assembler.c:58 | `0` followed by the octal digits of a word reads as that word |
| Numerals.StrToULLSaturates | src/assembler.c:58 | a magnitude of 2^64 or more gives 2^64 - 1, with no sign, `-` or `+` |
| Numerals.SkipLeadingSpacesSuffix | src/assembler.c:58 | what is left after the leading white space is the text's own tail |
| Numerals.StrToULLWithoutDigits | src/assembler.c:58 | a text with no decimal digit reads as 0 |
| CStrings.CStrIsPrefix | src/core.c:53 | the C string a buffer holds is the prefix of the buffer ending at its first NUL, or the whole buffer when it has none |
| CStrings.CStrOfKey | src/core.c:227-229 | a NUL-free key is its own C string |
| CStrings.CStrOfTerminated | src/core.c:74 | a key followed by NUL and anything denotes the key |
| Fnv.ShiftSumIsPrimeMultiply | src/core.c:166-167 | the shift-and-add sum equals multiplication by 0x100000001b3 mod 2^64 |
| Fnv.RoundIsFnv1Step | src/core.c:165-171 | each loop round is the FNV-1 step (multiply by the FNV prime, then xor the octet) |
| Fnv.HashString | src/core.c:157-175 | the loop returns the FNV-1 hash of the key's bytes from offset basis 0xcbf29ce484222325 |
| Fnv.Fnv1 | src/core.c:157-175 | definition of the hash: the offset basis, then one round per byte; Fnv.RoundIsFnv1Step states that each round is the FNV-1 step |
| Growth.DoubleUntilIsLeast | src/core.c:67-70 | the doubling loop ends with a power-of-two multiple of the start that fits the need, and below twice the need when it doubled |
| Growth.DoubleUntil | src/core.c:62-77 | definition of the capacity the doubling loop settles on; Growth.DoubleUntilIsLeast states that it fits the need and is the least doubling that does |
| StringBuffers.StringBuffer.constructor | src/core.c:41-45 | an empty buffer of capacity initial + 1 |
| StringBuffers.StringBuffer.GrowToFit | src/core.c:62-77 | contents unchanged; capacity kept if it fits count + n + 1, else doubled until it does |
| StringBuffers.StringBuffer.Append | src/core.c:52-60 | the contents become old contents + s, with room for the terminator |
| StringBuffers.StringBuffer.AppendChar | src/core.c:79-84 | the contents become old contents + [c]; the array is kept when it had room |
| StringBuffers.StringBuffer.Text | src/core.c:53 | the C string the buffer denotes |
| StringBuffers.StrNCmpDiffersPrefix | src/core.c:88 | strncmp(s, p, strlen(p)) is non-zero iff p is not a prefix of s |
| StringBuffers.StrBeginsWith | src/core.c:86-89 | as written: true iff str does NOT begin with prefix |
| StringBuffers.BeginsWith | src/core.c:86-89 | corrected: true iff str begins with prefix |
| StringBuffers.StrBeginsWithInverted | src/core.c:88 | "ab" with prefix "a" gives false as written and true corrected; "b" gives the reverse |
| HashTables.PrimesAscending | src/core.c:5-32 | 26 capacities, strictly increasing |
| HashTables.Home | src/core.c:178-180 | the home bucket `hash % capacity` is a valid index |
| HashTables.InitialTable | src/core.c:102-113 | 53 empty buckets, prime index 1, count 0; no key is found |
| HashTables.NextCapacity | src/core.c:130-135 | the next capacity (prime from the table, else 2c + 1) is larger |
| HashTables.Find | src/core.c:177-192 | some bucket iff the key's home bucket is taken, and then exactly the home bucket |
| HashTables.Grow | src/core.c:126-154 | a successful grow gives a larger well-sized table |
| HashTables.Reinsert | src/core.c:144-151 | reinsertion keeps the table well-sized and no smaller |
| HashTables.Insert | src/core.c:194-239 | a successful insert gives a well-sized table, no smaller, and a valid bucket index |
| HashTables.SetValue | src/assembler.c:134 | writing through the bucket pointer keeps size, prime index and count |
| HashTables.StoreLookup | src/core.c:230-232 | storing at the home bucket maps the key to the value and no other key changes |
| HashTables.InsertLookup | src/core.c:194-239 | after insert the key maps to the value at its home bucket, other keys are unchanged, and count grows for a new key |
| HashTables.GrowLookup | src/core.c:126-154 | growing preserves every key's value, reaches at least the next capacity, and count grows by the reinserted entries (it is never reset) |
| HashTables.ReinsertLookup | src/core.c:144-151 | the reinsertion loop carries every old key's value into the new table |
| HashTables.InsertWithoutGrowth | src/core.c:196-236 | below the load limit: a free home bucket takes a new key (count + 1); a present key is updated in place; a home bucket held by another key is ProbeExhausted |
| HashTables.InsertGrowsWhenLoaded | src/core.c:195-198 | above 3/4 load, insert grows first and fails if growing fails |
| HashTables.FindAndLookup | src/core.c:177-192 | a stored key is found at its home bucket with its value; a missing home bucket means the key is absent; a found bucket holds the key iff it is stored |
| HashMaps.HashMap.constructor | src/core.c:102-113 | the array is the initial table |
| HashMaps.HashMap.Find | src/core.c:177-192 | returns HashTables.Find of the array |
| HashMaps.HashMap.Grow | src/core.c:126-154 | replaces the array by HashTables.Grow's table, or fails as it does |
| HashMaps.HashMap.Insert | src/core.c:194-239 | the probe loop leaves the array as HashTables.Insert says and returns the bucket index, or its error |
| HashMaps.HashMap.SetValue | src/assembler.c:134 | the array becomes HashTables.SetValue's |
| Builders.NewBuilder | src/program_builder.c:63-65 | no code and label counter 0 |
| Builders.EmitByte | src/program_builder.c:117-119 | appends exactly the byte; the label table and the label counter are unchanged |
| Builders.EmitInstruction | src/program_builder.c:121-123 | appends exactly the opcode's byte |
| Builders.EmitNop | src/program_builder.c:125-127 | appends exactly NOP |
| Builders.EmitPush | src/program_builder.c:129-132 | definition: PSH, then the operand byte; Builders.EmitPushRelocates and ProgramBuilders.ProgramBuilder.EmitPush state what it appends and what reaches the program |
| Builders.EmitPushLabel | src/assembler.c:136 | appends PSH, LBL and the label id |
| Builders.EmitStr | src/program_builder.c:134-142 | appends STR, the bytes of the string and its NUL |
| Builders.EmitJump | src/program_builder.c:144-149 | appends PSH, LBL, the target id and JMP |
| Builders.EmitJumpIfTrue | src/program_builder.c:151-156 | appends PSH, LBL, the target id and JPT |
| Builders.CreateLabel | src/program_builder.c:159-161 | returns the current id and advances the counter by one modulo 256; code and labels are unchanged |
| Builders.LinkLabel | src/program_builder.c:163-165 | labels[id] becomes the current code size; code and every other slot are unchanged |
| Builders.CreateLabels | src/program_builder.c:159-161 | n successive create_label calls return n ids |
| Builders.CreateLabelsCount | src/program_builder.c:159-161 | n creations return ids current + i mod 256 and advance the counter by n mod 256, nothing else changes |
| Builders.CreateLabelsDistinct | src/program_builder.c:159-161 | up to 256 labels created in a row are pairwise distinct |
| Builders.CreateLabelsWrap | src/program_builder.c:160 | the 257th label repeats the first (u8 counter) |
| Builders.LabelAddress | src/program_builder.c:89-91 | the emitted byte plus the removed bytes is the label slot mod 256 |
| Builders.WellMarked | src/program_builder.c:84-100 | definition: every LBL byte has a label index after it; ProgramBuilders.ProgramBuilder.MarkersComplete decides it |
| Builders.Markers | src/program_builder.c:84-100 | definition of the number of marker pairs; Builders.RelocateSize bounds it by half the code |
| Builders.Relocate | src/program_builder.c:71-115 | definition of the bytes clone_to_program writes; RelocateSize, RelocateMarker, RelocateAppend and RelocateWithoutMarkers state them |
| Builders.RelocateAt | src/program_builder.c:84-100 | one loop turn: an LBL byte emits the corrected address and skips two bytes; any other byte is copied |
| Builders.RelocateSize | src/program_builder.c:84-102 | the program is the builder size minus one byte per marker pair |
| Builders.RelocateWithoutMarkers | src/program_builder.c:84-100 | code without LBL bytes is copied unchanged |
| Builders.RelocateAppend | src/program_builder.c:84-100 | relocating a concatenation is relocating each part, with the second part's offset increased by the first part's removed bytes |
| Builders.RelocatePlainTail | src/program_builder.c:97-99 | a marker-free tail is copied through |
| Builders.RelocatePlainByte | src/program_builder.c:97-99 | a non-LBL byte is copied and adds no marker |
| Builders.RelocateMarker | src/program_builder.c:86-96 | an `LBL t` pair becomes one byte: labels[t] minus the removed bytes |
| Builders.RelocateMarkedPair | src/program_builder.c:86-96 | appending `LBL t` appends that label's corrected address |
| Builders.EmitInstructionRelocates | src/program_builder.c:121-123 | emitting an instruction appends its byte to the final program |
| Builders.EmitPushRelocates | src/program_builder.c:129-132 | emit_push appends PSH and the byte to the final program |
| Builders.EmitStrRelocates | src/program_builder.c:134-142 | emit_str appends STR, the string and NUL to the final program |
| StringLayout.EmitStrMisread | src/program_builder.c:134-142 | as written, the program emit_str builds for a string shorter than seven bytes is STR, the string and NUL, and STR's length fetch there faults ReadPastProgram |
| StringLayout.StrReadsTextAsLength | src/vm.c:135-147 | as written, for a string of seven bytes or more STR takes the first eight bytes after it (for seven bytes, the string and its NUL) for the length, pushes that value and jumps that far |
| StringLayout.SizedStrRelocates | src/program_builder.c:134-142 | the corrected emit_str (STR, the u64 length, the bytes) reaches the program unchanged when neither string nor length holds 0xFE |
| StringLayout.SizedStrPrints | src/vm.c:135-159 | when the code after STR holds the length of a string as a u64 and then the string itself (the corrected layout), STR skips exactly the string and pushes its address and length, and PTS then prints exactly the string and restores the stack |
| Builders.PushOfMarkerByte | src/program_builder.c:86-96 | a PSH operand equal to 0xFE is mistaken for a marker and swallows the next byte |
| Builders.EmitJumpRelocates | src/program_builder.c:144-149 | emit_jump appends PSH, the target's corrected address and JMP |
| Builders.EmitJumpIfTrueRelocates | src/program_builder.c:151-156 | emit_jump_if_true appends PSH, the corrected address and JPT |
| Builders.EmitPushLabelRelocates | src/assembler.c:136 | emit_push_label appends PSH and the label's corrected address |
| Builders.RelocateByteAndMarker | src/program_builder.c:84-100 | a byte followed by `LBL t` relocates to that byte and t's corrected address |
| ProgramBuilders.InstructionArray.constructor | src/program_builder.c:12-19 | empty, with the requested capacity |
| ProgramBuilders.InstructionArray.GrowToFit | src/program_builder.c:21-38 | contents unchanged; capacity kept if n more fit, else doubled until capacity >= old capacity + n |
| ProgramBuilders.InstructionArray.Insert | src/program_builder.c:40-55 | the element is appended; a full array doubles first |
| ProgramBuilders.InstructionArray.CopyString | src/program_builder.c:139-141 | the string and its NUL are appended in place |
| ProgramBuilders.InstructionArray.ToArray | src/program_builder.c:103-105 | a fresh array with exactly the contents |
| ProgramBuilders.ProgramBuilder.constructor | src/program_builder.c:63-65 | a builder with capacity 4 whose model is NewBuilder |
| ProgramBuilders.ProgramBuilder.EmitByte | src/program_builder.c:117-119 | the code gains the byte |
| ProgramBuilders.ProgramBuilder.EmitInstruction | src/program_builder.c:121-123 | the code gains the opcode byte |
| ProgramBuilders.ProgramBuilder.EmitNop | src/program_builder.c:125-127 | the code gains NOP |
| ProgramBuilders.ProgramBuilder.EmitPush | src/program_builder.c:129-132 | the code gains PSH and the byte |
| ProgramBuilders.ProgramBuilder.EmitPushLabel | src/assembler.c:136 | the code gains PSH, LBL and the id |
| ProgramBuilders.ProgramBuilder.EmitStr | src/program_builder.c:134-142 | the code gains STR, the string and NUL |
| ProgramBuilders.ProgramBuilder.EmitJump | src/program_builder.c:144-149 | the code gains PSH, LBL, target, JMP |
| ProgramBuilders.ProgramBuilder.EmitJumpIfTrue | src/program_builder.c:151-156 | the code gains PSH, LBL, target, JPT |
| ProgramBuilders.ProgramBuilder.CreateLabel | src/program_builder.c:159-161 | returns the counter and advances it mod 256 |
| ProgramBuilders.ProgramBuilder.LinkLabel | src/program_builder.c:163-165 | as Builders.LinkLabel |
| ProgramBuilders.ProgramBuilder.RelocateNext | src/program_builder.c:85-99 | one loop turn produces the next program byte and the width consumed |
| ProgramBuilders.ProgramBuilder.RelocateInto | src/program_builder.c:82-100 | the temporary array ends holding Relocate of the builder code |
| ProgramBuilders.ProgramBuilder.MarkersComplete | src/program_builder.c:88 | whether every LBL byte has an id byte after it |
| ProgramBuilders.ProgramBuilder.CloneToProgram | src/program_builder.c:71-115 | a fresh program holding the relocated code; each `LBL id` pair becomes one address byte, so the program is one byte shorter per pair |
| Assembly.IgnoreSpaces | src/assembler.c:16-23 | advances only over white space, stopping at the first non-space or the end |
| Assembly.WordEnd | src/assembler.c:28-33 | the word loop stops at the first space or the end |
| Assembly.Word | src/assembler.c:28-33 | definition of the characters the word loop appends; AssemblyProperties.WordAt and WordEndSpan state them |
| Assembly.CharAt | src/assembler.c:168 | definition of the character read at the cursor, NUL past the text |
| Assembly.LabelLiteral | src/assembler.c:25-46 | reads to the word end; a label already found leaves the table unchanged; a new one is inserted or fails with a table error |
| Assembly.U64Literal | src/assembler.c:48-64 | the cursor ends at the word end |
| Assembly.Unescape | src/assembler.c:75-92 | fails exactly on a backslash at the end of the text |
| Assembly.StringBody | src/assembler.c:74-103 | on success the cursor lies just past a closing quote; the only failures are an escape at the end and an unclosed literal |
| Assembly.StringLiteral | src/assembler.c:66-105 | not starting with a quote is exactly NotAString; otherwise the cursor passes both quotes |
| Assembly.Push | src/assembler.c:117-143 | skips spaces; on success the cursor moves forward; only the label table can fail |
| Assembly.PushOperand | src/assembler.c:121-141 | a quote selects a label operand, anything else a number |
| Assembly.PushLabel | src/assembler.c:121-136 | on success the cursor moves forward; only the label table can fail |
| Assembly.PushFound | src/assembler.c:128-136 | emits the label push and leaves the cursor at the word end |
| Assembly.PushNumber | src/assembler.c:137-140 | a numeric operand never fails |
| Assembly.Str | src/assembler.c:144-152 | on success the cursor moves forward; failures are the string-literal errors |
| Assembly.ResolveInstruction | src/assembler.c:107-158 | unknown instruction exactly when the name is not an opcode |
| Assembly.Comment | src/assembler.c:169-176 | skips to the next newline (returned as the current character) or the end |
| Assembly.NextChar | src/assembler.c:168-176 | a non-`#` character is returned where it stands |
| Assembly.DefineLabel | src/assembler.c:189-203 | defining a label never emits code |
| Assembly.EndToken | src/assembler.c:178-188 | a space with an empty buffer is skipped; otherwise the buffer is resolved and cleared |
| Assembly.EndLabel | src/assembler.c:189-208 | a colon defines the label, emits nothing and moves the cursor two characters |
| Assembly.Tick | src/assembler.c:167-212 | one loop turn moves the cursor forward |
| Assembly.Scan | src/assembler.c:167-216 | the whole loop keeps the state well-formed |
| Assembly.Start | src/assembler.c:161-164 | the scan starts from a fresh builder |
| Assembly.Assemble | src/assembler.c:160-226 | definition: the scan, then relocation, LoneMarker for a dangling marker; Assemblers.Assembler.Assemble is proved to compute it |
| AssemblyProperties.IgnoreSpacesSkipsBlanks | src/assembler.c:16-23 | every skipped character is white space |
| AssemblyProperties.WordEndSpan | src/assembler.c:28-33 | every character of a word is non-space |
| AssemblyProperties.CommentSpan | src/assembler.c:170-175 | a comment holds no newline |
| AssemblyProperties.CommentToNewline | src/assembler.c:169-188 | a comment ending in a newline acts as that newline: it ends the pending token |
| AssemblyProperties.CommentAtEnd | src/assembler.c:169-216 | a comment reaching the end appends its last character to the token, which is then resolved |
| AssemblyProperties.PlainStep | src/assembler.c:211 | an ordinary character is appended to the token |
| AssemblyProperties.TokenAccumulates | src/assembler.c:211 | a run of ordinary characters is appended to the token in order |
| AssemblyProperties.TokenPending | src/assembler.c:211 | from an empty buffer, an ordinary word becomes the pending token |
| AssemblyProperties.SpacesSkipped | src/assembler.c:178-183 | white space with no pending token changes nothing |
| AssemblyProperties.SeparatorResolves | src/assembler.c:178-188 | white space after a token resolves it and the scan continues past the space with an empty buffer |
| AssemblyProperties.PendingAtEnd | src/assembler.c:214-216 | a token pending at the end is resolved |
| AssemblyProperties.ColonSkipsNext | src/assembler.c:189-190 | the character after a colon is never read |
| AssemblyProperties.SetValueLookup | src/assembler.c:134 | writing a value into a taken bucket rebinds exactly that bucket's key |
| AssemblyProperties.KnownLabelDefined | src/assembler.c:199-203 | defining a label already in the table links its stored id |
| AssemblyProperties.KnownLabelReferenced | src/assembler.c:129-136 | referencing a label already in the table emits a push of its stored id |
| AssemblyProperties.NewLabelDefined | src/assembler.c:195-203 | defining a new label creates the next id, binds the name to it and links it, other names unchanged; it fails iff the insert fails |
| AssemblyProperties.NewLabelReferenced | src/assembler.c:131-136 | referencing a new label creates the next id, binds the name to it and pushes it; it fails iff the insert fails |
| AssemblyProperties.BoundNameKeepsId | src/assembler.c:192-200 | a name bound to an id keeps being found with that id |
| AssemblyProperties.DefineThenReference | src/assembler.c:121-203 | a label defined before use is pushed with the id whose slot holds its position |
| AssemblyProperties.ReferenceThenDefine | src/assembler.c:121-203 | a label used before definition is later linked under the same id |
| AssemblyProperties.WordEndOf | src/assembler.c:28-33 | a run of n non-spaces followed by a space or the end is a word of length n |
| AssemblyProperties.NumericWord | src/assembler.c:137-140 | a number word emits PSH with strtoull of the word truncated to a byte |
| AssemblyProperties.WordAt | src/assembler.c:28-33 | a spelled word followed by a space is read as exactly that word |
| AssemblyProperties.PushDecimal | src/assembler.c:137-140 | the decimal text of n emits PSH with n mod 256 |
| AssemblyProperties.NumberOperand | src/assembler.c:118-140 | an operand not starting with a quote is read as a number after the spaces |
| AssemblyProperties.EscapeByte | src/assembler.c:76-92 | a character's escaped spelling has one or two bytes |
| AssemblyProperties.Escaped | src/assembler.c:76-92 | escaping never shortens a string |
| AssemblyProperties.StringBodyStep | src/assembler.c:74-95 | one escaped character is read back to itself |
| AssemblyProperties.StringBodyOfEscaped | src/assembler.c:74-103 | an escaped string followed by a quote is read back to the string |
| AssemblyProperties.StringLiteralRoundTrip | src/assembler.c:66-105 | a quoted escaped string is read back to the original, with the cursor past the closing quote |
| AssemblyProperties.UnclosedLiteral | src/assembler.c:97-99 | a string with no closing quote is an error |
| AssemblyProperties.PlainInstruction | src/assembler.c:153-155 | an opcode other than PSH and STR emits exactly its byte |
| Assemblers.Assembler.constructor | src/assembler.c:8-10 | cursor 0 and the initial label table |
| Assemblers.Assembler.IgnoreSpaces | src/assembler.c:16-23 | the cursor becomes Assembly.IgnoreSpaces |
| Assemblers.Assembler.ReadWord | src/assembler.c:26-33 | a fresh buffer holds the word; the cursor is at its end |
| Assemblers.Assembler.LabelLiteral | src/assembler.c:25-46 | as Assembly.LabelLiteral, with the bucket and whether it existed |
| Assemblers.Assembler.U64Literal | src/assembler.c:48-64 | as Assembly.U64Literal |
| Assemblers.Assembler.StringLiteral | src/assembler.c:66-105 | a fresh buffer holds what Assembly.StringLiteral reads, or its error |
| Assemblers.Assembler.PushLabel | src/assembler.c:121-136 | as Assembly.PushLabel after the quote |
| Assemblers.Assembler.PushFound | src/assembler.c:128-136 | as Assembly.PushFound |
| Assemblers.Assembler.PushNumber | src/assembler.c:137-140 | as Assembly.PushNumber |
| Assemblers.Assembler.Push | src/assembler.c:117-143 | as Assembly.Push |
| Assemblers.Assembler.PushOperand | src/assembler.c:119-141 | as Assembly.PushOperand |
| Assemblers.Assembler.Str | src/assembler.c:144-152 | as Assembly.Str |
| Assemblers.Assembler.ResolveInstruction | src/assembler.c:107-158 | as Assembly.ResolveInstruction |
| Assemblers.Assembler.NextChar | src/assembler.c:168-176 | as Assembly.NextChar |
| Assemblers.Assembler.DefineLabel | src/assembler.c:192-203 | as Assembly.DefineLabel |
| Assemblers.Assembler.EndToken | src/assembler.c:178-188 | as Assembly.EndToken, with a fresh buffer when one was resolved |
| Assemblers.Assembler.EndLabel | src/assembler.c:189-208 | as Assembly.EndLabel |
| Assemblers.Assembler.Tick | src/assembler.c:167-212 | one loop turn as Assembly.Tick |
| Assemblers.Assembler.Assemble | src/assembler.c:160-226 | the program array is Assembly.Assemble's result, or its error; when the scan succeeds, the cursor and the label table end where Assembly.Scan ends |

## Left out

- Console output other than the program's own: `printf` traces in `find_entry` and
  `insert_hash_map`, `VERBOSE_LOG`/`LOG`, `debug_stack`, `debug_print_hash_map` and
  `debug_print_program_builder`. BKP's dump of the stacks is left out too; BKP changes
  no state.
- `debug_execute`'s console interaction after BKP (`getchar`, quitting on `q`) is left
  out, because it reads the terminal. The model runs such a program without stopping.
- Reading the input file in `assemble_file`, and `free_*`/`destroy_vm`, are left out.
  They do I/O or release memory, which the model does not represent.
- `malloc`/`realloc` failures of the string buffer and the instruction array are left
  out. They end the process. The hash map's `calloc` failure is kept (`AllocationFailure`),
  because it bounds the growth recursion.
- TKS, REF and RF8 fault as `NotModelled`. REF and RF8 dereference arbitrary addresses.
  TKS's loop counts `i` upwards from the top frame and runs out of bounds.
- STR pushes a host pointer to the string. The model pushes the
  string's offset in the program instead, and PTS prints from that offset.
- `include/program.h` declares the program as `u64 *`, while `clone_to_program` fills it
  byte by byte. The model uses the byte layout that is written.
- Machines.ExecuteOp: its own contract states only the frame discipline (and the NoFrame fault where it holds). What every opcode computes is stated by the `*Effect` lemmas of MachineProperties for a stack of the right shape.
- Machines.ExecuteStr: its own contract states only the frame discipline (and the NoFrame fault where it holds). What STR computes is stated by MachineProperties.StrEffect for a stack of the right shape.
- Machines.ExecutePrintString: its own contract states only the frame discipline (and the NoFrame fault where it holds). What PTS computes is stated by MachineProperties.PrintStringEffect for a stack of the right shape.
- Machines.FetchByte, Machines.FetchWord, Machines.ExecutePrintString: `get_next_u8_from_program`, `get_next_u64_from_program` and PTS read the program with no bound check. Reading past it is undefined behaviour in C. The model stops with ReadPastProgram, or with BadStringPointer for a PTS of at least one byte, instead of reading whatever lies beyond. For example, a program whose last byte is PS8 faults here, while the source pushes an unknown byte.
- VirtualMachines.VM.FetchByte: inherits the ReadPastProgram fault of Machines.FetchByte, as above.
- VirtualMachines.VM.FetchWord: inherits the ReadPastProgram fault of Machines.FetchWord, as above.
- VirtualMachines.VM.ExecutePrintString: inherits the BadStringPointer fault of Machines.ExecutePrintString for a non-empty string, as above.
- Machines.Arith: DIV and MOD by zero fault with DivisionByZero. The source divides unchecked, and on its targets the trap ends the process.
- Machines.ExecutePrintChar: its own contract states only the frame discipline (and the NoFrame fault where it holds). What PTC computes is stated by MachineProperties.PrintCharEffect for a stack of the right shape.
- Machines.ExecuteCall: its own contract states only the frame discipline (and the NoFrame fault where it holds). What CLL computes is stated by MachineProperties.CallThenReturn for a stack of the right shape.
- Machines.ExecuteReturn: its own contract states only the frame discipline (and the NoFrame fault where it holds). What RET computes is stated by MachineProperties.CallThenReturn for a stack of the right shape.
- Machines.ExecuteJump: its own contract states only the frame discipline (and the NoFrame fault where it holds). What JMP computes is stated by MachineProperties.JumpEffect for a stack of the right shape.
- Machines.ExecuteJumpIf: its own contract states only the frame discipline (and the NoFrame fault where it holds). What JPT and JPF compute is stated by MachineProperties.ConditionalJumpEffect for a stack of the right shape.
- Machines.ExecuteNot: its own contract states only the frame discipline (and the NoFrame fault where it holds). What NOT computes is stated by MachineProperties.NotEffect for a stack of the right shape.
- Machines.ExecuteOr: its own contract states only the frame discipline (and the NoFrame fault where it holds). What OR computes is stated by MachineProperties.OrEffect for a stack of the right shape.
- Machines.ExecuteDebugPrint: its own contract states only the frame discipline (and the NoFrame fault where it holds). What DBG computes is stated by MachineProperties.DebugPrintEffect for a stack of the right shape.
- Machines.ExecuteIncrement: its own contract states only the frame discipline (and the NoFrame fault where it holds). What INC computes is stated by MachineProperties.IncrementEffect for a stack of the right shape.
- Machines.ExecuteDecrement: its own contract states only the frame discipline (and the NoFrame fault where it holds). What DEC computes is stated by MachineProperties.DecrementEffect for a stack of the right shape.
- Machines.ExecutePush: its own contract states only the frame discipline (and the NoFrame fault where it holds). What PSH computes is stated by MachineProperties.PushOperandEffect for a stack of the right shape.
- Machines.ExecutePushByte: its own contract states only the frame discipline (and the NoFrame fault where it holds). What PS8 computes is stated by MachineProperties.PushByteOperandEffect for a stack of the right shape.
- Machines.ExecuteDup: its own contract states only the frame discipline (and the NoFrame fault where it holds). What DUP computes is stated by MachineProperties.DupEffect for a stack of the right shape.
- Machines.ExecuteSwap: its own contract states only the frame discipline (and the NoFrame fault where it holds). What SWP computes is stated by MachineProperties.SwapEffect for a stack of the right shape.
- Machines.ExecuteDrop: its own contract states only the frame discipline (and the NoFrame fault where it holds). What DRP computes is stated by MachineProperties.DropEffect for a stack of the right shape.
- Machines.ExecuteRotate: its own contract states only the frame discipline (and the NoFrame fault where it holds). What ROT computes is stated by MachineProperties.RotateEffect for a stack of the right shape.
- Machines.ExecuteOver: its own contract states only the frame discipline (and the NoFrame fault where it holds). What OVR computes is stated by MachineProperties.OverEffect for a stack of the right shape.
- Machines.ExecuteDropBytes: its own contract states only the frame discipline (and the NoFrame fault where it holds). What DRPZ computes is stated by MachineProperties.DropBytesEffect for a stack of the right shape.
- Machines.ExecuteDupBytes: its own contract states only the frame discipline (and the NoFrame fault where it holds). What DUPZ computes is stated by MachineProperties.DupBytesEffect for a stack of the right shape.
- Machines.ExecuteSwapBytes: its own contract states only the frame discipline (and the NoFrame fault where it holds). What SWPZ computes is stated by MachineProperties.SwapBytesEffect for a stack of the right shape.
- Machines.ExecuteArith: its own contract states only the frame discipline (and the NoFrame fault where it holds). What ADD, SUB, MUL, DIV and MOD compute is stated by MachineProperties.ArithEffect for a stack of the right shape.
- Machines.ExecuteComparison: its own contract states only the frame discipline (and the NoFrame fault where it holds). What EQU, LT and GT compute is stated by MachineProperties.ComparisonEffect for a stack of the right shape.
- Machines.RunEnds: loops are bounded by a turn budget (`fuel`) so that runs are
  functions. A run that exhausts it ends `Stopped`, which the source has no notion of.
- The `u64` words on the stack and in the program are little-endian, as on the hosts
  the code targets.
- Assembly.CharAt: the assembler reads `code[count]` and beyond; the model reads NUL
  there, as a NUL-terminated file buffer would.
- Assembly.ResolveInstruction: `string_to_opcode` is not in the repository's files. It is
  a parameter `names` of the assembler.
- Assembly.Assemble: `clone_to_program` reads the byte after an LBL byte without a bound
  check. A builder array ending in a lone marker is reported as `LoneMarker` rather than
  reading past the array.
- Assembly.PushLabel: `emit_push_label` is declared but its body is not in the
  repository's files. It is modelled as emitting PSH, LBL and the id truncated to a byte
  (`LowByte`), like `emit_jump`.
- AssemblyProperties.ColonSkipsNext: stated for one loop turn only. The whole-scan
  consequence follows from it and Assembly.Scan.
- HashTables.Insert: the load-factor test `1.0 * count / capacity > 0.75` is stored in
  a `float`. The model compares exactly, as `4 * count > 3 * capacity`. For tables above
  about 2^23 buckets, rounding to `float` can make the source grow one insertion later.
- `strbeingswith` has no caller in the repository.
- Builders.EmitStr: kept as written (STR, the bytes, NUL), and the assembler model uses it as src/assembler.c:148 does. The layout STR actually reads is StringLayout.EmitSizedStr (see "## Findings"); the assembler model does not switch to it, so an assembled `str` still faults or misreads when run.

## Findings

| source | as written | input that shows it | evidently intended | confidence | as-written member | corrected member |
|---|---|---|---|---|---|---|
| src/vm.c:59 | `stack->sp - n >= current_frame->stack_start` on `usize`; the same test at lines 50, 75 and 94 | sp = 3, n = 8, stack start 0: `3 - 8` wraps to 2^64 - 5, the test passes and `memcpy` reads 5 bytes before the stack storage | refuse the pop unless n <= sp and sp - n >= stack start | not executed | MachineProperties.FrameCheckAdmitsUnderflow | Machines.PopBytes |
| src/core.c:86-89 | `strbeingswith` returns the `strncmp` result as a `bool` | `strbeingswith("ab", "a")` is false | true exactly when `str` begins with `prefix` | not executed | StringBuffers.StrBeginsWithInverted | StringBuffers.BeginsWith |
| src/program_builder.c:134-142 | `emit_str` writes STR, the bytes and a NUL, while STR (src/vm.c:137) reads a u64 length operand right after the opcode | `str "Fizz"` assembles to STR F i z z NUL: fewer than eight bytes follow STR, so the fetch reads past the program; from seven characters on, the first eight bytes after STR (the string, and for seven its NUL) become the length | emit STR, the length as a u64, then the bytes | not executed | StringLayout.EmitStrMisread | StringLayout.SizedStrPrints |
