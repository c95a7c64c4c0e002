// How a string literal travels from the program builder to the machine: `emit_str`
// (src/program_builder.c:134-142) writes STR, the bytes and a NUL, while STR in the
// machine (src/vm.c:135-147) reads a u64 length operand after the opcode and then skips
// that many bytes.  The two layouts disagree; this module shows the disagreement on the
// code as written and proves that the layout STR expects round-trips through PTS.

module StringLayout {
  import opened Words
  import opened Results
  import opened Opcodes
  import opened CStrings
  import opened Machines
  import opened MachineProperties
  import opened Builders

  // ---- As written ----

  /** The program `emit_str` builds for a string of fewer than seven bytes has fewer than
      eight bytes after STR, so STR's length fetch faults before anything is pushed. */
  lemma EmitStrMisread(s: Key, labels: seq<nat>, m: Machine)
    requires |labels| == LABEL_SLOTS && MarkerFree(s) && |s| < 7 && m.pc == 1
    ensures WellMarked(EmitStr(NewBuilder(), s).code)
    ensures Relocate(EmitStr(NewBuilder(), s).code, labels, 0) == [Encode(STR)] + s + [NUL]
    ensures ExecuteStr([Encode(STR)] + s + [NUL], m) == Err(ReadPastProgram)
  {
    EmitStrRelocates(NewBuilder(), s, labels);
    assert [] + [Encode(STR)] + s + [NUL] == [Encode(STR)] + s + [NUL];
  }

  /** For a string of seven bytes or more, the first eight bytes after STR (for seven,
      the string and its NUL) are taken for the length: STR pushes their little-endian
      value as the length and jumps that far ahead. */
  lemma StrReadsTextAsLength(s: Key, m: Machine)
    requires |s| >= WORD_SIZE - 1 && m.pc == 1 && |s| + 2 < U64_MODULUS
    requires |m.stack| + 2 * WORD_SIZE < MAX_STACK_SIZE
    ensures var code := [Encode(STR)] + s + [NUL];
      var length := WordValue((s + [NUL])[..WORD_SIZE]);
      ExecuteStr(code, m) == Ok(m.(pc := Wrap(1 + WORD_SIZE + length),
        stack := m.stack + WordBytes(1 + WORD_SIZE) + WordBytes(length)))
  {
    var code := [Encode(STR)] + s + [NUL];
    assert code[1..1 + WORD_SIZE] == (s + [NUL])[..WORD_SIZE];
    StrEffect(code, m, WordValue((s + [NUL])[..WORD_SIZE]));
  }

  // ---- Corrected ----

  /** `emit_str` with the layout STR reads: the opcode, the length as a u64 operand and
      the bytes of the string, which is then no longer NUL-terminated. */
  function EmitSizedStr(b: Builder, s: Key): Builder
    requires |s| < U64_MODULUS
  {
    b.(code := b.code + [Encode(STR)] + WordBytes(|s|) + s)
  }

  /** The corrected literal reaches the program unchanged when neither the string nor
      its length holds the marker byte 0xFE. */
  lemma SizedStrRelocates(b: Builder, s: Key, labels: seq<nat>)
    requires |labels| == LABEL_SLOTS && WellMarked(b.code) && |s| < U64_MODULUS
    requires MarkerFree(s) && MarkerFree(WordBytes(|s|))
    ensures WellMarked(EmitSizedStr(b, s).code)
    ensures Relocate(EmitSizedStr(b, s).code, labels, 0) ==
      Relocate(b.code, labels, 0) + [Encode(STR)] + WordBytes(|s|) + s
  {
    var c := b.code + [Encode(STR)];
    RelocatePlainByte(b.code, Encode(STR), labels);
    RelocatePlainTail(c, WordBytes(|s|), labels);
    RelocatePlainTail(c + WordBytes(|s|), s, labels);
  }

  /** The corrected layout round-trips: when the code at `pc` (just past the STR byte)
      holds the length of `s` as a u64 and then `s`, STR skips exactly the string and
      pushes its address and length, and PTS then prints exactly the string and leaves
      the stack as it was before STR. */
  lemma SizedStrPrints(code: seq<Byte>, s: seq<Byte>, m: Machine)
    requires m.pc + WORD_SIZE + |s| <= |code| < U64_MODULUS
    requires code[m.pc..m.pc + WORD_SIZE] == WordBytes(|s|)
    requires code[m.pc + WORD_SIZE..m.pc + WORD_SIZE + |s|] == s
    requires m.frames != [] && Floor(m) <= |m.stack| && |m.stack| + 2 * WORD_SIZE < MAX_STACK_SIZE
    ensures ExecuteStr(code, m) == Ok(m.(pc := m.pc + WORD_SIZE + |s|,
      stack := m.stack + WordBytes(m.pc + WORD_SIZE) + WordBytes(|s|)))
    ensures ExecutePrintString(code, ExecuteStr(code, m).value) ==
      Ok(m.(pc := m.pc + WORD_SIZE + |s|, out := m.out + s))
  {
    var start := m.pc + WORD_SIZE;
    var pushed := m.(pc := start + |s|, stack := m.stack + WordBytes(start) + WordBytes(|s|));
    StrEffect(code, m, |s|);
    assert Wrap(start + |s|) == start + |s|;
    assert ExecuteStr(code, m) == Ok(pushed);
    SizedStrPops(code, s, m, start);
  }

  /** The PTS half of SizedStrPrints: from the machine STR leaves, PTS prints the string
      and drops the two words STR pushed. */
  lemma SizedStrPops(code: seq<Byte>, s: seq<Byte>, m: Machine, start: U64)
    requires start + |s| <= |code| < U64_MODULUS && code[start..start + |s|] == s
    requires m.frames != [] && Floor(m) <= |m.stack|
    ensures ExecutePrintString(code,
        m.(pc := start + |s|, stack := m.stack + WordBytes(start) + WordBytes(|s|))) ==
      Ok(m.(pc := start + |s|, out := m.out + s))
  {
    var pushed := m.(pc := start + |s|, stack := m.stack + WordBytes(start) + WordBytes(|s|));
    PrintStringEffect(code, pushed, m.stack, start, |s|);
    assert pushed.(stack := m.stack, out := pushed.out + s) == m.(pc := start + |s|, out := m.out + s);
  }
}
