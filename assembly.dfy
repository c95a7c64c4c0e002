/** The assembler of src/assembler.c as functions of the source text and the cursor
    `current_pos`: comments, `name:` label definitions, `psh 'name` label references,
    numeric `psh` operands, `str "..."` literals with escapes and plain mnemonics,
    driving the label table of module HashTables and the builder of module Builders. */
module Assembly {
  import opened Words
  import opened CStrings
  import opened Results
  import opened Opcodes
  import opened Numerals
  import opened HashTables
  import opened Builders

  const HASH: Byte := 35        // '#'
  const QUOTE: Byte := 34       // '"'
  const APOSTROPHE: Byte := 39  // '\''
  const COLON: Byte := 58       // ':'
  const BACKSLASH: Byte := 92   // '\\'
  const LOWER_N: Byte := 110    // 'n'
  const LOWER_R: Byte := 114    // 'r'

  /** `string_to_opcode`, declared but not defined in the repository: the opcode a
      mnemonic names, if any. */
  type OpcodeNames = Key -> Option<Opcode>

  /** The assembler's fatal errors. */
  datatype AsmError =
    | UnknownInstruction(name: Key)  // "Invalid instruction" (src/assembler.c:110)
    | NotAString                     // no opening quote (src/assembler.c:67-69)
    | EscapeAtEnd                    // a backslash as the last character (src/assembler.c:78)
    | UnclosedString                 // the literal runs past the text (src/assembler.c:97-99)
    | LabelTable(error: MapError)    // a fatal error of `insert_hash_map`
    | LoneMarker                     // `clone_to_program` would read past the emitted bytes

  /** What the assembler changes as it goes: `current_pos`, the label table and the
      program builder `assemble` drives. */
  datatype Asm = Asm(pos: nat, labels: Table, builder: Builder)

  predicate Good(s: Asm) {
    WellSized(s.labels) && ValidBuilder(s.builder)
  }

  /** `code[i]`, where the text is followed by its NUL terminator (and, beyond it, by
      NULs too). */
  function CharAt(code: seq<Byte>, i: nat): Byte {
    if i < |code| then code[i] else NUL
  }

  /** `assemble_ignore_spaces` (src/assembler.c:16-23): the first position at or after
      `pos` that is not white space, stopping at the end of the text. */
  function IgnoreSpaces(code: seq<Byte>, pos: nat): (r: nat)
    ensures r >= pos && (r > pos ==> r <= |code|)
    ensures r < |code| ==> !IsSpace(code[r])
    decreases |code| - pos
  {
    if pos < |code| && IsSpace(code[pos]) then IgnoreSpaces(code, pos + 1) else pos
  }

  /** Where the word-reading loop shared by `assemble_label_literal` and
      `assemble_u64_literal` (src/assembler.c:28-33, 51-56) stops: the first white
      space at or after `pos`, or the end of the text. */
  function WordEnd(code: seq<Byte>, pos: nat): (end: nat)
    ensures end >= pos && (end > pos ==> end <= |code|)
    ensures end < |code| ==> IsSpace(code[end])
    decreases |code| - pos
  {
    if pos < |code| && !IsSpace(code[pos]) then WordEnd(code, pos + 1) else pos
  }

  /** The characters that loop appends to its buffer. */
  function Word(code: seq<Byte>, pos: nat): seq<Byte> {
    var end := WordEnd(code, pos);
    if end > pos then code[pos..end] else []
  }

  /** What `assemble_label_literal` leaves behind: the cursor, the table, the index of
      the bucket it returns a pointer to, and `*existing`. */
  datatype Labelled = Labelled(pos: nat, labels: Table, bucket: nat, existing: bool)

  /** `assemble_label_literal` (src/assembler.c:25-46): reads a word and looks its C
      string up with `find_entry`; a hit is reported as existing, a miss inserts the
      name with value 0. */
  function LabelLiteral(code: seq<Byte>, pos: nat, t: Table): (r: Result<Labelled, AsmError>)
    requires WellSized(t)
    ensures r.Ok? ==> WellSized(r.value.labels) && r.value.bucket < |r.value.labels.buckets|
    ensures r.Ok? ==> r.value.pos == WordEnd(code, pos)
    ensures r.Ok? && r.value.existing ==> r.value.labels == t
    ensures r.Err? ==> r.error.LabelTable?
  {
    var end := WordEnd(code, pos);
    var name := CStr(Word(code, pos));
    match Find(t, name)
    case Some(i) => Ok(Labelled(end, t, i, true))
    case None =>
      match Insert(t, name, 0)
      case Err(e) => Err(LabelTable(e))
      case Ok((t', i)) => Ok(Labelled(end, t', i, false))
  }

  /** `assemble_u64_literal` (src/assembler.c:48-64): a word converted by
      `strtoull(.., NULL, 0)`, and the cursor after it. */
  function U64Literal(code: seq<Byte>, pos: nat): (r: (U64, nat))
    ensures r.1 == WordEnd(code, pos)
  {
    (StrToULL(CStr(Word(code, pos))), WordEnd(code, pos))
  }

  /** One character of a string literal read at `pos` (src/assembler.c:75-92): a
      backslash escapes the next character, mapping `n` to LF and `r` to CR and
      keeping any other; yields the character and the position it was read at. */
  function Unescape(code: seq<Byte>, pos: nat): (r: Result<(Byte, nat), AsmError>)
    requires pos <= |code|
    ensures r.Ok? ==> pos <= r.value.1 <= |code|
    ensures r.Err? <==> CharAt(code, pos) == BACKSLASH && pos + 1 >= |code|
  {
    if CharAt(code, pos) != BACKSLASH then Ok((CharAt(code, pos), pos))
    else if pos + 1 >= |code| then Err(EscapeAtEnd)
    else
      var escaped := code[pos + 1];
      Ok((if escaped == LOWER_N then LF else if escaped == LOWER_R then CR else escaped, pos + 1))
  }

  /** The loop of `assemble_string_literal` (src/assembler.c:74-103) at `pos`, with
      `acc` appended so far: a closing quote ends it; a character read at `count` (the
      terminator) takes the cursor past `count`, which is fatal.  On success the
      literal's bytes and the cursor after the closing quote, which lies in the text. */
  function StringBody(code: seq<Byte>, pos: nat, acc: seq<Byte>): (r: Result<(seq<Byte>, nat), AsmError>)
    requires pos <= |code|
    ensures r.Ok? ==> pos < r.value.1 <= |code| && code[r.value.1 - 1] == QUOTE
    ensures r.Err? ==> r.error == EscapeAtEnd || r.error == UnclosedString
    decreases |code| - pos
  {
    if CharAt(code, pos) == QUOTE then Ok((acc, pos + 1))
    else
      var read :- Unescape(code, pos);
      if read.1 + 1 > |code| then Err(UnclosedString)
      else StringBody(code, read.1 + 1, acc + [read.0])
  }

  /** `assemble_string_literal` (src/assembler.c:66-105): an opening quote, then the
      body. */
  function StringLiteral(code: seq<Byte>, pos: nat): (r: Result<(seq<Byte>, nat), AsmError>)
    ensures r.Ok? ==> pos + 1 < r.value.1 <= |code|
    ensures CharAt(code, pos) != QUOTE <==> r == Err(NotAString)
    ensures r.Err? ==> r.error == NotAString || r.error == EscapeAtEnd || r.error == UnclosedString
  {
    if CharAt(code, pos) != QUOTE then Err(NotAString)
    else StringBody(code, pos + 1, [])
  }

  /** The PSH case of `resolve_instruction` (src/assembler.c:117-143).  After white
      space, a `'` introduces a label reference: an existing entry's value is pushed;
      otherwise a fresh label id is created, written into the new entry and pushed.
      Anything else is a numeric operand.  `emit_push` and `emit_push_label` take a
      byte, so the operand is truncated to its low 8 bits. */
  function Push(code: seq<Byte>, s: Asm): (r: Result<Asm, AsmError>)
    requires Good(s)
    ensures r.Ok? ==> Good(r.value) && r.value.pos >= s.pos
    ensures r.Err? ==> r.error.LabelTable?
  {
    PushOperand(code, s.(pos := IgnoreSpaces(code, s.pos)))
  }

  /** The operand of PSH read at its first character: a `'` introduces a label
      reference, anything else is numeric. */
  function PushOperand(code: seq<Byte>, s: Asm): (r: Result<Asm, AsmError>)
    requires Good(s)
    ensures r.Ok? ==> Good(r.value) && r.value.pos >= s.pos
    ensures r.Err? ==> r.error.LabelTable?
  {
    if CharAt(code, s.pos) == APOSTROPHE then PushLabel(code, s.(pos := s.pos + 1))
    else PushNumber(code, s)
  }

  /** A `u64` passed where the callee declares a `u8` parameter: its low 8 bits. */
  function LowByte(v: U64): Byte {
    v % 256
  }

  /** A label reference whose name starts at the cursor (src/assembler.c:123-136). */
  function PushLabel(code: seq<Byte>, s: Asm): (r: Result<Asm, AsmError>)
    requires Good(s)
    ensures r.Ok? ==> Good(r.value) && r.value.pos >= s.pos
    ensures r.Err? ==> r.error.LabelTable?
  {
    var l :- LabelLiteral(code, s.pos, s.labels);
    Ok(PushFound(l, s))
  }

  /** The push of the label `assemble_label_literal` has looked up
      (src/assembler.c:128-136): an existing entry's value, or else a new label id,
      which is written into the fresh entry. */
  function PushFound(l: Labelled, s: Asm): (r: Asm)
    requires Good(s) && WellSized(l.labels) && l.bucket < |l.labels.buckets|
    ensures Good(r) && r.pos == l.pos
  {
    if l.existing then
      Asm(l.pos, l.labels, EmitPushLabel(s.builder, LowByte(l.labels.buckets[l.bucket].value)))
    else
      var created := CreateLabel(s.builder);
      Asm(l.pos, SetValue(l.labels, l.bucket, created.0), EmitPushLabel(created.1, created.0))
  }

  /** A numeric operand starting at the cursor (src/assembler.c:137-140). */
  function PushNumber(code: seq<Byte>, s: Asm): (r: Result<Asm, AsmError>)
    requires Good(s)
    ensures r.Ok? && Good(r.value) && r.value.pos >= s.pos
  {
    var literal := U64Literal(code, s.pos);
    Ok(Asm(literal.1, s.labels, EmitPush(s.builder, LowByte(literal.0))))
  }

  /** The STR case of `resolve_instruction` (src/assembler.c:144-152): after white
      space a string literal, emitted as the C string its buffer holds. */
  function Str(code: seq<Byte>, s: Asm): (r: Result<Asm, AsmError>)
    requires Good(s)
    ensures r.Ok? ==> Good(r.value) && r.value.pos > s.pos
    ensures r.Err? ==> r.error.NotAString? || r.error.EscapeAtEnd? || r.error.UnclosedString?
  {
    var p := IgnoreSpaces(code, s.pos);
    var (literal, end) :- StringLiteral(code, p);
    Ok(Asm(end, s.labels, EmitStr(s.builder, CStr(literal))))
  }

  /** `resolve_instruction` (src/assembler.c:107-158) for the token `token`: an
      unknown mnemonic is fatal, PSH and STR read their operand, every other opcode
      is emitted as a plain one-byte instruction. */
  function ResolveInstruction(names: OpcodeNames, code: seq<Byte>, s: Asm, token: seq<Byte>): (r: Result<Asm, AsmError>)
    requires Good(s)
    ensures r.Ok? ==> Good(r.value) && r.value.pos >= s.pos
    ensures r == Err(UnknownInstruction(CStr(token))) <==> names(CStr(token)).None?
  {
    match names(CStr(token))
    case None => Err(UnknownInstruction(CStr(token)))
    case Some(op) =>
      if op == PSH then Push(code, s)
      else if op == STR then Str(code, s)
      else Ok(s.(builder := EmitInstruction(s.builder, op)))
  }

  /** The comment loop of `assemble` (src/assembler.c:169-176) entered on the `#` at
      `pos`: where the cursor stops and the character `c` then holds.  It stops on the
      next newline, or at the end of the text holding the last character read. */
  function Comment(code: seq<Byte>, pos: nat): (r: (nat, Byte))
    requires pos < |code|
    ensures pos < r.0 <= |code|
    ensures r.0 < |code| ==> r.1 == LF && code[r.0] == LF
    ensures r.0 == |code| ==> r.1 == code[|code| - 1]
    decreases |code| - pos
  {
    if pos + 1 >= |code| then (pos + 1, code[pos])
    else if code[pos + 1] == LF then (pos + 1, LF)
    else Comment(code, pos + 1)
  }

  /** The character `assemble` acts on at `pos` (src/assembler.c:168-176), and the
      cursor then: the character itself, or what a comment leaves. */
  function NextChar(code: seq<Byte>, pos: nat): (r: (nat, Byte))
    requires pos < |code|
    ensures pos <= r.0 <= |code|
    ensures code[pos] != HASH ==> r == (pos, code[pos])
  {
    if code[pos] == HASH then Comment(code, pos) else (pos, code[pos])
  }

  /** The label-definition branch of `assemble` (src/assembler.c:189-203) for the name
      `name`: an entry found by `find_entry` gives the id; otherwise a new label is
      created and inserted under the name.  The label is then linked at the current
      end of the emitted bytes.  `link_label` takes a byte. */
  function DefineLabel(s: Asm, name: Key): (r: Result<Asm, AsmError>)
    requires Good(s)
    ensures r.Ok? ==> Good(r.value) && r.value.pos == s.pos && r.value.builder.code == s.builder.code
  {
    match Find(s.labels, name)
    case Some(i) => Ok(s.(builder := LinkLabel(s.builder, LowByte(s.labels.buckets[i].value))))
    case None =>
      var (id, b) := CreateLabel(s.builder);
      match Insert(s.labels, name, id)
      case Err(e) => Err(LabelTable(e))
      case Ok((t, _)) => Ok(Asm(s.pos, t, LinkLabel(b, id)))
  }

  /** White space at the cursor (src/assembler.c:178-188): a non-empty token is
      resolved and cleared; the loop's increment then moves past the white space. */
  function EndToken(names: OpcodeNames, code: seq<Byte>, s: Asm, buf: seq<Byte>): (r: Result<(Asm, seq<Byte>), AsmError>)
    requires Good(s)
    ensures r.Ok? ==> Good(r.value.0) && r.value.0.pos > s.pos && r.value.1 == []
    ensures buf == [] ==> r == Ok((s.(pos := s.pos + 1), []))
  {
    if buf == [] then Ok((s.(pos := s.pos + 1), buf))
    else
      var s' :- ResolveInstruction(names, code, s, buf);
      Ok((s'.(pos := s'.pos + 1), []))
  }

  /** A `:` at the cursor (src/assembler.c:189-208): the cursor moves past it, the
      token names a label defined here and is cleared, and the loop's increment moves
      the cursor once more. */
  function EndLabel(s: Asm, buf: seq<Byte>): (r: Result<(Asm, seq<Byte>), AsmError>)
    requires Good(s)
    ensures r.Ok? ==> Good(r.value.0) && r.value.0.pos == s.pos + 2 && r.value.1 == []
    ensures r.Ok? ==> r.value.0.builder.code == s.builder.code
    ensures r.Err? ==> r.error.LabelTable?
  {
    var s' :- DefineLabel(s.(pos := s.pos + 1), CStr(buf));
    Ok((s'.(pos := s'.pos + 1), []))
  }

  /** One pass of the loop of `assemble` (src/assembler.c:167-212), with the token
      buffer `buf`, up to and including the loop's increment of the cursor: white
      space ends a token, `:` ends a label name, any other character is appended. */
  function Tick(names: OpcodeNames, code: seq<Byte>, s: Asm, buf: seq<Byte>): (r: Result<(Asm, seq<Byte>), AsmError>)
    requires Good(s) && s.pos < |code|
    ensures r.Ok? ==> Good(r.value.0) && r.value.0.pos > s.pos
  {
    var next := NextChar(code, s.pos);
    if IsSpace(next.1) then EndToken(names, code, s.(pos := next.0), buf)
    else if next.1 == COLON then EndLabel(s.(pos := next.0), buf)
    else Ok((s.(pos := next.0 + 1), buf + [next.1]))
  }

  /** The loop of `assemble` from state `s` with token `buf`, then the resolution of a
      token left at the end (src/assembler.c:167-216). */
  function Scan(names: OpcodeNames, code: seq<Byte>, s: Asm, buf: seq<Byte>): (r: Result<Asm, AsmError>)
    requires Good(s)
    ensures r.Ok? ==> Good(r.value) && r.value.pos >= s.pos
    decreases if s.pos < |code| then |code| - s.pos else 0
  {
    if s.pos < |code| then
      var next :- Tick(names, code, s, buf);
      Scan(names, code, next.0, next.1)
    else if buf == [] then Ok(s)
    else ResolveInstruction(names, code, s, buf)
  }

  /** The state `assemble` starts from: the cursor and label table of the assembler,
      and a fresh program builder. */
  function Start(pos: nat, t: Table): (s: Asm)
    requires WellSized(t)
    ensures Good(s) && s.builder == NewBuilder()
  {
    Asm(pos, t, NewBuilder())
  }

  /** `assemble` (src/assembler.c:160-226): the scan, then `clone_to_program`.  The
      relocation pass reads the byte after every LBL byte without a bound check, so a
      builder array ending in a lone marker is an error here. */
  function Assemble(names: OpcodeNames, code: seq<Byte>, pos: nat, t: Table): (r: Result<seq<Byte>, AsmError>)
    requires WellSized(t)
  {
    var s :- Scan(names, code, Start(pos, t), []);
    if WellMarked(s.builder.code) then Ok(Relocate(s.builder.code, s.builder.labels, 0))
    else Err(LoneMarker)
  }
}
