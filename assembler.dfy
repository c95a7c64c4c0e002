/** The assembler of src/assembler.c as the source runs it: a cursor over the text that
    nested loops advance, characters appended to string buffers, and the label hash
    map and program builder changed in place as tokens are recognised.  Every method
    is proved to do what the functions of module Assembly say. */
module Assemblers {
  import opened Words
  import opened CStrings
  import opened Results
  import opened Opcodes
  import opened Numerals
  import opened HashTables
  import opened Builders
  import opened HashMaps
  import opened StringBuffers
  import opened ProgramBuilders
  import opened Assembly

  /** `Assembler`: the text `code` with `count` = `|code|`, `current_pos` and the label
      map; `names` is `string_to_opcode`. */
  class Assembler {
    const code: seq<Byte>
    var currentPos: nat
    const labels: HashMap
    const names: OpcodeNames

    ghost predicate Valid()
      reads this, labels, labels.data
    {
      labels.Valid()
    }

    /** The assembler and the builder it drives, as a value. */
    ghost function State(pb: ProgramBuilder): Asm
      reads this, labels, labels.data, pb, pb.instructions, pb.instructions.data, pb.labels
      requires pb.Valid()
    {
      Asm(currentPos, labels.Model(), pb.Model())
    }

    /** `init_assembler` (src/assembler.c:8-10) and the set-up `assemble_file` does
        (src/assembler.c:243-250): an empty label map and the cursor at the start of
        the text. */
    constructor (code: seq<Byte>, names: OpcodeNames)
      ensures Valid() && fresh(labels) && fresh(labels.data)
      ensures this.code == code && this.names == names && currentPos == 0
      ensures labels.Model() == InitialTable()
    {
      this.code := code;
      this.names := names;
      currentPos := 0;
      labels := new HashMap();
    }

    /** `assemble_ignore_spaces` (src/assembler.c:16-23). */
    method IgnoreSpaces()
      modifies this
      ensures currentPos == Assembly.IgnoreSpaces(code, old(currentPos))
    {
      while currentPos < |code| && IsSpace(code[currentPos])
        invariant Assembly.IgnoreSpaces(code, currentPos) == Assembly.IgnoreSpaces(code, old(currentPos))
        decreases |code| - currentPos
      {
        currentPos := currentPos + 1;
      }
    }

    /** The loop `assemble_label_literal` and `assemble_u64_literal` share
        (src/assembler.c:26-33, 49-56): characters up to white space or the end of
        the text, appended to a fresh buffer. */
    method ReadWord() returns (literal: StringBuffer)
      modifies this
      ensures fresh(literal) && fresh(literal.str) && literal.Valid()
      ensures literal.Contents() == Word(code, old(currentPos))
      ensures currentPos == WordEnd(code, old(currentPos))
    {
      literal := new StringBuffer(4);
      ghost var start := currentPos;
      while currentPos < |code|
        invariant fresh(literal) && fresh(literal.str) && literal.Valid()
        invariant start <= currentPos && (currentPos > start ==> currentPos <= |code|)
        invariant WordEnd(code, currentPos) == WordEnd(code, start)
        invariant literal.Contents() == if currentPos > start then code[start..currentPos] else []
        decreases |code| - currentPos
      {
        var c := code[currentPos];
        if IsSpace(c) {
          break;
        }
        literal.AppendChar(c);
        currentPos := currentPos + 1;
      }
    }

    /** `assemble_label_literal` (src/assembler.c:25-46): the index of the bucket it
        returns a pointer to, and `*existing`. */
    method LabelLiteral() returns (r: Result<(nat, bool), AsmError>)
      requires Valid()
      modifies this, labels, labels.data
      ensures var spec := Assembly.LabelLiteral(code, old(currentPos), old(labels.Model()));
        && (spec.Ok? ==> && r == Ok((spec.value.bucket, spec.value.existing)) && Valid()
                         && currentPos == spec.value.pos && labels.Model() == spec.value.labels)
        && (spec.Err? ==> r == Err(spec.error))
      ensures labels.data != old(labels.data) ==> fresh(labels.data)
    {
      var literal := ReadWord();
      var name := literal.Text();
      var entry := labels.Find(name);
      if entry.Some? {
        return Ok((entry.value, true));
      }
      var inserted := labels.Insert(name, 0);
      if inserted.Err? {
        return Err(LabelTable(inserted.error));
      }
      return Ok((inserted.value, false));
    }

    /** `assemble_u64_literal` (src/assembler.c:48-64). */
    method U64Literal() returns (v: U64)
      modifies this
      ensures (v, currentPos) == Assembly.U64Literal(code, old(currentPos))
    {
      var literal := ReadWord();
      var text := literal.Text();
      v := StrToULL(text);
    }

    /** `assemble_string_literal` (src/assembler.c:66-105): the buffer of the literal's
        bytes.  `code[current_pos]` at `count` reads the text's terminator. */
    method StringLiteral() returns (r: Result<StringBuffer, AsmError>)
      modifies this
      ensures var spec := Assembly.StringLiteral(code, old(currentPos));
        && (spec.Ok? ==> && r.Ok? && fresh(r.value) && fresh(r.value.str) && r.value.Valid()
                         && r.value.Contents() == spec.value.0 && currentPos == spec.value.1)
        && (spec.Err? ==> r == Err(spec.error))
    {
      if CharAt(code, currentPos) != QUOTE {
        return Err(NotAString);
      }
      currentPos := currentPos + 1;
      var sb := new StringBuffer(8);
      ghost var start := currentPos;
      while CharAt(code, currentPos) != QUOTE
        invariant currentPos <= |code|
        invariant fresh(sb) && fresh(sb.str) && sb.Valid()
        invariant StringBody(code, currentPos, sb.Contents()) == StringBody(code, start, [])
        decreases |code| - currentPos
      {
        var c := CharAt(code, currentPos);
        if c == BACKSLASH {
          currentPos := currentPos + 1;
          if currentPos >= |code| {
            return Err(EscapeAtEnd);
          }
          var escaped := code[currentPos];
          if escaped == LOWER_N {
            c := LF;
          } else if escaped == LOWER_R {
            c := CR;
          } else {
            c := escaped;
          }
        }
        sb.AppendChar(c);
        currentPos := currentPos + 1;
        if currentPos > |code| {
          return Err(UnclosedString);
        }
      }
      currentPos := currentPos + 1;
      return Ok(sb);
    }

    /** The label-reference operand of PSH (src/assembler.c:121-136), with the cursor
        on its `'`. */
    method PushLabel(pb: ProgramBuilder) returns (r: Result<(), AsmError>)
      requires Valid() && pb.Valid()
      modifies this, labels, labels.data, pb, pb.instructions, pb.instructions.data
      ensures var spec := Assembly.PushLabel(code, old(State(pb)).(pos := old(currentPos) + 1));
        && (spec.Ok? ==> r.Ok? && Valid() && pb.Valid() && State(pb) == spec.value)
        && (spec.Err? ==> r == Err(spec.error))
      ensures labels.data != old(labels.data) ==> fresh(labels.data)
      ensures pb.instructions.data != old(pb.instructions.data) ==> fresh(pb.instructions.data)
    {
      currentPos := currentPos + 1;
      ghost var s := State(pb);
      var found := LabelLiteral();
      if found.Err? {
        return Err(found.error);
      }
      ghost var l := Assembly.LabelLiteral(code, s.pos, s.labels).value;
      assert pb.Model() == s.builder;
      PushFound(pb, found.value.0, found.value.1, l);
      return Ok(());
    }

    /** Emits the label operand once the name's bucket is known (src/assembler.c:126-135):
        a known label's value, or a label created now and recorded in the bucket. */
    method PushFound(pb: ProgramBuilder, bucket: nat, existing: bool, ghost l: Labelled)
      requires Valid() && pb.Valid() && WellSized(l.labels) && l.bucket < |l.labels.buckets|
      requires labels.Model() == l.labels && currentPos == l.pos
      requires bucket == l.bucket && existing == l.existing
      modifies labels.data, pb, pb.instructions, pb.instructions.data
      ensures Valid() && pb.Valid()
      ensures State(pb) == Assembly.PushFound(l, Asm(old(currentPos), old(labels.Model()), old(pb.Model())))
      ensures labels.data != old(labels.data) ==> fresh(labels.data)
      ensures pb.instructions.data != old(pb.instructions.data) ==> fresh(pb.instructions.data)
    {
      ghost var b := pb.Model();
      var operand: U64;
      if existing {
        operand := labels.data[bucket].value;
      } else {
        var id := pb.CreateLabel();
        operand := id;
        labels.SetValue(bucket, id);
      }
      ghost var t := labels.Model();
      pb.EmitPushLabel(LowByte(operand));
      assert labels.Model() == t;
    }

    /** The numeric operand of PSH (src/assembler.c:137-140). */
    method PushNumber(pb: ProgramBuilder)
      requires Valid() && pb.Valid()
      modifies this, pb.instructions, pb.instructions.data
      ensures Valid() && pb.Valid() && Assembly.PushNumber(code, old(State(pb))) == Ok(State(pb))
      ensures pb.instructions.data != old(pb.instructions.data) ==> fresh(pb.instructions.data)
    {
      var operand := U64Literal();
      pb.EmitPush(LowByte(operand));
    }

    /** The PSH case of `resolve_instruction` (src/assembler.c:117-143). */
    method Push(pb: ProgramBuilder) returns (r: Result<(), AsmError>)
      requires Valid() && pb.Valid()
      modifies this, labels, labels.data, pb, pb.instructions, pb.instructions.data
      ensures var spec := Assembly.Push(code, old(State(pb)));
        && (spec.Ok? ==> r.Ok? && Valid() && pb.Valid() && State(pb) == spec.value)
        && (spec.Err? ==> r == Err(spec.error))
      ensures labels.data != old(labels.data) ==> fresh(labels.data)
      ensures pb.instructions.data != old(pb.instructions.data) ==> fresh(pb.instructions.data)
    {
      IgnoreSpaces();
      r := PushOperand(pb, State(pb));
    }

    /** The operand of PSH, with the cursor on its first character
        (src/assembler.c:121-141). */
    method PushOperand(pb: ProgramBuilder, ghost s: Asm) returns (r: Result<(), AsmError>)
      requires Valid() && pb.Valid() && s == State(pb)
      modifies this, labels, labels.data, pb, pb.instructions, pb.instructions.data
      ensures var spec := Assembly.PushOperand(code, s);
        && (spec.Ok? ==> r.Ok? && Valid() && pb.Valid() && State(pb) == spec.value)
        && (spec.Err? ==> r == Err(spec.error))
      ensures labels.data != old(labels.data) ==> fresh(labels.data)
      ensures pb.instructions.data != old(pb.instructions.data) ==> fresh(pb.instructions.data)
    {
      if CharAt(code, currentPos) == APOSTROPHE {
        assert Assembly.PushOperand(code, s) == Assembly.PushLabel(code, s.(pos := s.pos + 1));
        r := PushLabel(pb);
      } else {
        assert Assembly.PushOperand(code, s) == Assembly.PushNumber(code, s);
        PushNumber(pb);
        r := Ok(());
      }
    }

    /** The STR case of `resolve_instruction` (src/assembler.c:144-152). */
    method Str(pb: ProgramBuilder) returns (r: Result<(), AsmError>)
      requires Valid() && pb.Valid()
      modifies this, pb.instructions, pb.instructions.data
      ensures var spec := Assembly.Str(code, old(State(pb)));
        && (spec.Ok? ==> r.Ok? && pb.Valid() && State(pb) == spec.value)
        && (spec.Err? ==> r == Err(spec.error))
      ensures pb.instructions.data != old(pb.instructions.data) ==> fresh(pb.instructions.data)
    {
      IgnoreSpaces();
      var literal := StringLiteral();
      if literal.Err? {
        return Err(literal.error);
      }
      var text := literal.value.Text();
      pb.EmitStr(text);
      return Ok(());
    }

    /** `resolve_instruction` (src/assembler.c:107-158) for the token in `buf`. */
    method ResolveInstruction(buf: StringBuffer, pb: ProgramBuilder) returns (r: Result<(), AsmError>)
      requires Valid() && pb.Valid() && buf.Valid()
      modifies this, labels, labels.data, pb, pb.instructions, pb.instructions.data
      ensures var spec := Assembly.ResolveInstruction(names, code, old(State(pb)), old(buf.Contents()));
        && (spec.Ok? ==> r.Ok? && Valid() && pb.Valid() && State(pb) == spec.value)
        && (spec.Err? ==> r == Err(spec.error))
      ensures labels.data != old(labels.data) ==> fresh(labels.data)
      ensures pb.instructions.data != old(pb.instructions.data) ==> fresh(pb.instructions.data)
    {
      var name := buf.Text();
      var opcode := names(name);
      if opcode.None? {
        return Err(UnknownInstruction(name));
      }
      if opcode.value == PSH {
        r := Push(pb);
      } else if opcode.value == STR {
        r := Str(pb);
      } else {
        pb.EmitInstruction(opcode.value);
        r := Ok(());
      }
    }

    /** The character the loop of `assemble` acts on (src/assembler.c:168-176): after a
        `#`, the cursor runs to the next newline or the end of the text. */
    method NextChar() returns (c: Byte)
      requires currentPos < |code|
      modifies this
      ensures (currentPos, c) == Assembly.NextChar(code, old(currentPos))
    {
      c := code[currentPos];
      if c == HASH {
        ghost var start := currentPos;
        currentPos := currentPos + 1;
        while currentPos < |code|
          invariant start < currentPos <= |code|
          invariant Comment(code, currentPos - 1) == Comment(code, start)
          invariant c == code[currentPos - 1]
          decreases |code| - currentPos
        {
          c := code[currentPos];
          if c == LF {
            break;
          }
          currentPos := currentPos + 1;
        }
      }
    }

    /** The label-definition branch of `assemble` (src/assembler.c:192-203) for the
        token in `buf`. */
    method DefineLabel(buf: StringBuffer, pb: ProgramBuilder, ghost s: Asm) returns (r: Result<(), AsmError>)
      requires Valid() && pb.Valid() && buf.Valid() && s == State(pb)
      modifies labels, labels.data, pb, pb.labels
      ensures var spec := Assembly.DefineLabel(s, CStr(old(buf.Contents())));
        && (spec.Ok? ==> r.Ok? && Valid() && pb.Valid() && State(pb) == spec.value)
        && (spec.Err? ==> r == Err(spec.error))
      ensures labels.data != old(labels.data) ==> fresh(labels.data)
    {
      var name := buf.Text();
      var entry := labels.Find(name);
      var id: Byte;
      if entry.None? {
        id := pb.CreateLabel();
        var inserted := labels.Insert(name, id);
        if inserted.Err? {
          return Err(LabelTable(inserted.error));
        }
      } else {
        id := LowByte(labels.data[entry.value].value);
      }
      pb.LinkLabel(id);
      return Ok(());
    }

    /** White space at the cursor (src/assembler.c:178-188); yields the token buffer to
        go on with, a fresh one once a token is resolved. */
    method EndToken(buf: StringBuffer, pb: ProgramBuilder, ghost s: Asm) returns (next: StringBuffer, r: Result<(), AsmError>)
      requires Valid() && pb.Valid() && buf.Valid() && s == State(pb)
      requires buf.str != pb.instructions.data
      modifies this, labels, labels.data, pb, pb.instructions, pb.instructions.data
      ensures var spec := Assembly.EndToken(names, code, s, old(buf.Contents()));
        && (spec.Ok? ==> && r.Ok? && Valid() && pb.Valid() && next.Valid()
                         && State(pb) == spec.value.0 && next.Contents() == spec.value.1)
        && (spec.Err? ==> r == Err(spec.error))
      ensures next.str != pb.instructions.data
      ensures next == buf || (fresh(next) && fresh(next.str))
      ensures labels.data != old(labels.data) ==> fresh(labels.data)
      ensures pb.instructions.data != old(pb.instructions.data) ==> fresh(pb.instructions.data)
    {
      next := buf;
      if buf.count == 0 {
        currentPos := currentPos + 1;
        return next, Ok(());
      }
      r := ResolveInstruction(buf, pb);
      if r.Err? {
        return;
      }
      next := new StringBuffer(4);
      currentPos := currentPos + 1;
    }

    /** A `:` at the cursor (src/assembler.c:189-208); yields a fresh token buffer once
        the label is defined. */
    method EndLabel(buf: StringBuffer, pb: ProgramBuilder, ghost s: Asm) returns (next: StringBuffer, r: Result<(), AsmError>)
      requires Valid() && pb.Valid() && buf.Valid() && s == State(pb)
      requires buf.str != pb.instructions.data
      modifies this, labels, labels.data, pb, pb.labels
      ensures var spec := Assembly.EndLabel(s, old(buf.Contents()));
        && (spec.Ok? ==> && r.Ok? && Valid() && pb.Valid() && next.Valid()
                         && State(pb) == spec.value.0 && next.Contents() == spec.value.1)
        && (spec.Err? ==> r == Err(spec.error))
      ensures next.str != pb.instructions.data
      ensures next == buf || (fresh(next) && fresh(next.str))
      ensures labels.data != old(labels.data) ==> fresh(labels.data)
    {
      next := buf;
      currentPos := currentPos + 1;
      r := DefineLabel(buf, pb, s.(pos := s.pos + 1));
      if r.Err? {
        return;
      }
      next := new StringBuffer(4);
      currentPos := currentPos + 1;
    }

    /** One pass of the loop of `assemble` (src/assembler.c:167-212), ending with the
        loop's increment; yields the token buffer to go on with. */
    method Tick(buf: StringBuffer, pb: ProgramBuilder) returns (next: StringBuffer, r: Result<(), AsmError>)
      requires Valid() && pb.Valid() && buf.Valid() && currentPos < |code|
      requires buf.str != pb.instructions.data
      modifies this, labels, labels.data, pb, pb.instructions, pb.instructions.data, pb.labels, buf, buf.str
      ensures var spec := Assembly.Tick(names, code, old(State(pb)), old(buf.Contents()));
        && (spec.Ok? ==> && r.Ok? && Valid() && pb.Valid() && next.Valid()
                         && State(pb) == spec.value.0 && next.Contents() == spec.value.1)
        && (spec.Err? ==> r == Err(spec.error))
      ensures next.str != pb.instructions.data
      ensures next == buf || (fresh(next) && fresh(next.str))
      ensures next.str != old(buf.str) ==> fresh(next.str)
      ensures labels.data != old(labels.data) ==> fresh(labels.data)
      ensures pb.instructions.data != old(pb.instructions.data) ==> fresh(pb.instructions.data)
    {
      ghost var s := State(pb);
      ghost var n := Assembly.NextChar(code, s.pos);
      var c := NextChar();
      assert State(pb) == s.(pos := n.0) && c == n.1;
      if IsSpace(c) {
        next, r := EndToken(buf, pb, State(pb));
      } else if c == COLON {
        next, r := EndLabel(buf, pb, State(pb));
      } else {
        buf.AppendChar(c);
        currentPos := currentPos + 1;
        next, r := buf, Ok(());
      }
    }

    /** `assemble` (src/assembler.c:160-226): the program the text assembles to, from
        the assembler's cursor and label map. */
    method Assemble() returns (r: Result<array<Byte>, AsmError>)
      requires Valid()
      modifies this, labels, labels.data
      ensures var spec := Assembly.Assemble(names, code, old(currentPos), old(labels.Model()));
        && (spec.Ok? ==> r.Ok? && fresh(r.value) && r.value[..] == spec.value)
        && (spec.Err? ==> r == Err(spec.error))
      ensures var scan := Scan(names, code, Start(old(currentPos), old(labels.Model())), []);
        scan.Ok? ==> currentPos == scan.value.pos && labels.Model() == scan.value.labels
    {
      var pb := new ProgramBuilder();
      var buf := new StringBuffer(4);
      ghost var spec := Scan(names, code, Start(currentPos, labels.Model()), []);
      while currentPos < |code|
        invariant Valid() && pb.Valid() && buf.Valid()
        invariant fresh(pb) && fresh(pb.instructions) && fresh(pb.instructions.data) && fresh(pb.labels)
        invariant fresh(buf) && fresh(buf.str) && buf.str != pb.instructions.data
        invariant labels.data == old(labels.data) || fresh(labels.data)
        invariant Scan(names, code, State(pb), buf.Contents()) == spec
        decreases if currentPos < |code| then |code| - currentPos else 0
      {
        var result;
        buf, result := Tick(buf, pb);
        if result.Err? {
          return Err(result.error);
        }
      }
      if buf.count > 0 {
        var resolved := ResolveInstruction(buf, pb);
        if resolved.Err? {
          return Err(resolved.error);
        }
      }
      var complete := pb.MarkersComplete();
      if !complete {
        return Err(LoneMarker);
      }
      var program := pb.CloneToProgram();
      return Ok(program);
    }
  }
}
