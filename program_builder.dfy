/** The program builder of src/program_builder.c as the source keeps it: a growable
    byte array written in place, a fixed table of 256 label slots and the next label
    id.  Every method is proved to do what the functions of module Builders say. */
module ProgramBuilders {
  import opened Words
  import opened CStrings
  import opened Opcodes
  import opened Growth
  import opened Builders

  /** `InstructionArray`: `data`, of which the first `count` bytes are in use, with
      `capacity` = `data.Length`. */
  class InstructionArray {
    var data: array<Byte>
    var count: nat

    ghost predicate Valid()
      reads this
    {
      count <= data.Length
    }

    ghost function Contents(): seq<Byte>
      reads this, data
      requires Valid()
    {
      data[..count]
    }

    /** `init_array` (src/program_builder.c:12-19). */
    constructor (initialCapacity: nat)
      ensures Valid() && fresh(data)
      ensures data.Length == initialCapacity
      ensures Contents() == []
    {
      data := new Byte[initialCapacity];
      count := 0;
    }

    /** `grow_array_to_fit` (src/program_builder.c:21-38): nothing happens when the
        free room already fits `newElements`; otherwise the capacity doubles until it
        reaches the OLD CAPACITY plus `newElements` (not the count plus them).  A
        zero capacity that must grow would double forever, so it is excluded. */
    method GrowToFit(newElements: nat)
      requires Valid()
      requires data.Length > 0 || newElements == 0
      modifies this
      ensures Valid() && count == old(count)
      ensures Contents() == old(Contents())
      ensures data.Length ==
        if old(data.Length) - count >= newElements then old(data.Length)
        else DoubleUntil(old(data.Length), old(data.Length) + newElements)
      ensures data.Length - count >= newElements
      ensures old(data.Length) - count >= newElements ==> data == old(data)
      ensures data != old(data) ==> fresh(data)
    {
      if data.Length - count >= newElements {
        return;
      }
      var targetCapacity := data.Length + newElements;
      var capacity := data.Length;
      while capacity < targetCapacity
        invariant capacity > 0
        invariant DoubleUntil(capacity, targetCapacity) == DoubleUntil(data.Length, targetCapacity)
        decreases targetCapacity - capacity
      {
        capacity := capacity * 2;
      }
      DoubleUntilIsLeast(data.Length, targetCapacity);
      // realloc keeps the bytes in use
      var grown := new Byte[capacity];
      forall i | 0 <= i < count {
        grown[i] := data[i];
      }
      data := grown;
    }

    /** `insert_array` (src/program_builder.c:40-55): a full array doubles its
        capacity first.  A zero capacity would stay zero and the write would fall
        outside the allocation, so it is excluded. */
    method Insert(element: Byte)
      requires Valid() && data.Length > 0
      modifies this, data
      ensures Valid() && data.Length > 0
      ensures Contents() == old(Contents()) + [element]
      ensures data.Length == if old(count) == old(data.Length) then 2 * old(data.Length) else old(data.Length)
      ensures old(count) < old(data.Length) ==> data == old(data)
      ensures data != old(data) ==> fresh(data)
    {
      if count == data.Length {
        var grown := new Byte[2 * data.Length];
        forall i | 0 <= i < count {
          grown[i] := data[i];
        }
        data := grown;
      }
      data[count] := element;
      count := count + 1;
    }

    /** The `strcpy` of `emit_str`: the string and its terminator, written into room
        already made for them. */
    method CopyString(s: Key)
      requires Valid() && data.Length - count >= |s| + 1
      modifies this, data
      ensures Valid() && data == old(data)
      ensures Contents() == old(Contents()) + s + [NUL]
    {
      var base := count;
      forall i | 0 <= i < |s| {
        data[base + i] := s[i];
      }
      data[base + |s|] := NUL;
      count := base + |s| + 1;
    }

    /** The closing `memcpy` of `clone_to_program`: a fresh array holding exactly the
        bytes in use. */
    method ToArray() returns (copy: array<Byte>)
      requires Valid()
      ensures fresh(copy) && copy[..] == Contents()
    {
      copy := new Byte[count];
      forall j | 0 <= j < count {
        copy[j] := data[j];
      }
    }
  }

  /** `ProgramBuilder`: the instruction array, `usize labels[256]` and
      `current_label`. */
  class ProgramBuilder {
    const instructions: InstructionArray
    const labels: array<nat>
    var currentLabel: Byte

    ghost predicate Valid()
      reads this, instructions
    {
      instructions.Valid() && instructions.data.Length > 0 && labels.Length == LABEL_SLOTS
    }

    ghost function Model(): Builder
      reads this, instructions, instructions.data, labels
      requires Valid()
    {
      Builder(instructions.Contents(), labels[..], currentLabel)
    }

    /** `init_program_builder` (src/program_builder.c:63-65) on the zero-initialised
        builder `assemble` declares: four bytes of capacity, every label slot 0,
        label id 0 next. */
    constructor ()
      ensures Valid() && fresh(instructions) && fresh(instructions.data) && fresh(labels)
      ensures instructions.data.Length == 4
      ensures Model() == NewBuilder()
    {
      instructions := new InstructionArray(4);
      labels := new nat[LABEL_SLOTS](_ => 0);
      currentLabel := 0;
      new;
      assert labels[..] == seq(LABEL_SLOTS, _ => 0);
    }

    /** `emit_u8` (src/program_builder.c:117-119). */
    method EmitByte(v: Byte)
      requires Valid()
      modifies instructions, instructions.data
      ensures Valid() && Model() == Builders.EmitByte(old(Model()), v)
      ensures instructions.data != old(instructions.data) ==> fresh(instructions.data)
    {
      instructions.Insert(v);
    }

    /** `emit_instruction` (src/program_builder.c:121-123). */
    method EmitInstruction(op: Opcode)
      requires Valid()
      modifies instructions, instructions.data
      ensures Valid() && Model() == Builders.EmitInstruction(old(Model()), op)
      ensures instructions.data != old(instructions.data) ==> fresh(instructions.data)
    {
      EmitByte(Encode(op));
    }

    /** `emit_nop` (src/program_builder.c:125-127). */
    method EmitNop()
      requires Valid()
      modifies instructions, instructions.data
      ensures Valid() && Model() == Builders.EmitNop(old(Model()))
      ensures instructions.data != old(instructions.data) ==> fresh(instructions.data)
    {
      EmitInstruction(NOP);
    }

    /** `emit_push` (src/program_builder.c:129-132): PSH and one operand byte. */
    method EmitPush(v: Byte)
      requires Valid()
      modifies instructions, instructions.data
      ensures Valid() && Model() == Builders.EmitPush(old(Model()), v)
      ensures instructions.data != old(instructions.data) ==> fresh(instructions.data)
    {
      EmitInstruction(PSH);
      EmitByte(v);
    }

    /** `emit_push_label`, declared in include/program_builder.h with no definition:
        PSH, the LBL marker and the label id, as `emit_jump` writes them. */
    method EmitPushLabel(id: Byte)
      requires Valid()
      modifies instructions, instructions.data
      ensures Valid() && Model() == Builders.EmitPushLabel(old(Model()), id)
      ensures instructions.data != old(instructions.data) ==> fresh(instructions.data)
    {
      EmitInstruction(PSH);
      EmitInstruction(LBL);
      EmitByte(id);
    }

    /** `emit_str` (src/program_builder.c:134-142): STR, then `strcpy` of the string
        and its terminator into room made by `grow_array_to_fit`. */
    method EmitStr(s: Key)
      requires Valid()
      modifies instructions, instructions.data
      ensures Valid() && Model() == Builders.EmitStr(old(Model()), s)
      ensures instructions.data != old(instructions.data) ==> fresh(instructions.data)
    {
      EmitInstruction(STR);
      instructions.GrowToFit(|s| + 1);
      instructions.CopyString(s);
    }

    /** `emit_jump` (src/program_builder.c:144-149). */
    method EmitJump(target: Byte)
      requires Valid()
      modifies instructions, instructions.data
      ensures Valid() && Model() == Builders.EmitJump(old(Model()), target)
      ensures instructions.data != old(instructions.data) ==> fresh(instructions.data)
    {
      EmitInstruction(PSH);
      EmitInstruction(LBL);
      EmitByte(target);
      EmitInstruction(JMP);
    }

    /** `emit_jump_if_true` (src/program_builder.c:151-156). */
    method EmitJumpIfTrue(target: Byte)
      requires Valid()
      modifies instructions, instructions.data
      ensures Valid() && Model() == Builders.EmitJumpIfTrue(old(Model()), target)
      ensures instructions.data != old(instructions.data) ==> fresh(instructions.data)
    {
      EmitInstruction(PSH);
      EmitInstruction(LBL);
      EmitByte(target);
      EmitInstruction(JPT);
    }

    /** `create_label` (src/program_builder.c:159-161). */
    method CreateLabel() returns (id: Byte)
      requires Valid()
      modifies this
      ensures Valid() && (id, Model()) == Builders.CreateLabel(old(Model()))
    {
      id := currentLabel;
      currentLabel := (currentLabel + 1) % 256;
    }

    /** `link_label` (src/program_builder.c:163-165). */
    method LinkLabel(id: Byte)
      requires Valid()
      modifies labels
      ensures Valid() && Model() == Builders.LinkLabel(old(Model()), id)
    {
      labels[id] := instructions.count;
    }

    /** One pass of the loop of `clone_to_program` (src/program_builder.c:84-100): the
        byte it inserts for index `i`, how far it moves on, and the bytes ignored so
        far.  An LBL marker and its label id become the label's relocated address. */
    method RelocateNext(i: nat, ignored: nat) returns (element: Byte, width: nat, ignored': nat)
      requires Valid() && i < instructions.count && WellMarked(instructions.Contents()[i..])
      ensures width == if instructions.data[i] == LBL_BYTE then 2 else 1
      ensures ignored' == ignored + 2 * (width - 1)
      ensures var code := instructions.Contents();
        && i + width <= |code| && WellMarked(code[i + width..])
        && Relocate(code[i..], labels[..], ignored) == [element] + Relocate(code[i + width..], labels[..], ignored')
    {
      RelocateAt(instructions.Contents(), labels[..], i, ignored);
      var instruction := instructions.data[i];
      element, width, ignored' := instruction, 1, ignored;
      if instruction == LBL_BYTE {
        var labelIndex := instructions.data[i + 1];
        ignored' := ignored + 2;
        element := LabelAddress(labels[labelIndex], ignored');
        width := 2;
      }
    }

    /** The loop of `clone_to_program` (src/program_builder.c:84-100): every byte of
        the builder's array goes into `temp`, every LBL marker and label id as the
        label's relocated address. */
    method RelocateInto(temp: InstructionArray)
      requires Valid() && WellMarked(instructions.Contents())
      requires temp.Valid() && temp.count == 0 && temp.data.Length == instructions.count
      requires temp != instructions && temp.data != instructions.data
      modifies temp, temp.data
      ensures temp.Valid() && temp.Contents() == Relocate(instructions.Contents(), labels[..], 0)
      ensures temp.data != old(temp.data) ==> fresh(temp.data)
    {
      ghost var all := instructions.Contents();
      ghost var slots := labels[..];
      var ignoredBytes := 0;
      var i := 0;
      ghost var done := [];
      while i < instructions.count
        invariant 0 <= i <= instructions.count
        invariant temp.Valid() && temp.data.Length == instructions.count && temp.data != instructions.data
        invariant temp.Contents() == done && |done| <= i
        invariant WellMarked(all[i..])
        invariant Relocate(all, slots, 0) == done + Relocate(all[i..], slots, ignoredBytes)
        invariant temp.data != old(temp.data) ==> fresh(temp.data)
        decreases instructions.count - i
      {
        var element, width;
        element, width, ignoredBytes := RelocateNext(i, ignoredBytes);
        AppendAssociative(done, [element], Relocate(all[i + width..], slots, ignoredBytes));
        temp.Insert(element);
        done := done + [element];
        i := i + width;
      }
    }

    /** Whether the relocation pass of `clone_to_program` (src/program_builder.c:84-100)
        stays inside the bytes in use.  The pass reads the byte after every LBL byte
        without comparing with `count`; this scan takes the pass's strides and reports
        whether such a read would fall past the end. */
    method MarkersComplete() returns (ok: bool)
      requires Valid()
      ensures ok == WellMarked(instructions.Contents())
    {
      ghost var all := instructions.Contents();
      var i := 0;
      while i < instructions.count
        invariant i <= instructions.count
        invariant WellMarked(all) == WellMarked(all[i..])
        decreases instructions.count - i
      {
        assert all[i..][1..] == all[i + 1..];
        if instructions.data[i] == LBL_BYTE {
          if i + 1 >= instructions.count {
            return false;
          }
          assert all[i..][2..] == all[i + 2..];
          i := i + 2;
        } else {
          i := i + 1;
        }
      }
      return true;
    }

    /** `clone_to_program` (src/program_builder.c:71-115): the relocation pass into a
        temporary array of capacity `count`, copied into a fresh program of the
        resulting size.  The pass reads the byte after every LBL byte, so the array
        must not end in a lone marker. */
    method CloneToProgram() returns (program: array<Byte>)
      requires Valid() && WellMarked(instructions.Contents())
      ensures fresh(program)
      ensures program[..] == Relocate(Model().code, Model().labels, 0)
      ensures program.Length == instructions.count - Markers(Model().code)
    {
      var temp := new InstructionArray(instructions.count);
      RelocateInto(temp);
      RelocateSize(instructions.Contents(), labels[..], 0);
      program := temp.ToArray();
    }
  }
}
