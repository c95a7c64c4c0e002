/** The program builder of src/program_builder.c as values: the emitted byte stream,
    the 256 label slots and the next label id, the `emit_*` helpers, label creation
    and linking, and the relocation pass of `clone_to_program`. */
module Builders {
  import opened Words
  import opened CStrings
  import opened Opcodes

  /** `usize labels[256]` is indexed by a `u8` label id. */
  const LABEL_SLOTS: nat := 256

  /** A ProgramBuilder: the contents of its instruction array, its label table and
      `current_label`. */
  datatype Builder = Builder(code: seq<Byte>, labels: seq<nat>, currentLabel: Byte)

  predicate ValidBuilder(b: Builder) {
    |b.labels| == LABEL_SLOTS
  }

  /** A zero-initialised builder after `init_program_builder`. */
  function NewBuilder(): (b: Builder)
    ensures ValidBuilder(b) && b.code == [] && b.currentLabel == 0
  {
    Builder([], seq(LABEL_SLOTS, _ => 0), 0)
  }

  // ---- Emission (src/program_builder.c:117-156) ----

  /** The emit helpers append their bytes to the array and touch nothing else. */
  function EmitByte(b: Builder, v: Byte): (r: Builder)
    ensures r == b.(code := b.code + [v])
  {
    b.(code := b.code + [v])
  }

  function EmitInstruction(b: Builder, op: Opcode): (r: Builder)
    ensures r == b.(code := b.code + [Encode(op)])
  {
    EmitByte(b, Encode(op))
  }

  function EmitNop(b: Builder): (r: Builder)
    ensures r == b.(code := b.code + [Encode(NOP)])
  {
    EmitInstruction(b, NOP)
  }

  /** `emit_push` takes its operand as a `u8`: one operand byte. */
  function EmitPush(b: Builder, v: Byte): Builder {
    EmitByte(EmitInstruction(b, PSH), v)
  }

  /** `emit_push_label` is declared but not defined in the repository; it is taken to
      emit what `emit_jump` emits before its control-flow opcode. */
  function EmitPushLabel(b: Builder, id: Byte): (r: Builder)
    ensures r == b.(code := b.code + [Encode(PSH), LBL_BYTE, id])
  {
    EmitByte(EmitInstruction(EmitInstruction(b, PSH), LBL), id)
  }

  /** `emit_str`: the opcode, then the bytes of the string and its terminator. */
  function EmitStr(b: Builder, s: Key): (r: Builder)
    ensures r == b.(code := b.code + [Encode(STR)] + s + [NUL])
  {
    var b1 := EmitInstruction(b, STR);
    b1.(code := b1.code + s + [NUL])
  }

  function EmitJump(b: Builder, target: Byte): (r: Builder)
    ensures r == b.(code := b.code + [Encode(PSH), LBL_BYTE, target, Encode(JMP)])
  {
    EmitInstruction(EmitByte(EmitInstruction(EmitInstruction(b, PSH), LBL), target), JMP)
  }

  function EmitJumpIfTrue(b: Builder, target: Byte): (r: Builder)
    ensures r == b.(code := b.code + [Encode(PSH), LBL_BYTE, target, Encode(JPT)])
  {
    EmitInstruction(EmitByte(EmitInstruction(EmitInstruction(b, PSH), LBL), target), JPT)
  }

  // ---- Labels (src/program_builder.c:159-165) ----

  /** `create_label`: the current id, post-incremented as a `u8`. */
  function CreateLabel(b: Builder): (r: (Byte, Builder))
    ensures r.0 == b.currentLabel && (r.0 + 1) % 256 == r.1.currentLabel
    ensures r.1 == b.(currentLabel := r.1.currentLabel)
  {
    (b.currentLabel, b.(currentLabel := (b.currentLabel + 1) % 256))
  }

  /** `link_label`: the slot of `id` is set to the number of bytes emitted so far,
      whatever it held; no other slot changes. */
  function LinkLabel(b: Builder, id: Byte): (r: Builder)
    requires ValidBuilder(b)
    ensures ValidBuilder(r) && r.code == b.code && r.currentLabel == b.currentLabel
    ensures r.labels[id] == |b.code|
    ensures forall j | 0 <= j < LABEL_SLOTS && j != id :: r.labels[j] == b.labels[j]
  {
    b.(labels := b.labels[id := |b.code|])
  }

  /** The ids `n` successive `create_label` calls return, and the builder after them. */
  function CreateLabels(b: Builder, n: nat): (r: (seq<Byte>, Builder))
    ensures |r.0| == n
  {
    if n == 0 then ([], b)
    else
      var (ids, b1) := CreateLabels(b, n - 1);
      var (id, b2) := CreateLabel(b1);
      (ids + [id], b2)
  }

  /** Label ids count up from `current_label` modulo 256: any 256 successive ids are
      distinct, and the 257th repeats the first. */
  lemma {:induction false} CreateLabelsCount(b: Builder, n: nat)
    ensures var (ids, b') := CreateLabels(b, n);
      && (forall i | 0 <= i < n :: ids[i] == (b.currentLabel + i) % 256)
      && b'.currentLabel == (b.currentLabel + n) % 256
      && b'.code == b.code && b'.labels == b.labels
  {
    if n > 0 {
      CreateLabelsCount(b, n - 1);
      var (ids, b1) := CreateLabels(b, n - 1);
      IncrementModulo(b.currentLabel + n - 1);
      assert CreateLabels(b, n).0 == ids + [b1.currentLabel];
    }
  }

  /** Proof helper: incrementing after reducing modulo 256 is reducing after
      incrementing. */
  lemma IncrementModulo(x: nat)
    ensures (x % 256 + 1) % 256 == (x + 1) % 256
  {
  }

  lemma CreateLabelsDistinct(b: Builder, n: nat)
    requires n <= 256
    ensures var ids := CreateLabels(b, n).0;
      forall i, j | 0 <= i < j < n :: ids[i] != ids[j]
  {
    CreateLabelsCount(b, n);
    var ids := CreateLabels(b, n).0;
    forall i, j | 0 <= i < j < n
      ensures ids[i] != ids[j]
    {
      ModuloDistinct(b.currentLabel + i, j - i);
      assert b.currentLabel + i + (j - i) == b.currentLabel + j;
    }
  }

  /** Fewer than 256 steps apart, two numbers differ modulo 256. */
  lemma ModuloDistinct(x: nat, d: nat)
    requires 0 < d < 256
    ensures x % 256 != (x + d) % 256
  {
    var q, r := x / 256, x % 256;
    if r + d < 256 {
      ModuloOf(x + d, q, r + d);
    } else {
      ModuloOf(x + d, q + 1, r + d - 256);
    }
  }

  /** Proof helper: the remainder of an explicit division by 256. */
  lemma ModuloOf(y: nat, q: nat, m: nat)
    requires y == 256 * q + m && m < 256
    ensures y % 256 == m
  {
  }

  lemma CreateLabelsWrap(b: Builder)
    ensures CreateLabels(b, 257).0[256] == CreateLabels(b, 257).0[0]
  {
    CreateLabelsCount(b, 257);
  }

  // ---- Relocation (src/program_builder.c:71-115) ----

  /** No byte equals LBL. */
  predicate MarkerFree(s: seq<Byte>) {
    forall i | 0 <= i < |s| :: s[i] != LBL_BYTE
  }

  /** Every LBL byte, read as a marker, is followed by its label index: the pass never
      reads past the end of the instruction array. */
  predicate WellMarked(code: seq<Byte>)
    decreases |code|
  {
    if code == [] then true
    else if code[0] == LBL_BYTE then |code| >= 2 && WellMarked(code[2..])
    else WellMarked(code[1..])
  }

  /** The number of markers the pass meets. */
  function Markers(code: seq<Byte>): nat
    requires WellMarked(code)
    decreases |code|
  {
    if code == [] then 0
    else if code[0] == LBL_BYTE then 1 + Markers(code[2..])
    else Markers(code[1..])
  }

  /** The jump address `clone_to_program` writes for a label at byte `slot` of the
      builder's array once `ignored` marker bytes have been dropped: both truncated to
      `u8`, subtracted modulo 256. */
  function LabelAddress(slot: nat, ignored: nat): (r: Byte)
    ensures (r + ignored) % 256 == slot % 256
  {
    (slot % 256 - ignored) % 256
  }

  /** The bytes `clone_to_program` produces from `code`, with `ignored` bytes already
      counted: each LBL byte and the index after it become one byte, the label's
      slot truncated to `u8` minus the running count (itself included) of two bytes
      per marker, modulo 256; every other byte is copied. */
  function Relocate(code: seq<Byte>, labels: seq<nat>, ignored: nat): seq<Byte>
    requires |labels| == LABEL_SLOTS && WellMarked(code)
    decreases |code|
  {
    if code == [] then []
    else if code[0] == LBL_BYTE then
      [LabelAddress(labels[code[1]], ignored + 2)] + Relocate(code[2..], labels, ignored + 2)
    else [code[0]] + Relocate(code[1..], labels, ignored)
  }

  /** Proof helpers, not part of the model: regrouping a concatenation, stated once so
      that the solver need not rediscover it element by element inside larger proofs. */
  lemma AppendAssociative(a: seq<Byte>, b: seq<Byte>, c: seq<Byte>)
    ensures a + (b + c) == (a + b) + c
  {
  }

  lemma AppendPair(a: seq<Byte>, x: Byte, y: Byte)
    ensures a + [x] + [y] == a + [x, y]
  {
  }

  /** One step of the relocation pass, on the byte at index `i`. */
  lemma RelocateAt(code: seq<Byte>, labels: seq<nat>, i: nat, ignored: nat)
    requires |labels| == LABEL_SLOTS && i < |code| && WellMarked(code[i..])
    ensures code[i] == LBL_BYTE ==>
      && i + 2 <= |code| && WellMarked(code[i + 2..])
      && Relocate(code[i..], labels, ignored) ==
         [LabelAddress(labels[code[i + 1]], ignored + 2)] + Relocate(code[i + 2..], labels, ignored + 2)
    ensures code[i] != LBL_BYTE ==>
      && WellMarked(code[i + 1..])
      && Relocate(code[i..], labels, ignored) == [code[i]] + Relocate(code[i + 1..], labels, ignored)
  {
    assert code[i..][1..] == code[i + 1..];
    if code[i] == LBL_BYTE {
      assert code[i..][2..] == code[i + 2..];
    }
  }

  /** The program is shorter than the builder's array by one byte per marker. */
  lemma {:induction false} RelocateSize(code: seq<Byte>, labels: seq<nat>, ignored: nat)
    requires |labels| == LABEL_SLOTS && WellMarked(code)
    ensures |Relocate(code, labels, ignored)| == |code| - Markers(code)
    ensures Markers(code) <= |code| / 2
    decreases |code|
  {
    if code != [] {
      if code[0] == LBL_BYTE {
        RelocateSize(code[2..], labels, ignored + 2);
      } else {
        RelocateSize(code[1..], labels, ignored);
      }
    }
  }

  /** Without an LBL byte the pass is a plain copy. */
  lemma {:induction false} RelocateWithoutMarkers(code: seq<Byte>, labels: seq<nat>, ignored: nat)
    requires |labels| == LABEL_SLOTS
    requires MarkerFree(code)
    ensures WellMarked(code) && Markers(code) == 0
    ensures Relocate(code, labels, ignored) == code
    decreases |code|
  {
    if code != [] {
      RelocateWithoutMarkers(code[1..], labels, ignored);
    }
  }

  /** The pass works piecewise: after a well-marked prefix, the rest is relocated with
      the prefix's markers counted. */
  lemma {:induction false} RelocateAppend(a: seq<Byte>, c: seq<Byte>, labels: seq<nat>, ignored: nat)
    requires |labels| == LABEL_SLOTS && WellMarked(a)
    ensures WellMarked(a + c) <==> WellMarked(c)
    ensures WellMarked(c) ==>
      && Markers(a + c) == Markers(a) + Markers(c)
      && Relocate(a + c, labels, ignored) ==
         Relocate(a, labels, ignored) + Relocate(c, labels, ignored + 2 * Markers(a))
    decreases |a|
  {
    if a == [] {
      assert a + c == c;
    } else if a[0] == LBL_BYTE {
      assert (a + c)[2..] == a[2..] + c;
      RelocateAppend(a[2..], c, labels, ignored + 2);
    } else {
      assert (a + c)[1..] == a[1..] + c;
      RelocateAppend(a[1..], c, labels, ignored);
    }
  }

  /** Emitting marker-free bytes `tail` after well-marked code appends them unchanged
      to the relocated program. */
  lemma RelocatePlainTail(code: seq<Byte>, tail: seq<Byte>, labels: seq<nat>)
    requires |labels| == LABEL_SLOTS && WellMarked(code) && MarkerFree(tail)
    ensures WellMarked(code + tail)
    ensures Relocate(code + tail, labels, 0) == Relocate(code, labels, 0) + tail
  {
    RelocateWithoutMarkers(tail, labels, 2 * Markers(code));
    RelocateAppend(code, tail, labels, 0);
  }

  /** A byte other than LBL appended to well-marked code is copied. */
  lemma RelocatePlainByte(code: seq<Byte>, v: Byte, labels: seq<nat>)
    requires |labels| == LABEL_SLOTS && WellMarked(code) && v != LBL_BYTE
    ensures WellMarked(code + [v])
    ensures Markers(code + [v]) == Markers(code)
    ensures Relocate(code + [v], labels, 0) == Relocate(code, labels, 0) + [v]
  {
    RelocateWithoutMarkers([v], labels, 2 * Markers(code));
    RelocateAppend(code, [v], labels, 0);
  }

  /** A marker and its index become one address byte. */
  lemma RelocateMarker(t: Byte, labels: seq<nat>, k: nat)
    requires |labels| == LABEL_SLOTS
    ensures WellMarked([LBL_BYTE, t]) && Markers([LBL_BYTE, t]) == 1
    ensures Relocate([LBL_BYTE, t], labels, k) == [LabelAddress(labels[t], k + 2)]
  {
    assert [LBL_BYTE, t][2..] == [];
  }

  /** A marker and its index after well-marked code holding `m` markers become the
      label's slot minus 2 * (m + 1), modulo 256. */
  lemma RelocateMarkedPair(code: seq<Byte>, t: Byte, labels: seq<nat>)
    requires |labels| == LABEL_SLOTS && WellMarked(code)
    ensures WellMarked(code + [LBL_BYTE] + [t])
    ensures Markers(code + [LBL_BYTE] + [t]) == Markers(code) + 1
    ensures Relocate(code + [LBL_BYTE] + [t], labels, 0) ==
            Relocate(code, labels, 0) + [LabelAddress(labels[t], 2 * (Markers(code) + 1))]
  {
    var pair := [LBL_BYTE, t];
    AppendPair(code, LBL_BYTE, t);
    RelocateMarker(t, labels, 2 * Markers(code));
    RelocateAppend(code, pair, labels, 0);
  }

  /** An opcode other than LBL comes out of the pass as emitted. */
  lemma EmitInstructionRelocates(b: Builder, op: Opcode, labels: seq<nat>)
    requires |labels| == LABEL_SLOTS && WellMarked(b.code) && op != LBL
    ensures WellMarked(EmitInstruction(b, op).code)
    ensures Relocate(EmitInstruction(b, op).code, labels, 0) == Relocate(b.code, labels, 0) + [Encode(op)]
  {
    RelocatePlainByte(b.code, Encode(op), labels);
  }

  /** A push of a byte other than 0xFE comes out of the pass as emitted. */
  lemma EmitPushRelocates(b: Builder, v: Byte, labels: seq<nat>)
    requires |labels| == LABEL_SLOTS && WellMarked(b.code) && v != LBL_BYTE
    ensures WellMarked(EmitPush(b, v).code)
    ensures Relocate(EmitPush(b, v).code, labels, 0) == Relocate(b.code, labels, 0) + [Encode(PSH)] + [v]
  {
    RelocatePlainByte(b.code, Encode(PSH), labels);
    RelocatePlainByte(b.code + [Encode(PSH)], v, labels);
  }

  /** A string without the byte 0xFE comes out of the pass as emitted: the opcode, its
      bytes and the terminator. */
  lemma EmitStrRelocates(b: Builder, s: Key, labels: seq<nat>)
    requires |labels| == LABEL_SLOTS && WellMarked(b.code) && MarkerFree(s)
    ensures WellMarked(EmitStr(b, s).code)
    ensures Relocate(EmitStr(b, s).code, labels, 0) == Relocate(b.code, labels, 0) + [Encode(STR)] + s + [NUL]
  {
    var c := b.code + [Encode(STR)];
    RelocatePlainByte(b.code, Encode(STR), labels);
    RelocatePlainTail(c, s, labels);
    RelocatePlainByte(c + s, NUL, labels);
  }

  /** A pushed byte 0xFE is mistaken for a label marker: alone at the end it leaves the
      array ill-marked (the pass would read past it), and followed by any byte it
      swallows that byte as a label index. */
  lemma PushOfMarkerByte(b: Builder, next: Byte, labels: seq<nat>)
    requires |labels| == LABEL_SLOTS && WellMarked(b.code)
    ensures !WellMarked(EmitPush(b, LBL_BYTE).code)
    ensures WellMarked(EmitByte(EmitPush(b, LBL_BYTE), next).code)
    ensures |Relocate(EmitByte(EmitPush(b, LBL_BYTE), next).code, labels, 0)| ==
            |Relocate(b.code, labels, 0)| + 2
  {
    var c := b.code + [Encode(PSH)];
    RelocatePlainByte(b.code, Encode(PSH), labels);
    RelocateAppend(c, [LBL_BYTE], labels, 0);
    RelocateMarkedPair(c, next, labels);
  }

  /** A jump to label `t` emitted after well-marked code comes out as PSH, the
      relocated address byte, JMP: the label's slot minus 2 * (m + 1) modulo 256,
      where m counts the markers emitted before it. */
  lemma EmitJumpRelocates(b: Builder, t: Byte, labels: seq<nat>)
    requires |labels| == LABEL_SLOTS && WellMarked(b.code)
    ensures WellMarked(EmitJump(b, t).code)
    ensures Relocate(EmitJump(b, t).code, labels, 0) == Relocate(b.code, labels, 0) +
      [Encode(PSH)] + [LabelAddress(labels[t], 2 * (Markers(b.code) + 1))] + [Encode(JMP)]
  {
    EmitPushLabelRelocates(b, t, labels);
    EmitInstructionRelocates(EmitPushLabel(b, t), JMP, labels);
    assert EmitJump(b, t) == EmitInstruction(EmitPushLabel(b, t), JMP);
  }

  /** The same for `emit_jump_if_true`, ending in JPT. */
  lemma EmitJumpIfTrueRelocates(b: Builder, t: Byte, labels: seq<nat>)
    requires |labels| == LABEL_SLOTS && WellMarked(b.code)
    ensures WellMarked(EmitJumpIfTrue(b, t).code)
    ensures Relocate(EmitJumpIfTrue(b, t).code, labels, 0) == Relocate(b.code, labels, 0) +
      [Encode(PSH)] + [LabelAddress(labels[t], 2 * (Markers(b.code) + 1))] + [Encode(JPT)]
  {
    EmitPushLabelRelocates(b, t, labels);
    EmitInstructionRelocates(EmitPushLabel(b, t), JPT, labels);
    assert EmitJumpIfTrue(b, t) == EmitInstruction(EmitPushLabel(b, t), JPT);
  }

  /** The same for a label push, which ends after the address byte. */
  lemma EmitPushLabelRelocates(b: Builder, t: Byte, labels: seq<nat>)
    requires |labels| == LABEL_SLOTS && WellMarked(b.code)
    ensures WellMarked(EmitPushLabel(b, t).code)
    ensures Relocate(EmitPushLabel(b, t).code, labels, 0) == Relocate(b.code, labels, 0) +
      [Encode(PSH)] + [LabelAddress(labels[t], 2 * (Markers(b.code) + 1))]
  {
    RelocateByteAndMarker(b.code, Encode(PSH), t, labels, EmitPushLabel(b, t).code);
  }

  /** A plain byte and a marked label index after well-marked code. */
  lemma RelocateByteAndMarker(code: seq<Byte>, v: Byte, t: Byte, labels: seq<nat>, full: seq<Byte>)
    requires |labels| == LABEL_SLOTS && WellMarked(code) && v != LBL_BYTE
    requires full == code + [v] + [LBL_BYTE] + [t]
    ensures WellMarked(full)
    ensures Relocate(full, labels, 0) ==
      Relocate(code, labels, 0) + [v] + [LabelAddress(labels[t], 2 * (Markers(code) + 1))]
  {
    RelocatePlainByte(code, v, labels);
    RelocateMarkedPair(code + [v], t, labels);
  }
}
