/** What the assembler of src/assembler.c guarantees, proved about module Assembly:
    how tokens are cut (comments, white space, the end of the text), how label names
    are bound to ids by definitions and references, how numeric and string operands
    are read, and which ids a label name gets. */
module AssemblyProperties {
  import opened Words
  import opened CStrings
  import opened Results
  import opened Opcodes
  import opened Numerals
  import opened HashTables
  import opened Builders
  import opened Assembly

  // ---- Tokens ----

  /** A character that neither ends a token nor starts a comment. */
  predicate Plain(c: Byte) {
    !IsSpace(c) && c != COLON && c != HASH
  }

  /** `assemble_ignore_spaces` passes over white space only. */
  lemma {:induction false} IgnoreSpacesSkipsBlanks(code: seq<Byte>, pos: nat)
    ensures forall i | pos <= i < IgnoreSpaces(code, pos) :: IsSpace(code[i])
    decreases |code| - pos
  {
    if pos < |code| && IsSpace(code[pos]) {
      IgnoreSpacesSkipsBlanks(code, pos + 1);
    }
  }

  /** The word-reading loop passes over non-blank characters only. */
  lemma {:induction false} WordEndSpan(code: seq<Byte>, pos: nat)
    ensures forall i | pos <= i < WordEnd(code, pos) :: !IsSpace(code[i])
    decreases |code| - pos
  {
    if pos < |code| && !IsSpace(code[pos]) {
      WordEndSpan(code, pos + 1);
    }
  }

  /** A comment stops on the first newline after the `#`. */
  lemma {:induction false} CommentSpan(code: seq<Byte>, pos: nat)
    requires pos < |code|
    ensures forall i | pos < i < Comment(code, pos).0 :: code[i] != LF
    decreases |code| - pos
  {
    if pos + 1 < |code| && code[pos + 1] != LF {
      CommentSpan(code, pos + 1);
    }
  }

  // Proof helpers, not part of the model: two sequence identities, kept apart from
  // the scans that use them so that the solver meets them once.

  lemma AppendEmpty(w: seq<Byte>)
    ensures [] + w == w && w + [] == w
  {
  }

  lemma AppendHead(buf: seq<Byte>, w: seq<Byte>)
    requires w != []
    ensures buf + [w[0]] + w[1..] == buf + w
  {
    assert [w[0]] + w[1..] == w;
  }

  /** The text reads `w` from `pos` on. */
  predicate Spells(code: seq<Byte>, pos: nat, w: seq<Byte>)
    decreases w
  {
    if w == [] then pos <= |code| else pos < |code| && code[pos] == w[0] && Spells(code, pos + 1, w[1..])
  }

  /** The text reads `w` from `pos` on, and every byte of `w` is plain. */
  predicate PlainText(code: seq<Byte>, pos: nat, w: seq<Byte>)
    decreases w
  {
    if w == [] then pos <= |code|
    else pos < |code| && code[pos] == w[0] && Plain(w[0]) && PlainText(code, pos + 1, w[1..])
  }

  lemma {:induction false} SpellsSlice(code: seq<Byte>, pos: nat, w: seq<Byte>)
    requires Spells(code, pos, w)
    ensures pos + |w| <= |code| && code[pos..pos + |w|] == w
    decreases w
  {
    if w != [] {
      SpellsSlice(code, pos + 1, w[1..]);
      assert code[pos..pos + |w|] == [code[pos]] + code[pos + 1..pos + |w|];
      assert w == [w[0]] + w[1..];
    }
  }

  lemma {:induction false} SpellsSplit(code: seq<Byte>, pos: nat, a: seq<Byte>, b: seq<Byte>)
    requires Spells(code, pos, a + b)
    ensures Spells(code, pos, a) && Spells(code, pos + |a|, b)
    decreases a
  {
    if a == [] {
      assert a + b == b;
    } else {
      assert (a + b)[1..] == a[1..] + b;
      SpellsSplit(code, pos + 1, a[1..], b);
    }
  }

  /** A comment that reaches a newline behaves as that newline: the loop acts on the
      newline, which ends the token in the buffer. */
  lemma CommentToNewline(names: OpcodeNames, code: seq<Byte>, s: Asm, buf: seq<Byte>, q: nat)
    requires Good(s) && s.pos < q < |code| && code[s.pos] == HASH && code[q] == LF
    requires forall i | s.pos < i < q :: code[i] != LF
    ensures Tick(names, code, s, buf) == Tick(names, code, s.(pos := q), buf)
    ensures Tick(names, code, s, buf) == EndToken(names, code, s.(pos := q), buf)
  {
    CommentSpan(code, s.pos);
    assert Comment(code, s.pos).0 == q;
  }

  /** A comment that runs to the end of the text without a newline leaves its last
      character in the token buffer (unless that is white space or a colon), and the
      token so extended is resolved at the end. */
  lemma CommentAtEnd(names: OpcodeNames, code: seq<Byte>, s: Asm, buf: seq<Byte>)
    requires Good(s) && s.pos < |code| && code[s.pos] == HASH
    requires forall i | s.pos < i < |code| :: code[i] != LF
    requires !IsSpace(code[|code| - 1]) && code[|code| - 1] != COLON
    ensures Tick(names, code, s, buf) == Ok((s.(pos := |code| + 1), buf + [code[|code| - 1]]))
    ensures Scan(names, code, s, buf) ==
      ResolveInstruction(names, code, s.(pos := |code| + 1), buf + [code[|code| - 1]])
  {
    CommentSpan(code, s.pos);
    assert Comment(code, s.pos).0 == |code|;
    var next := Tick(names, code, s, buf).value;
    assert Scan(names, code, s, buf) == Scan(names, code, next.0, next.1);
  }

  /** A plain character is appended to the token. */
  lemma PlainStep(names: OpcodeNames, code: seq<Byte>, s: Asm, buf: seq<Byte>)
    requires Good(s) && s.pos < |code| && Plain(code[s.pos])
    ensures Scan(names, code, s, buf) == Scan(names, code, s.(pos := s.pos + 1), buf + [code[s.pos]])
  {
    assert NextChar(code, s.pos) == (s.pos, code[s.pos]);
    assert Tick(names, code, s, buf) == Ok((s.(pos := s.pos + 1), buf + [code[s.pos]]));
  }

  /** The first character of a plain text moves from the code to the token. */
  lemma PlainHead(names: OpcodeNames, code: seq<Byte>, s: Asm, buf: seq<Byte>, w: seq<Byte>)
    requires Good(s) && PlainText(code, s.pos, w) && w != []
    ensures Good(s.(pos := s.pos + 1)) && PlainText(code, s.pos + 1, w[1..])
    ensures Scan(names, code, s, buf) == Scan(names, code, s.(pos := s.pos + 1), buf + [w[0]])
  {
    PlainStep(names, code, s, buf);
  }

  /** Plain characters are appended to the token one by one. */
  lemma TokenAccumulates(names: OpcodeNames, code: seq<Byte>, s: Asm, buf: seq<Byte>, w: seq<Byte>)
    requires Good(s) && PlainText(code, s.pos, w)
    ensures Scan(names, code, s, buf) == Scan(names, code, s.(pos := s.pos + |w|), buf + w)
  {
    AccumulatesInto(names, code, s, buf, w, s.(pos := s.pos + |w|), buf + w);
  }

  /** TokenAccumulates, with the state and token it ends in fixed up front so that every
      step of the induction speaks of the same final `Scan`. */
  lemma {:induction false} AccumulatesInto(names: OpcodeNames, code: seq<Byte>, s: Asm, buf: seq<Byte>, w: seq<Byte>,
                                           last: Asm, token: seq<Byte>)
    requires Good(s) && PlainText(code, s.pos, w)
    requires last == s.(pos := s.pos + |w|) && token == buf + w
    ensures Scan(names, code, s, buf) == Scan(names, code, last, token)
    decreases w
  {
    if w == [] {
      assert token == buf;
      assert last == s;
    } else {
      PlainHead(names, code, s, buf, w);
      AppendHead(buf, w);
      AccumulatesInto(names, code, s.(pos := s.pos + 1), buf + [w[0]], w[1..], last, token);
    }
  }

  /** Read from an empty buffer, a plain token is pending in full once the cursor
      reaches its end. */
  lemma TokenPending(names: OpcodeNames, code: seq<Byte>, s: Asm, token: seq<Byte>)
    requires Good(s) && PlainText(code, s.pos, token)
    ensures Scan(names, code, s, []) == Scan(names, code, s.(pos := s.pos + |token|), token)
  {
    AppendEmpty(token);
    TokenAccumulates(names, code, s, [], token);
  }

  /** White space with no token pending changes nothing but the cursor: empty
      tokens are never resolved. */
  lemma {:induction false} SpacesSkipped(names: OpcodeNames, code: seq<Byte>, s: Asm)
    requires Good(s)
    ensures Scan(names, code, s, []) == Scan(names, code, s.(pos := IgnoreSpaces(code, s.pos)), [])
    decreases |code| - s.pos
  {
    if s.pos < |code| && IsSpace(code[s.pos]) {
      assert Tick(names, code, s, []) == Ok((s.(pos := s.pos + 1), []));
      SpacesSkipped(names, code, s.(pos := s.pos + 1));
    } else {
      assert s.(pos := s.pos) == s;
    }
  }

  /** White space after a pending token resolves it and goes on with an empty
      buffer after the white space. */
  lemma SeparatorResolves(names: OpcodeNames, code: seq<Byte>, s: Asm, token: seq<Byte>)
    requires Good(s) && s.pos < |code| && IsSpace(code[s.pos]) && token != []
    ensures var r := ResolveInstruction(names, code, s, token);
      Scan(names, code, s, token) ==
        if r.Err? then Err(r.error) else Scan(names, code, r.value.(pos := r.value.pos + 1), [])
  {
    assert NextChar(code, s.pos) == (s.pos, code[s.pos]);
    var r := ResolveInstruction(names, code, s, token);
    if r.Err? {
      assert Tick(names, code, s, token) == Err(r.error);
    } else {
      assert Tick(names, code, s, token) == Ok((r.value.(pos := r.value.pos + 1), []));
    }
  }

  /** A token still pending when the cursor reaches the end of the text is resolved
      there, as the call after the loop does. */
  lemma PendingAtEnd(names: OpcodeNames, code: seq<Byte>, s: Asm, buf: seq<Byte>)
    requires Good(s) && s.pos == |code| && buf != []
    ensures Scan(names, code, s, buf) == ResolveInstruction(names, code, s.(pos := |code|), buf)
  {
    assert s.(pos := |code|) == s;
  }

  /** The character right after a `:` is never looked at: the cursor moves past it
      before the loop's own increment. */
  lemma ColonSkipsNext(names: OpcodeNames, code: seq<Byte>, s: Asm, buf: seq<Byte>, x: Byte)
    requires Good(s) && s.pos + 1 < |code| && code[s.pos] == COLON
    ensures Tick(names, code, s, buf) == Tick(names, code[s.pos + 1 := x], s, buf)
    ensures Tick(names, code, s, buf).Ok? ==> Tick(names, code, s, buf).value.0.pos == s.pos + 2
  {
    var other := code[s.pos + 1 := x];
    assert NextChar(other, s.pos) == NextChar(code, s.pos);
  }

  // ---- Labels ----

  /** The id a label name stands for in state `s`: the value in the bucket
      `find_entry` returns (which may hold another name), or else the id
      `create_label` hands out next. */
  function LabelId(s: Asm, name: Key): Byte
    requires Good(s)
  {
    match Find(s.labels, name)
    case Some(i) => LowByte(s.labels.buckets[i].value)
    case None => s.builder.currentLabel
  }

  /** Writing a value into a taken bucket remaps that bucket's name alone. */
  lemma SetValueLookup(t: Table, i: nat, v: U64)
    requires Placed(t) && i < |t.buckets| && t.buckets[i].taken
    ensures Placed(SetValue(t, i, v))
    ensures forall k: Key :: Lookup(SetValue(t, i, v), k) == if k == t.buckets[i].key then Some(v) else Lookup(t, k)
  {
    var t' := SetValue(t, i, v);
    forall k: Key
      ensures Lookup(t', k) == if k == t.buckets[i].key then Some(v) else Lookup(t, k)
    {
      if Home(k, |t.buckets|) == i && k != t.buckets[i].key {
        assert Lookup(t, k) == None;
      }
    }
  }

  /** A name found by `find_entry` is defined with the id in its bucket: the table
      and the id counter stay as they are, and only that id's slot is linked. */
  lemma KnownLabelDefined(s: Asm, name: Key)
    requires Good(s) && Find(s.labels, name).Some?
    ensures DefineLabel(s, name) == Ok(s.(builder := LinkLabel(s.builder, LabelId(s, name))))
  {
  }

  /** A name found by `find_entry` is referenced with the id in its bucket, and the
      table stays as it is. */
  lemma KnownLabelReferenced(code: seq<Byte>, s: Asm)
    requires Good(s) && Find(s.labels, CStr(Word(code, s.pos))).Some?
    ensures PushLabel(code, s) ==
      Ok(Asm(WordEnd(code, s.pos), s.labels, EmitPushLabel(s.builder, LabelId(s, CStr(Word(code, s.pos))))))
  {
  }

  /** A new name is defined with the next id from `create_label` and inserted with
      it: the table then maps the name to that id and every other name as before, and
      the id's slot is linked at the number of bytes emitted so far.  Only the
      insertion can fail. */
  lemma NewLabelDefined(s: Asm, name: Key)
    requires Good(s) && Placed(s.labels) && Find(s.labels, name).None?
    ensures var r := DefineLabel(s, name); var id := s.builder.currentLabel;
      r.Ok? ==>
        && r.value.builder == LinkLabel(CreateLabel(s.builder).1, id)
        && Placed(r.value.labels)
        && Lookup(r.value.labels, name) == Some(id)
        && forall k: Key :: k != name ==> Lookup(r.value.labels, k) == Lookup(s.labels, k)
    ensures DefineLabel(s, name).Err? <==> Insert(s.labels, name, s.builder.currentLabel).Err?
  {
    if Insert(s.labels, name, s.builder.currentLabel).Ok? {
      InsertLookup(s.labels, name, s.builder.currentLabel);
    }
  }

  /** A new name is referenced with the next id from `create_label`: it is inserted
      with 0 and its bucket then set to the id, so the table maps it to that id and
      every other name as before.  Only the insertion can fail. */
  lemma NewLabelReferenced(code: seq<Byte>, s: Asm)
    requires Good(s) && Placed(s.labels) && Find(s.labels, CStr(Word(code, s.pos))).None?
    ensures var name := CStr(Word(code, s.pos)); var r := PushLabel(code, s); var id := s.builder.currentLabel;
      r.Ok? ==>
        && r.value.pos == WordEnd(code, s.pos)
        && r.value.builder == EmitPushLabel(CreateLabel(s.builder).1, id)
        && Placed(r.value.labels)
        && Lookup(r.value.labels, name) == Some(id)
        && forall k: Key :: k != name ==> Lookup(r.value.labels, k) == Lookup(s.labels, k)
    ensures PushLabel(code, s).Err? <==> Insert(s.labels, CStr(Word(code, s.pos)), 0).Err?
  {
    var name := CStr(Word(code, s.pos));
    if Insert(s.labels, name, 0).Ok? {
      InsertLookup(s.labels, name, 0);
      var (t1, i) := Insert(s.labels, name, 0).value;
      SetValueLookup(t1, i, s.builder.currentLabel);
    }
  }

  /** A name bound to the id a new name got keeps standing for that id: `find_entry`
      finds it, with the id in its bucket. */
  lemma BoundNameKeepsId(s: Asm, name: Key, later: Asm)
    requires Good(s) && Find(s.labels, name).None?
    requires Good(later) && Placed(later.labels)
    requires Lookup(later.labels, name) == Some(s.builder.currentLabel)
    ensures Find(later.labels, name).Some? && LabelId(later, name) == LabelId(s, name)
  {
    FindAndLookup(later.labels, name);
  }

  /** A definition followed by a reference to the same name, with the table the
      definition left: the reference pushes the id the definition linked. */
  lemma DefineThenReference(s: Asm, name: Key, code: seq<Byte>, later: Asm)
    requires Good(s) && Placed(s.labels) && DefineLabel(s, name).Ok?
    requires Good(later) && later.labels == DefineLabel(s, name).value.labels
    requires CStr(Word(code, later.pos)) == name
    ensures DefineLabel(s, name).value.builder.labels[LabelId(s, name)] == |s.builder.code|
    ensures PushLabel(code, later) ==
      Ok(Asm(WordEnd(code, later.pos), later.labels, EmitPushLabel(later.builder, LabelId(s, name))))
  {
    if Find(s.labels, name).None? {
      NewLabelDefined(s, name);
      BoundNameKeepsId(s, name, later);
    } else {
      KnownLabelDefined(s, name);
    }
    KnownLabelReferenced(code, later);
  }

  /** A reference followed by a definition of the same name, with the table the
      reference left: the definition links the id the reference pushed. */
  lemma ReferenceThenDefine(code: seq<Byte>, s: Asm, later: Asm)
    requires Good(s) && Placed(s.labels) && PushLabel(code, s).Ok?
    requires Good(later) && later.labels == PushLabel(code, s).value.labels
    ensures var name := CStr(Word(code, s.pos));
      && PushLabel(code, s).value.builder.code == EmitPushLabel(s.builder, LabelId(s, name)).code
      && DefineLabel(later, name) == Ok(later.(builder := LinkLabel(later.builder, LabelId(s, name))))
  {
    var name := CStr(Word(code, s.pos));
    if Find(s.labels, name).None? {
      NewLabelReferenced(code, s);
      BoundNameKeepsId(s, name, later);
    } else {
      KnownLabelReferenced(code, s);
    }
    KnownLabelDefined(later, name);
  }

  // ---- Operands ----

  /** A word of `n` characters that white space or the end of the text follows ends
      where the word-reading loop stops. */
  lemma {:induction false} WordEndOf(code: seq<Byte>, pos: nat, n: nat)
    requires pos + n <= |code|
    requires forall i | pos <= i < pos + n :: !IsSpace(code[i])
    requires pos + n < |code| ==> IsSpace(code[pos + n])
    ensures WordEnd(code, pos) == pos + n
    decreases n
  {
    if n > 0 {
      WordEndOf(code, pos + 1, n - 1);
    }
  }

  /** A numeric operand is the word at the cursor, converted by `strtoull`; the
      cursor stops on the white space after it. */
  lemma NumericWord(code: seq<Byte>, s: Asm, w: seq<Byte>)
    requires Good(s) && w != [] && Spells(code, s.pos, w)
    requires forall i | 0 <= i < |w| :: w[i] != NUL && !IsSpace(w[i])
    requires s.pos + |w| < |code| ==> IsSpace(code[s.pos + |w|])
    ensures PushNumber(code, s) == Ok(Asm(s.pos + |w|, s.labels, EmitPush(s.builder, StrToULL(w) % 256)))
  {
    WordAt(code, s.pos, w);
    CStrOfKey(w);
    assert U64Literal(code, s.pos) == (StrToULL(w), s.pos + |w|);
  }

  /** The word-reading loop at `p` reads exactly a word that white space or the end
      of the text follows. */
  lemma WordAt(code: seq<Byte>, p: nat, w: seq<Byte>)
    requires w != [] && Spells(code, p, w)
    requires forall i | 0 <= i < |w| :: !IsSpace(w[i])
    requires p + |w| < |code| ==> IsSpace(code[p + |w|])
    ensures WordEnd(code, p) == p + |w| && Word(code, p) == w
  {
    SpellsSlice(code, p, w);
    forall i | p <= i < p + |w|
      ensures !IsSpace(code[i])
    {
      assert code[i] == code[p..p + |w|][i - p];
    }
    WordEndOf(code, p, |w|);
  }

  /** A numeric operand written in decimal, as DBG prints a word, is pushed as the
      word's low byte, and the cursor stops after it. */
  lemma {:induction false} PushDecimal(code: seq<Byte>, s: Asm, n: U64)
    requires Good(s) && Delimited(code, s.pos, Decimal(n))
    ensures PushNumber(code, s) == Ok(Asm(s.pos + |Decimal(n)|, s.labels, EmitPush(s.builder, n % 256)))
  {
    DecimalIsWord(n);
    NumericWordOf(code, s, Decimal(n), n);
  }

  /** The text reads `w` from `pos` on, and `w` is followed by white space or by the
      end of the text. */
  predicate Delimited(code: seq<Byte>, pos: nat, w: seq<Byte>) {
    Spells(code, pos, w) && (pos + |w| < |code| ==> IsSpace(code[pos + |w|]))
  }

  /** A non-empty word, holding neither NUL nor white space, that `strtoull` reads
      as `v`. */
  predicate NumberText(w: seq<Byte>, v: U64) {
    w != [] && (forall i | 0 <= i < |w| :: w[i] != NUL && !IsSpace(w[i])) && StrToULL(w) == v
  }

  /** Decimal text is such a word for its value. */
  lemma DecimalIsWord(n: U64)
    ensures NumberText(Decimal(n), n)
  {
    StrToULLOfDecimal(n);
  }

  /** `NumericWord` for a word whose value is already known. */
  lemma NumericWordOf(code: seq<Byte>, s: Asm, w: seq<Byte>, v: U64)
    requires Good(s) && NumberText(w, v) && Delimited(code, s.pos, w)
    ensures PushNumber(code, s) == Ok(Asm(s.pos + |w|, s.labels, EmitPush(s.builder, v % 256)))
  {
    NumericWord(code, s, w);
  }

  /** An operand that does not start with `'` is numeric: PSH then reads it at the
      first non-blank character. */
  lemma NumberOperand(code: seq<Byte>, s: Asm, d: seq<Byte>)
    requires Good(s) && d != [] && d[0] != APOSTROPHE
    requires Spells(code, IgnoreSpaces(code, s.pos), d)
    ensures Push(code, s) == PushNumber(code, s.(pos := IgnoreSpaces(code, s.pos)))
  {
  }

  /** How a string is written inside a literal: `"` and `\` behind a backslash, LF
      and CR as `\n` and `\r`, any other byte as itself. */
  function EscapeByte(c: Byte): (r: seq<Byte>)
    ensures 1 <= |r| <= 2
  {
    if c == QUOTE then [BACKSLASH, QUOTE]
    else if c == BACKSLASH then [BACKSLASH, BACKSLASH]
    else if c == LF then [BACKSLASH, LOWER_N]
    else if c == CR then [BACKSLASH, LOWER_R]
    else [c]
  }

  function Escaped(t: seq<Byte>): (r: seq<Byte>)
    ensures |r| >= |t|
  {
    if t == [] then [] else EscapeByte(t[0]) + Escaped(t[1..])
  }

  /** One escaped byte at `pos` is read back as that byte. */
  lemma StringBodyStep(code: seq<Byte>, pos: nat, acc: seq<Byte>, c: Byte)
    requires var e := EscapeByte(c); Spells(code, pos, e) && pos + |e| < |code|
    ensures StringBody(code, pos, acc) == StringBody(code, pos + |EscapeByte(c)|, acc + [c])
  {
    var e := EscapeByte(c);
    assert code[pos] == e[0] != QUOTE;
    if |e| == 2 {
      assert Spells(code, pos + 1, e[1..]);
      assert code[pos + 1] == e[1];
    }
    assert Unescape(code, pos) == Ok((c, pos + |e| - 1));
  }

  /** The body of a literal written with `Escaped` and closed by a quote reads back
      exactly the bytes that were escaped. */
  lemma {:induction false} StringBodyOfEscaped(code: seq<Byte>, pos: nat, acc: seq<Byte>, t: seq<Byte>)
    requires var e := Escaped(t); Spells(code, pos, e) && pos + |e| < |code| && code[pos + |e|] == QUOTE
    ensures StringBody(code, pos, acc) == Ok((acc + t, pos + |Escaped(t)| + 1))
    decreases t
  {
    if t != [] {
      var head := EscapeByte(t[0]);
      SpellsSplit(code, pos, head, Escaped(t[1..]));
      StringBodyStep(code, pos, acc, t[0]);
      StringBodyOfEscaped(code, pos + |head|, acc + [t[0]], t[1..]);
      AppendHead(acc, t);
    } else {
      AppendEmpty(acc);
    }
  }

  /** The round trip of a string through its literal: a quote, the escaped bytes and
      a closing quote read back those bytes, with the cursor after the closing quote. */
  lemma StringLiteralRoundTrip(code: seq<Byte>, pos: nat, t: seq<Byte>)
    requires var e := Escaped(t);
      && pos + 1 + |e| < |code| && code[pos] == QUOTE
      && Spells(code, pos + 1, e) && code[pos + 1 + |e|] == QUOTE
    ensures StringLiteral(code, pos) == Ok((t, pos + |Escaped(t)| + 2))
  {
    StringBodyOfEscaped(code, pos + 1, [], t);
    AppendEmpty(t);
  }

  /** A literal whose text has no closing quote is a fatal error. */
  lemma {:induction false} UnclosedLiteral(code: seq<Byte>, pos: nat, acc: seq<Byte>)
    requires pos <= |code|
    requires forall i | pos <= i < |code| :: code[i] != QUOTE
    ensures StringBody(code, pos, acc).Err?
    decreases |code| - pos
  {
    assert CharAt(code, pos) != QUOTE;
    var u := Unescape(code, pos);
    if u.Ok? && u.value.1 + 1 <= |code| {
      UnclosedLiteral(code, u.value.1 + 1, acc + [u.value.0]);
    }
  }

  /** A mnemonic other than PSH and STR is emitted as its one opcode byte, and the
      cursor stays where it was. */
  lemma PlainInstruction(names: OpcodeNames, code: seq<Byte>, s: Asm, token: seq<Byte>, op: Opcode)
    requires Good(s) && names(CStr(token)) == Some(op) && op != PSH && op != STR
    ensures ResolveInstruction(names, code, s, token) == Ok(s.(builder := EmitByte(s.builder, Encode(op))))
    ensures ResolveInstruction(names, code, s, token).value.builder.code == s.builder.code + [Encode(op)]
  {
  }
}
