/** What the line editor's buffer holds after any sequence of keys
    (llama.cpp/common/console.cpp:318-456; the encoding is that of section 3 of RFC 3629). */
module LineEditorLaws {
  import opened LineEditor

  /** A character that was typed, and the display width recorded for it. */
  datatype Typed = Typed(code: Code, width: nat)

  /** What a key does to the line. */
  datatype Stroke = Type(c: Typed) | Rub

  predicate Encodable(chars: seq<Typed>) {
    forall c :: c in chars ==> c.code <= MAX_CODE
  }

  function Encode(chars: seq<Typed>): seq<Byte> {
    if chars == [] then [] else Encode(chars[..|chars| - 1]) + Utf8(chars[|chars| - 1].code)
  }

  function Widths(chars: seq<Typed>): (r: seq<nat>)
    ensures |r| == |chars|
  {
    seq(|chars|, i requires 0 <= i < |chars| => chars[i].width)
  }

  /** The state that is in step with these characters: their encoding, and one width for each. */
  function InStep(chars: seq<Typed>): State {
    State(Encode(chars), Widths(chars))
  }

  /** The characters left after a backspace: without the last run of width 0 and the one before it. */
  function Erased(chars: seq<Typed>): (r: seq<Typed>)
    ensures |r| <= |chars| && r == chars[..|r|]
    ensures chars != [] ==> |r| < |chars| && forall i :: |r| < i < |chars| ==> chars[i].width == 0
    ensures r != [] ==> chars[|r|].width > 0
  {
    if chars == [] then []
    else
      var n := |chars| - 1;
      if chars[n].width == 0 then Erased(chars[..n]) else chars[..n]
  }

  // ----- the encoding -----

  function Bits(b: Byte, mask: Byte): Code {
    (b & mask) as Code
  }

  function Decoded2(a: Byte, b: Byte): Code {
    (Bits(a, 0x1F) << 6) | Bits(b, 0x3F)
  }

  function Decoded3(a: Byte, b: Byte, c: Byte): Code {
    (Bits(a, 0x0F) << 12) | (Bits(b, 0x3F) << 6) | Bits(c, 0x3F)
  }

  function Decoded4(a: Byte, b: Byte, c: Byte, d: Byte): Code {
    (Bits(a, 0x07) << 18) | (Bits(b, 0x3F) << 12) | (Bits(c, 0x3F) << 6) | Bits(d, 0x3F)
  }

  /** The code point of one encoded character (section 3 of RFC 3629). */
  function Decoded(bytes: seq<Byte>): Code {
    match |bytes|
    case 1 => bytes[0] as Code
    case 2 => Decoded2(bytes[0], bytes[1])
    case 3 => Decoded3(bytes[0], bytes[1], bytes[2])
    case 4 => Decoded4(bytes[0], bytes[1], bytes[2], bytes[3])
    case _ => WEOF
  }

  lemma Decodes2(ch: Code)
    requires ch <= 0x7FF
    ensures Decoded2(0xC0 | (((ch >> 6) & 0x1F) as Byte), 0x80 | ((ch & 0x3F) as Byte)) == ch
  {
  }

  lemma Decodes3(ch: Code)
    requires ch <= 0xFFFF
    ensures Decoded3(0xE0 | (((ch >> 12) & 0x0F) as Byte), 0x80 | (((ch >> 6) & 0x3F) as Byte),
                     0x80 | ((ch & 0x3F) as Byte)) == ch
  {
  }

  lemma Decodes4(ch: Code)
    requires ch <= MAX_CODE
    ensures Decoded4(0xF0 | (((ch >> 18) & 0x07) as Byte), 0x80 | (((ch >> 12) & 0x3F) as Byte),
                     0x80 | (((ch >> 6) & 0x3F) as Byte), 0x80 | ((ch & 0x3F) as Byte)) == ch
  {
  }

  /** Decoding undoes the encoding of every code point. */
  lemma Utf8Decodes(ch: Code)
    requires ch <= MAX_CODE
    ensures Decoded(Utf8(ch)) == ch
  {
    if ch <= 0x7F {
    } else if ch <= 0x7FF {
      Decodes2(ch);
    } else if ch <= 0xFFFF {
      Decodes3(ch);
    } else {
      Decodes4(ch);
    }
  }

  lemma EncodeLonger(chars: seq<Typed>, c: Typed)
    ensures Encode(chars + [c]) == Encode(chars) + Utf8(c.code) && Widths(chars + [c]) == Widths(chars) + [c.width]
  {
    assert (chars + [c])[..|chars|] == chars;
  }

  lemma SameLast(line: seq<Byte>, line': seq<Byte>, c: Code, d: Code)
    requires c <= MAX_CODE && d <= MAX_CODE && line + Utf8(c) == line' + Utf8(d)
    ensures line == line' && c == d
  {
    PopUndoesAppend(line, c);
    PopUndoesAppend(line', d);
    assert Utf8(c) == (line + Utf8(c))[|line|..] == (line' + Utf8(d))[|line|..] == Utf8(d);
    Utf8Decodes(c);
    Utf8Decodes(d);
  }

  predicate SameCodes(a: seq<Typed>, b: seq<Typed>) {
    |a| == |b| && forall i :: 0 <= i < |a| ==> a[i].code == b[i].code
  }

  lemma SameCodesLonger(a: seq<Typed>, b: seq<Typed>)
    requires a != [] && b != [] && SameCodes(a[..|a| - 1], b[..|b| - 1]) && a[|a| - 1].code == b[|b| - 1].code
    ensures SameCodes(a, b)
  {
    assert forall i :: 0 <= i < |a| - 1 ==> a[i] == a[..|a| - 1][i] && b[i] == b[..|b| - 1][i];
  }

  /** The buffer determines the characters. */
  lemma {:induction false} EncodingIsInjective(a: seq<Typed>, b: seq<Typed>)
    requires Encodable(a) && Encodable(b) && Encode(a) == Encode(b)
    ensures SameCodes(a, b)
  {
    EncodeNotEmpty(a);
    EncodeNotEmpty(b);
    if a != [] && b != [] {
      var a', b' := a[..|a| - 1], b[..|b| - 1];
      SameLast(Encode(a'), Encode(b'), a[|a| - 1].code, b[|b| - 1].code);
      EncodingIsInjective(a', b');
      SameCodesLonger(a, b);
    }
  }

  lemma EncodeNotEmpty(chars: seq<Typed>)
    requires Encodable(chars)
    ensures Encode(chars) == [] <==> chars == []
  {
  }

  // ----- backspace -----

  /** The characters that put bytes in the buffer. */
  function Written(chars: seq<Typed>): (r: seq<Typed>)
    ensures Encodable(r) && |r| <= |chars| && (|r| == |chars| <==> Encodable(chars))
  {
    if chars == [] then []
    else
      var init, last := chars[..|chars| - 1], chars[|chars| - 1];
      assert chars == init + [last];
      if last.code <= MAX_CODE then Written(init) + [last] else Written(init)
  }

  lemma {:induction false} EncodeOfWritten(chars: seq<Typed>)
    ensures Encode(Written(chars)) == Encode(chars)
  {
    if chars != [] {
      var init, last := chars[..|chars| - 1], chars[|chars| - 1];
      EncodeOfWritten(init);
      if last.code <= MAX_CODE {
        EncodeLonger(Written(init), last);
      }
    }
  }

  /** The characters written for a beginning come first, and the others are those written for the rest. */
  lemma {:induction false} WrittenOfConcat(a: seq<Typed>, b: seq<Typed>)
    ensures Written(a + b) == Written(a) + Written(b)
    decreases |b|
  {
    if b == [] {
      assert a + b == a;
    } else {
      var init, last := b[..|b| - 1], b[|b| - 1];
      assert (a + b)[..|a + b| - 1] == a + init;
      WrittenOfConcat(a, init);
    }
  }

  lemma PoppedIsShorter(chars: seq<Typed>)
    requires Encodable(chars)
    ensures Popped(Encode(chars)) == Encode(Dropped(chars, 1))
  {
    if chars != [] {
      PopUndoesAppend(Encode(chars[..|chars| - 1]), chars[|chars| - 1].code);
    }
  }

  function Dropped(chars: seq<Typed>, n: nat): seq<Typed> {
    if n < |chars| then chars[..|chars| - n] else []
  }

  lemma DroppedTwice(chars: seq<Typed>, n: nat)
    ensures Dropped(Dropped(chars, 1), n) == Dropped(chars, n + 1)
  {
  }

  lemma BackspaceTurn(line: seq<Byte>, chars: seq<Typed>)
    requires chars != []
    ensures var n := |chars| - 1;
            var next := State(Popped(line), Widths(chars[..n]));
            Backspace(State(line, Widths(chars))) == if chars[n].width == 0 then Backspace(next) else next
  {
    var n := |chars| - 1;
    assert Widths(chars)[..n] == Widths(chars[..n]);
  }

  /** A backspace drops as many characters from the buffer as it drops widths. */
  lemma {:induction false} BackspaceDrops(line: seq<Typed>, chars: seq<Typed>)
    requires Encodable(line)
    ensures var r := Erased(chars);
            Backspace(State(Encode(line), Widths(chars))) == State(Encode(Dropped(line, |chars| - |r|)), Widths(r))
    decreases |chars|
  {
    if chars != [] {
      var init := chars[..|chars| - 1];
      BackspaceTurn(Encode(line), chars);
      PoppedIsShorter(line);
      if chars[|chars| - 1].width == 0 {
        BackspaceDrops(Dropped(line, 1), init);
        DroppedTwice(line, |init| - |Erased(init)|);
      }
    } else {
      assert Dropped(line, 0) == line;
    }
  }

  /** Dropping `n` characters leaves exactly the text before the last |b| of them when |b| is `n`, or when there is no
      text before them. */
  lemma DroppedIs(a: seq<Typed>, b: seq<Typed>, n: nat)
    requires Encodable(a) && Encodable(b) && |b| <= n
    ensures Encode(Dropped(a + b, n)) == Encode(a) <==> |b| == n || Encode(a) == []
  {
    var left := Dropped(a + b, n);
    EncodeNotEmpty(a);
    if |left| == |a| {
      assert left == a;
    } else if Encode(left) == Encode(a) {
      EncodingIsInjective(left, a);
    }
  }

  /** A backspace takes out of the buffer exactly the characters whose widths it takes off the stack, if and only if
      these are code points up to 0x10FFFF or nothing is left in the buffer before them. */
  lemma BackspaceInStepIff(chars: seq<Typed>)
    ensures var r := Erased(chars);
            Backspace(InStep(chars)) == InStep(r) <==> Encodable(chars[|r|..]) || Encode(r) == []
  {
    var r := Erased(chars);
    var gone := chars[|r|..];
    assert chars == r + gone;
    EncodeOfWritten(chars);
    EncodeOfWritten(r);
    WrittenOfConcat(r, gone);
    BackspaceDrops(Written(chars), chars);
    DroppedIs(Written(r), Written(gone), |gone|);
  }

  /** With the code 0x110000 typed after "A", a backspace deletes the "A" and leaves its width on the stack. */
  lemma BackspaceOutOfStep()
    ensures var (st, _) := Edit([Key(0x41, 1), Key(0x110000, 1), Key(0x08, 0)], State([], []));
            st == State([], [1])
  {
    var first, second, third := Key(0x41, 1), Key(0x110000, 1), Key(0x08, 0);
    var keys := [first, second, third];
    assert keys[1..] == [second, third] && [second, third][1..] == [third] && [third][1..] == [];
    var a: seq<Byte> := [0x41];
    assert Utf8(0x41) == a;
    assert Utf8(0x110000) == [];
    var st := State(a, [1, 1]);
    assert [] + a == a && a + [] == a;
    assert [1] + [1] == [1, 1];
    assert st.widths[..1] == [1];
    assert Backspace(st) == State([], [1]);
  }

  // ----- runs -----

  /** The strokes of one line: escape sequences are discarded, and the line's end comes after them. */
  function Strokes(keys: seq<Key>): (seq<Stroke>, End)
    decreases |keys|
  {
    if keys == [] then ([], EndOfStream)
    else
      var code := keys[0].code;
      if code == 0x0D || code == 0x0A then ([], Newline)
      else if code == WEOF || code == 0x04 then ([], EndOfStream)
      else if code == 0x1B then Strokes(AfterEscape(keys[1..]))
      else
        var (rest, end) := Strokes(keys[1..]);
        ([if code == 0x08 || code == 0x7F then Rub else Type(Typed(code, if keys[0].width < 0 then 0 else keys[0].width))] + rest, end)
  }

  /** The characters that survive the strokes, from those already on the line. */
  function Survivors(strokes: seq<Stroke>, chars: seq<Typed>): seq<Typed> {
    if strokes == [] then chars
    else
      var next := match strokes[0] case Type(c) => chars + [c] case Rub => Erased(chars);
      Survivors(strokes[1..], next)
  }

  predicate CodePoints(keys: seq<Key>) {
    forall k :: k in keys ==> k.code <= MAX_CODE || k.code == WEOF
  }

  lemma AfterEscapeIsSuffix(keys: seq<Key>)
    ensures forall k :: k in AfterEscape(keys) ==> k in keys
  {
    if keys != [] {
      AfterSequenceIsSuffix(keys[1..]);
    }
  }

  lemma AfterSequenceIsSuffix(keys: seq<Key>)
    ensures forall k :: k in AfterSequence(keys) ==> k in keys
  {
  }

  /** After every sequence of keys the buffer is the encoding of the surviving characters, and the stack has one width
      for each of them. */
  lemma {:induction false} EditKeepsStep(keys: seq<Key>, chars: seq<Typed>)
    requires CodePoints(keys) && Encodable(chars)
    ensures var (strokes, end) := Strokes(keys);
            var left := Survivors(strokes, chars);
            Encodable(left) && Edit(keys, InStep(chars)) == (InStep(left), end)
    decreases |keys|
  {
    if keys != [] {
      var code, rest := keys[0].code, keys[1..];
      if code == 0x0D || code == 0x0A || code == WEOF || code == 0x04 {
      } else if code == 0x1B {
        AfterEscapeIsSuffix(rest);
        EditKeepsStep(AfterEscape(rest), chars);
      } else if code == 0x08 || code == 0x7F {
        BackspaceInStepIff(chars);
        EditKeepsStep(rest, Erased(chars));
        assert Strokes(keys).0[1..] == Strokes(rest).0;
      } else {
        var c := Typed(code, Shown(keys[0].width));
        EncodeLonger(chars, c);
        EditKeepsStep(rest, chars + [c]);
        assert Strokes(keys).0[1..] == Strokes(rest).0;
      }
    }
  }

  // ----- escape sequences -----

  predicate IsChar(code: Code, c: char) {
    code as int == c as int
  }

  /** Letters and the tilde end a sequence. */
  predicate IsFinal(code: Code) {
    ('A' as int <= code as int <= 'Z' as int) || ('a' as int <= code as int <= 'z' as int) || IsChar(code, '~')
  }

  /** What may come before the end of a sequence: anything else, but the end of the stream. */
  predicate IsParameter(k: Key) {
    !IsFinal(k.code) && k.code != WEOF
  }

  lemma {:induction false} ParametersAreSkipped(params: seq<Key>, rest: seq<Key>)
    requires forall k :: k in params ==> IsParameter(k)
    ensures AfterSequence(params + rest) == AfterSequence(rest)
  {
    if params == [] {
      assert params + rest == rest;
    } else {
      assert (params + rest)[1..] == params[1..] + rest;
      assert IsParameter(params[0]);
      ParametersAreSkipped(params[1..], rest);
    }
  }

  /** A whole sequence does nothing to the line, and nothing after it is skipped. A stream that ends inside it, ends. */
  lemma SequenceDoesNothing(escape: Key, opener: Key, params: seq<Key>, final: Key, rest: seq<Key>, st: State)
    requires escape.code == 0x1B && (IsChar(opener.code, '[') || opener.code == 0x1B)
    requires (forall k :: k in params ==> IsParameter(k)) && (IsFinal(final.code) || final.code == WEOF)
    ensures Edit([escape, opener] + params + [final] + rest, st) == Edit(rest, st)
    ensures Edit([escape, opener] + params, st) == (st, EndOfStream)
  {
    var keys := [escape, opener] + params + [final] + rest;
    var tail := params + ([final] + rest);
    assert keys[1..] == [opener] + tail && ([opener] + tail)[1..] == tail;
    ParametersAreSkipped(params, [final] + rest);
    assert ([final] + rest)[1..] == rest;
    assert ([escape, opener] + params)[1..] == [opener] + params && ([opener] + params)[1..] == params;
    ParametersAreSkipped(params, []);
    assert params + [] == params;
  }

  /** After any other character the escape takes that one only. */
  lemma EscapeTakesOne(escape: Key, k: Key, rest: seq<Key>, st: State)
    requires escape.code == 0x1B && !IsChar(k.code, '[') && k.code != 0x1B
    ensures Edit([escape, k] + rest, st) == Edit(rest, st)
  {
    assert ([escape, k] + rest)[1..] == [k] + rest && ([k] + rest)[1..] == rest;
  }

  // ----- the line that is returned -----

  const SPACE: Code := 0x20
  const BACKSLASH: Code := 0x5C
  const SLASH: Code := 0x2F

  predicate EndsWith(chars: seq<Typed>, code: Code) {
    chars != [] && chars[|chars| - 1].code == code
  }

  /** The last byte of a character is below 0x80 only when it is the whole character. */
  lemma LastByte(ch: Code)
    requires ch <= MAX_CODE
    ensures var u := Utf8(ch); u != [] && (u[|u| - 1] < 0x80 ==> u == [ch as Byte] && ch < 0x80)
  {
    Utf8Shape(ch);
    var u := Utf8(ch);
    if |u| > 1 {
      assert Continues(u[|u| - 1]);
    }
  }

  /** The loop's test of the last byte is a test of the last character. */
  lemma LastByteIsLastCharacter(chars: seq<Typed>, code: Code)
    requires Encodable(chars) && code < 0x80
    ensures var line := Encode(chars);
            line != [] && line[|line| - 1] == code as Byte <==> EndsWith(chars, code)
    ensures EndsWith(chars, code) ==>
              Encode(chars) == Encode(chars[..|chars| - 1]) + [code as Byte]
  {
    if chars != [] {
      var init, last := chars[..|chars| - 1], chars[|chars| - 1].code;
      LastByte(last);
      var line := Encode(chars);
      assert line[|line| - 1] == Utf8(last)[|Utf8(last)| - 1];
    }
  }

  lemma OneCharacter(c: Typed)
    ensures Encode([c]) == Utf8(c.code)
  {
    EncodeLonger([], c);
    assert [] + [c] == [c];
    assert Encode([]) + Utf8(c.code) == Utf8(c.code);
  }

  lemma SpaceAlone(chars: seq<Typed>)
    requires Encodable(chars) && Encode(chars) == Utf8(SPACE)
    ensures |chars| == 1 && chars[0].code == SPACE
  {
    OneCharacter(Typed(SPACE, 0));
    EncodingIsInjective(chars, [Typed(SPACE, 0)]);
  }

  lemma SingleSpace(chars: seq<Typed>)
    requires Encodable(chars)
    ensures Encode(chars) == Utf8(SPACE) <==> |chars| == 1 && chars[0].code == SPACE
  {
    if Encode(chars) == Utf8(SPACE) {
      SpaceAlone(chars);
    } else if |chars| == 1 {
      assert chars == [chars[0]];
      OneCharacter(chars[0]);
    }
  }

  /** What the caller gets for the characters left on the line: a final backslash continues the line and flips the
      request for more, a final slash ends the input, and either is removed. */
  function Returned(chars: seq<Typed>, end: End, multilineInput: bool): (seq<Byte>, bool) {
    if EndsWith(chars, BACKSLASH) then (Encode(chars[..|chars| - 1]) + [0x0A], !multilineInput)
    else if EndsWith(chars, SLASH) then
      var rest := chars[..|chars| - 1];
      (if |rest| == 1 && rest[0].code == SPACE then [] else Encode(rest), false)
    else if end == EndOfStream then (Encode(chars), false)
    else (Encode(chars) + [0x0A], multilineInput)
  }

  lemma FinishReturns(chars: seq<Typed>, end: End, multilineInput: bool)
    requires Encodable(chars)
    ensures Finish(Encode(chars), end, multilineInput) == Returned(chars, end, multilineInput)
  {
    LastByteIsLastCharacter(chars, BACKSLASH);
    LastByteIsLastCharacter(chars, SLASH);
    if chars != [] {
      SingleSpace(chars[..|chars| - 1]);
    }
  }

  /** `readline_advanced` returns the encoding of the surviving characters, whatever keys were pressed. */
  lemma ReadlineReturnsSurvivors(keys: seq<Key>, multilineInput: bool)
    requires CodePoints(keys)
    ensures var (st, end) := Edit(keys, State([], []));
            var left := Survivors(Strokes(keys).0, []);
            Finish(st.line, end, multilineInput) == Returned(left, Strokes(keys).1, multilineInput)
  {
    EditKeepsStep(keys, []);
    assert InStep([]) == State([], []);
    FinishReturns(Survivors(Strokes(keys).0, []), Strokes(keys).1, multilineInput);
  }
}
