/** The line editor of the console: a UTF-8 buffer kept in step with a stack of display widths
    (llama.cpp/common/console.cpp:318-456; the encoding is that of section 3 of RFC 3629). */
module LineEditor {
  type Byte = bv8
  type Code = bv32

  const WEOF: Code := 0xFFFFFFFF
  const MAX_CODE: Code := 0x10FFFF

  /** A character read from the terminal, and the width that putting it out reports. */
  datatype Key = Key(code: Code, width: int)

  // ----- the buffer -----

  function Utf8(ch: Code): (r: seq<Byte>)
    ensures |r| <= 4 && (r == [] <==> ch > MAX_CODE)
  {
    if ch <= 0x7F then [ch as Byte]
    else if ch <= 0x7FF then [0xC0 | (((ch >> 6) & 0x1F) as Byte), 0x80 | ((ch & 0x3F) as Byte)]
    else if ch <= 0xFFFF then
      [0xE0 | (((ch >> 12) & 0x0F) as Byte), 0x80 | (((ch >> 6) & 0x3F) as Byte), 0x80 | ((ch & 0x3F) as Byte)]
    else if ch <= MAX_CODE then
      [0xF0 | (((ch >> 18) & 0x07) as Byte), 0x80 | (((ch >> 12) & 0x3F) as Byte),
       0x80 | (((ch >> 6) & 0x3F) as Byte), 0x80 | ((ch & 0x3F) as Byte)]
    else []
  }

  /** `append_utf8`. */
  method AppendUtf8(ch: Code, line: seq<Byte>) returns (out: seq<Byte>)
    ensures out == line + Utf8(ch)
  {
    out := line;
    if ch <= 0x7F {
      out := out + [ch as Byte];
    } else if ch <= 0x7FF {
      out := out + [0xC0 | (((ch >> 6) & 0x1F) as Byte)];
      out := out + [0x80 | ((ch & 0x3F) as Byte)];
    } else if ch <= 0xFFFF {
      out := out + [0xE0 | (((ch >> 12) & 0x0F) as Byte)];
      out := out + [0x80 | (((ch >> 6) & 0x3F) as Byte)];
      out := out + [0x80 | ((ch & 0x3F) as Byte)];
    } else if ch <= MAX_CODE {
      out := out + [0xF0 | (((ch >> 18) & 0x07) as Byte)];
      out := out + [0x80 | (((ch >> 12) & 0x3F) as Byte)];
      out := out + [0x80 | (((ch >> 6) & 0x3F) as Byte)];
      out := out + [0x80 | ((ch & 0x3F) as Byte)];
    }
  }

  predicate Continues(b: Byte) {
    b & 0xC0 == 0x80
  }

  /** Where the last character starts, looking at most `steps` bytes further back from `pos`. */
  function LastStart(line: seq<Byte>, pos: nat, steps: nat): (r: nat)
    requires pos < |line|
    ensures r <= pos
  {
    if steps > 0 && pos > 0 && Continues(line[pos]) then LastStart(line, pos - 1, steps - 1) else pos
  }

  function Popped(line: seq<Byte>): seq<Byte> {
    if line == [] then [] else line[..LastStart(line, |line| - 1, 3)]
  }

  /** `pop_back_utf8_char`. */
  method PopBackUtf8Char(line: seq<Byte>) returns (r: seq<Byte>)
    ensures r == Popped(line)
  {
    if line == [] {
      return line;
    }
    var pos: nat := |line| - 1;
    var i := 0;
    while i < 3 && pos > 0
      invariant 0 <= i <= 3 && pos < |line|
      invariant LastStart(line, pos, 3 - i) == LastStart(line, |line| - 1, 3)
    {
      if !Continues(line[pos]) {
        break;
      }
      i, pos := i + 1, pos - 1;
    }
    r := line[..pos];
  }

  /** What is taken off: up to four bytes, all of them continuations but the first, which is one only if it is the
      fourth or the first of the buffer. */
  lemma {:induction false} PoppedIs(line: seq<Byte>)
    requires line != []
    ensures var n := |Popped(line)|;
            && |line| - 4 <= n < |line| && Popped(line) == line[..n]
            && (forall i :: n < i < |line| ==> Continues(line[i]))
            && (Continues(line[n]) ==> n == 0 || n == |line| - 4)
  {
    LastStartStops(line, |line| - 1, 3);
  }

  lemma {:induction false} LastStartStops(line: seq<Byte>, pos: nat, steps: nat)
    requires pos < |line|
    ensures var n := LastStart(line, pos, steps);
            && pos - steps <= n <= pos && (forall i :: n < i <= pos ==> Continues(line[i]))
            && (Continues(line[n]) ==> n == 0 || n == pos - steps)
  {
    if steps > 0 && pos > 0 && Continues(line[pos]) {
      LastStartStops(line, pos - 1, steps - 1);
    }
  }

  /** A character's bytes: only the first is not a continuation. */
  lemma Utf8Shape(ch: Code)
    requires ch <= MAX_CODE
    ensures !Continues(Utf8(ch)[0]) && forall i :: 0 < i < |Utf8(ch)| ==> Continues(Utf8(ch)[i])
  {
  }

  lemma {:induction false} LastStartIs(line: seq<Byte>, start: nat, pos: nat, steps: nat)
    requires start <= pos < |line| && pos - start <= steps && !Continues(line[start])
    requires forall i :: start < i <= pos ==> Continues(line[i])
    ensures LastStart(line, pos, steps) == start
  {
    if start < pos {
      LastStartIs(line, start, pos - 1, steps - 1);
    }
  }

  /** Popping undoes appending, whatever the buffer holds. */
  lemma PopUndoesAppend(line: seq<Byte>, ch: Code)
    requires ch <= MAX_CODE
    ensures Popped(line + Utf8(ch)) == line
  {
    Utf8Shape(ch);
    var longer := line + Utf8(ch);
    LastStartIs(longer, |line|, |longer| - 1, 3);
  }

  // ----- one line of input -----

  /** What is left of the input after an escape character: a whole sequence is discarded, or one character. */
  function AfterEscape(keys: seq<Key>): (r: seq<Key>)
    ensures |r| <= |keys|
  {
    if keys == [] then []
    else if keys[0].code == 0x5B || keys[0].code == 0x1B then AfterSequence(keys[1..])
    else keys[1..]
  }

  predicate EndsSequence(code: Code) {
    0x41 <= code <= 0x5A || 0x61 <= code <= 0x7A || code == 0x7E
  }

  function AfterSequence(keys: seq<Key>): (r: seq<Key>)
    ensures |r| <= |keys|
  {
    if keys == [] then []
    else if keys[0].code == WEOF || EndsSequence(keys[0].code) then keys[1..]
    else AfterSequence(keys[1..])
  }

  datatype End = Newline | EndOfStream

  datatype State = State(line: seq<Byte>, widths: seq<nat>)

  /** A backspace: entries of width 0 and then one more, with one character each. */
  function Backspace(st: State): State
    decreases |st.widths|
  {
    if st.widths == [] then st
    else
      var n := |st.widths| - 1;
      var next := State(Popped(st.line), st.widths[..n]);
      if st.widths[n] == 0 then Backspace(next) else next
  }

  function Shown(width: int): nat {
    if width < 0 then 0 else width
  }

  /** The loop of `readline_advanced` over the keys that are left. */
  function Edit(keys: seq<Key>, st: State): (State, End)
    decreases |keys|
  {
    if keys == [] then (st, EndOfStream)
    else
      var code := keys[0].code;
      if code == 0x0D || code == 0x0A then (st, Newline)
      else if code == WEOF || code == 0x04 then (st, EndOfStream)
      else if code == 0x1B then Edit(AfterEscape(keys[1..]), st)
      else if code == 0x08 || code == 0x7F then Edit(keys[1..], Backspace(st))
      else Edit(keys[1..], State(st.line + Utf8(code), st.widths + [Shown(keys[0].width)]))
  }

  predicate SpecialEnd(line: seq<Byte>) {
    line != [] && (line[|line| - 1] == 0x5C || line[|line| - 1] == 0x2F)
  }

  /** What follows the loop: the special last character, the newline and whether more lines are wanted. */
  function Finish(line: seq<Byte>, end: End, multilineInput: bool): (seq<Byte>, bool) {
    if SpecialEnd(line) then
      var rest := line[..|line| - 1];
      if line[|line| - 1] == 0x5C then (rest + [0x0A], !multilineInput)
      else (if rest == [0x20] then [] else rest, false)
    else if end == EndOfStream then (line, false)
    else (line + [0x0A], multilineInput)
  }

  /** Reading the rest of an escape sequence, from the position after the escape character. */
  method SkipEscape(keys: seq<Key>, start: nat) returns (i: nat)
    requires start <= |keys|
    ensures start <= i <= |keys| && keys[i..] == AfterEscape(keys[start..])
  {
    i := start;
    if i < |keys| {
      var code := keys[i].code;
      assert keys[i..][1..] == keys[i + 1..];
      i := i + 1;
      if code == 0x5B || code == 0x1B {
        while i < |keys|
          invariant start < i <= |keys|
          invariant AfterSequence(keys[i..]) == AfterEscape(keys[start..])
        {
          code := keys[i].code;
          assert keys[i..][1..] == keys[i + 1..];
          i := i + 1;
          if code == WEOF || EndsSequence(code) {
            return;
          }
        }
      }
    }
  }

  /** The `do` loop of a backspace. */
  method EraseBack(line: seq<Byte>, widths: seq<nat>) returns (line': seq<Byte>, widths': seq<nat>)
    ensures State(line', widths') == Backspace(State(line, widths))
  {
    line', widths' := line, widths;
    if widths != [] {
      var count := 0;
      while count == 0 && widths' != []
        invariant count == 0 ==> Backspace(State(line', widths')) == Backspace(State(line, widths))
        invariant count != 0 ==> State(line', widths') == Backspace(State(line, widths))
        decreases |widths'|
      {
        count := widths'[|widths'| - 1];
        widths' := widths'[..|widths'| - 1];
        line' := PopBackUtf8Char(line');
      }
    }
  }

  /** One turn of the loop of `readline_advanced`, on a key that does not end the line. */
  method Press(keys: seq<Key>, start: nat, line: seq<Byte>, widths: seq<nat>)
      returns (i: nat, line': seq<Byte>, widths': seq<nat>)
    requires start < |keys| && keys[start].code !in {0x0D, 0x0A, WEOF, 0x04}
    ensures start < i <= |keys|
    ensures Edit(keys[i..], State(line', widths')) == Edit(keys[start..], State(line, widths))
  {
    var inputChar, width := keys[start].code, keys[start].width;
    assert keys[start..][1..] == keys[start + 1..];
    i, line', widths' := start + 1, line, widths;
    if inputChar == 0x1B {
      i := SkipEscape(keys, i);
    } else if inputChar == 0x08 || inputChar == 0x7F {
      line', widths' := EraseBack(line, widths);
    } else {
      line' := AppendUtf8(inputChar, line);
      if width < 0 {
        width := 0;
      }
      widths' := widths + [width];
    }
  }

  /** What follows the loop of `readline_advanced`. */
  method FinishLine(edited: seq<Byte>, isSpecialChar: bool, endOfStream: bool, multilineInput: bool)
      returns (line: seq<Byte>, hasMore: bool)
    requires isSpecialChar <==> SpecialEnd(edited)
    ensures (line, hasMore) == Finish(edited, if endOfStream then EndOfStream else Newline, multilineInput)
  {
    line, hasMore := edited, multilineInput;
    if isSpecialChar {
      var last := line[|line| - 1];
      line := line[..|line| - 1];
      if last == 0x5C {
        line := line + [0x0A];
        hasMore := !hasMore;
      } else {
        if |line| == 1 && line[|line| - 1] == 0x20 {
          line := [];
        }
        hasMore := false;
      }
    } else if endOfStream {
      hasMore := false;
    } else {
      line := line + [0x0A];
    }
  }

  /** `readline_advanced`, without the output to the terminal. A last character is only taken off a line that has
      one. */
  method ReadlineAdvanced(keys: seq<Key>, multilineInput: bool) returns (line: seq<Byte>, hasMore: bool)
    ensures var (st, end) := Edit(keys, State([], []));
            (line, hasMore) == Finish(st.line, end, multilineInput)
  {
    line := [];
    var widths: seq<nat> := [];
    var isSpecialChar, endOfStream := false, false;
    ghost var edited := Edit(keys, State([], []));
    var i := 0;
    assert keys[0..] == keys;
    while true
      invariant i <= |keys| && Edit(keys[i..], State(line, widths)) == edited
      invariant isSpecialChar <==> SpecialEnd(line)
      invariant !endOfStream
      decreases |keys| - i
    {
      var inputChar := if i < |keys| then keys[i].code else WEOF;
      if inputChar == 0x0D || inputChar == 0x0A {
        break;
      }
      if inputChar == WEOF || inputChar == 0x04 {
        endOfStream := true;
        break;
      }
      if isSpecialChar {
        isSpecialChar := false;
      }
      i, line, widths := Press(keys, i, line, widths);
      if line != [] && (line[|line| - 1] == 0x5C || line[|line| - 1] == 0x2F) {
        isSpecialChar := true;
      }
    }
    line, hasMore := FinishLine(line, isSpecialChar, endOfStream, multilineInput);
  }
}
