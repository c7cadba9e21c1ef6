/** The line editor's buffer read from the front, as section 3 of RFC 3629 defines a stream of UTF-8: the lead byte tells
    the length, and only the shortest form of a code point is accepted. */
module Utf8Stream {
  import opened Wrappers
  import opened LineEditor
  import opened LineEditorLaws

  /** How many bytes a character has that begins with `b`; 0 for a byte that none begins with. */
  function LengthOf(b: Byte): nat {
    if b <= 0x7F then 1
    else if 0xC0 <= b <= 0xDF then 2
    else if 0xE0 <= b <= 0xEF then 3
    else if 0xF0 <= b <= 0xF7 then 4
    else 0
  }

  /** The code points that need `n` bytes. */
  predicate Needs(ch: Code, n: nat) {
    match n
    case 1 => ch <= 0x7F
    case 2 => 0x80 <= ch <= 0x7FF
    case 3 => 0x800 <= ch <= 0xFFFF
    case 4 => 0x10000 <= ch <= 0x10FFFF
    case _ => false
  }

  predicate Follows(b: Byte) {
    0x80 <= b <= 0xBF
  }

  /** The first character and its length; `None` for bytes that are no character in its shortest form. */
  function FirstChar(bytes: seq<Byte>): (r: Option<(Code, nat)>)
    ensures r.Some? ==> 1 <= r.value.1 <= |bytes|
  {
    if bytes == [] then None
    else
      var n := LengthOf(bytes[0]);
      if n == 0 || |bytes| < n || exists i :: 1 <= i < n && !Follows(bytes[i]) then None
      else
        var ch := Decoded(bytes[..n]);
        if Needs(ch, n) then Some((ch, n)) else None
  }

  /** All code points of a buffer. */
  function Read(bytes: seq<Byte>): Option<seq<Code>>
    decreases |bytes|
  {
    if bytes == [] then Some([])
    else
      var first := FirstChar(bytes);
      if first.None? then None
      else
        var rest := Read(bytes[first.value.1..]);
        if rest.None? then None else Some([first.value.0] + rest.value)
  }

  // ----- one character -----

  lemma ShortestForm(ch: Code)
    requires ch <= MAX_CODE
    ensures var u := Utf8(ch);
            && u != [] && LengthOf(u[0]) == |u| && Needs(ch, |u|)
            && forall i :: 1 <= i < |u| ==> Follows(u[i])
  {
  }

  lemma FirstOfEncoded(ch: Code, rest: seq<Byte>)
    requires ch <= MAX_CODE
    ensures FirstChar(Utf8(ch) + rest) == Some((ch, |Utf8(ch)|))
  {
    ShortestForm(ch);
    Utf8Decodes(ch);
    var u := Utf8(ch);
    assert (u + rest)[..|u|] == u;
    assert forall i :: 0 <= i < |u| ==> (u + rest)[i] == u[i];
  }

  lemma Encodes2(a: Byte, b: Byte)
    requires 0xC0 <= a <= 0xDF && Follows(b)
    ensures var ch := Decoded2(a, b);
            ch <= 0x7FF && 0xC0 | (((ch >> 6) & 0x1F) as Byte) == a && 0x80 | ((ch & 0x3F) as Byte) == b
  {
  }

  lemma Encodes3(a: Byte, b: Byte, c: Byte)
    requires 0xE0 <= a <= 0xEF && Follows(b) && Follows(c)
    ensures var ch := Decoded3(a, b, c);
            && ch <= 0xFFFF && 0xE0 | (((ch >> 12) & 0x0F) as Byte) == a
            && 0x80 | (((ch >> 6) & 0x3F) as Byte) == b && 0x80 | ((ch & 0x3F) as Byte) == c
  {
  }

  lemma Encodes4(a: Byte, b: Byte, c: Byte, d: Byte)
    requires 0xF0 <= a <= 0xF7 && Follows(b) && Follows(c) && Follows(d)
    ensures var ch := Decoded4(a, b, c, d);
            && 0xF0 | (((ch >> 18) & 0x07) as Byte) == a && 0x80 | (((ch >> 12) & 0x3F) as Byte) == b
            && 0x80 | (((ch >> 6) & 0x3F) as Byte) == c && 0x80 | ((ch & 0x3F) as Byte) == d
  {
  }

  lemma OneByte(bytes: seq<Byte>)
    requires |bytes| == 1 && bytes[0] <= 0x7F
    ensures Utf8(Decoded(bytes)) == bytes
  {
  }

  lemma TwoBytes(bytes: seq<Byte>)
    requires |bytes| == 2 && LengthOf(bytes[0]) == 2 && Follows(bytes[1]) && Needs(Decoded(bytes), 2)
    ensures Utf8(Decoded(bytes)) == bytes
  {
    Encodes2(bytes[0], bytes[1]);
  }

  lemma ThreeBytes(bytes: seq<Byte>)
    requires |bytes| == 3 && LengthOf(bytes[0]) == 3 && Follows(bytes[1]) && Follows(bytes[2]) && Needs(Decoded(bytes), 3)
    ensures Utf8(Decoded(bytes)) == bytes
  {
    Encodes3(bytes[0], bytes[1], bytes[2]);
  }

  lemma FourBytes(bytes: seq<Byte>)
    requires |bytes| == 4 && LengthOf(bytes[0]) == 4 && Follows(bytes[1]) && Follows(bytes[2]) && Follows(bytes[3])
    requires Needs(Decoded(bytes), 4)
    ensures Utf8(Decoded(bytes)) == bytes
  {
    Encodes4(bytes[0], bytes[1], bytes[2], bytes[3]);
  }

  /** What is read as a character is the encoding of its code point. */
  lemma FirstIsEncoded(bytes: seq<Byte>, ch: Code, n: nat)
    requires FirstChar(bytes) == Some((ch, n))
    ensures ch <= MAX_CODE && bytes[..n] == Utf8(ch)
  {
    var first := bytes[..n];
    assert first[0] == bytes[0] && forall i :: 1 <= i < n ==> Follows(first[i]);
    if n == 1 {
      OneByte(first);
    } else if n == 2 {
      TwoBytes(first);
    } else if n == 3 {
      ThreeBytes(first);
    } else {
      FourBytes(first);
    }
  }

  // ----- the buffer -----

  function Codes(chars: seq<Typed>): (r: seq<Code>)
    ensures |r| == |chars| && forall i :: 0 <= i < |r| ==> r[i] == chars[i].code
  {
    seq(|chars|, i requires 0 <= i < |chars| => chars[i].code)
  }

  lemma {:induction false} EncodeFromFront(c: Typed, chars: seq<Typed>)
    ensures Encode([c] + chars) == Utf8(c.code) + Encode(chars)
    decreases |chars|
  {
    if chars == [] {
      assert [c] + chars == [c];
      OneCharacter(c);
      Concat(Utf8(c.code), [], []);
    } else {
      var init, last := chars[..|chars| - 1], chars[|chars| - 1];
      assert init + [last] == chars && ([c] + init) + [last] == [c] + chars;
      EncodeFromFront(c, init);
      EncodeLonger(init, last);
      EncodeLonger([c] + init, last);
      Concat(Utf8(c.code), Encode(init), Utf8(last.code));
    }
  }

  lemma Concat(a: seq<Byte>, b: seq<Byte>, c: seq<Byte>)
    ensures a + b + c == a + (b + c) && a + [] == a
  {
  }

  /** A character in front of the rest. */
  lemma ReadCons(u: seq<Byte>, rest: seq<Byte>, ch: Code)
    requires FirstChar(u + rest) == Some((ch, |u|))
    ensures Read(u + rest) == if Read(rest).None? then None else Some([ch] + Read(rest).value)
  {
    assert (u + rest)[|u|..] == rest;
  }

  lemma CodesCons(c: Typed, rest: seq<Typed>)
    ensures Codes([c] + rest) == [c.code] + Codes(rest)
  {
  }

  lemma {:induction false} EncodedIsRead(chars: seq<Typed>)
    requires Encodable(chars)
    ensures Read(Encode(chars)) == Some(Codes(chars))
    decreases |chars|
  {
    if chars != [] {
      var c, rest := chars[0], chars[1..];
      assert chars == [c] + rest;
      EncodeFromFront(c, rest);
      FirstOfEncoded(c.code, Encode(rest));
      ReadCons(Utf8(c.code), Encode(rest), c.code);
      EncodedIsRead(rest);
      CodesCons(c, rest);
    }
  }

  lemma {:induction false} ReadIsEncoded(bytes: seq<Byte>, chars: seq<Typed>)
    requires Encodable(chars) && Read(bytes) == Some(Codes(chars))
    ensures bytes == Encode(chars)
    decreases |chars|
  {
    if bytes != [] {
      var (ch, n) := FirstChar(bytes).value;
      var u, left := bytes[..n], bytes[n..];
      assert bytes == u + left;
      ReadCons(u, left, ch);
      var c, rest := chars[0], chars[1..];
      assert chars == [c] + rest;
      CodesCons(c, rest);
      assert Codes(chars)[0] == ch && Codes(chars)[1..] == Read(left).value;
      FirstIsEncoded(bytes, ch, n);
      ReadIsEncoded(left, rest);
      EncodeFromFront(c, rest);
    }
  }

  /** Reading a buffer gives these code points exactly when it is their encoding. */
  lemma ReadIffEncoded(bytes: seq<Byte>, chars: seq<Typed>)
    requires Encodable(chars)
    ensures Read(bytes) == Some(Codes(chars)) <==> bytes == Encode(chars)
  {
    EncodedIsRead(chars);
    if Read(bytes) == Some(Codes(chars)) {
      ReadIsEncoded(bytes, chars);
    }
  }
}
