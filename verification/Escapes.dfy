/** Decoding backslash escapes inside the string itself (llama.cpp/common/common.cpp:602-637). */
module Escapes {
  import opened Wrappers
  import opened Text

  function HexDigit(c: char): (r: Option<nat>)
    ensures r.Some? ==> r.value < 16
  {
    if '0' <= c <= '9' then Some((c - '0') as nat)
    else if 'a' <= c <= 'f' then Some((c - 'a') as nat + 10)
    else if 'A' <= c <= 'F' then Some((c - 'A') as nat + 10)
    else None
  }

  /** What `strtol` makes of two characters in base 16, when it consumes both: it also takes a space or a sign
      in front of a single digit. */
  function HexField(c0: char, c1: char): (r: Option<int>)
    ensures r.Some? ==> -16 < r.value < 256
  {
    var d0, d1 := HexDigit(c0), HexDigit(c1);
    if d1.None? then None
    else if d0.Some? then Some(16 * d0.value + d1.value)
    else if IsSpace(c0) || c0 == '+' then Some(d1.value)
    else if c0 == '-' then Some(-(d1.value as int))
    else None
  }

  /** The conversion of a number to an 8-bit character. */
  function ByteChar(v: int): char
    requires -16 < v < 256
  {
    (v % 256) as char
  }

  /** The character a simple escape stands for. */
  function SimpleEscape(c: char): Option<char> {
    match c
    case 'n' => Some('\n')
    case 'r' => Some('\r')
    case 't' => Some('\t')
    case '\'' => Some('\'')
    case '\"' => Some('\"')
    case '\\' => Some('\\')
    case _ => None
  }

  /** How many characters the first escape or plain character of `s` takes, and what it decodes to. */
  function First(s: string): (r: (nat, string))
    requires s != []
    ensures 1 <= r.0 <= |s| && 1 <= |r.1| <= r.0
  {
    if s[0] == '\\' && |s| > 1 then
      if SimpleEscape(s[1]).Some? then (2, [SimpleEscape(s[1]).value])
      else if s[1] == 'x' && |s| > 3 && HexField(s[2], s[3]).Some? then (4, [ByteChar(HexField(s[2], s[3]).value)])
      else (2, ['\\', s[1]])
    else (1, [s[0]])
  }

  /** Decoding from left to right into a string of its own. */
  function Decode(s: string): (r: string)
    ensures |r| <= |s|
  {
    if s == [] then [] else First(s).1 + Decode(s[First(s).0..])
  }

  /** `input[output_idx++] = c`, which leaves what is not read yet alone. */
  method Write(input: array<char>, outputIdx: nat, c: char, ghost unread: nat) returns (next: nat)
    requires outputIdx < unread <= input.Length
    modifies input
    ensures next == outputIdx + 1
    ensures input[..next] == old(input[..outputIdx]) + [c] && input[unread..] == old(input[unread..])
  {
    input[outputIdx] := c;
    next := outputIdx + 1;
  }

  lemma DecodeStep(s: string, at: nat, written: string)
    requires at < |s|
    ensures var (taken, out) := First(s[at..]);
            && at + taken <= |s| && s[at..][taken..] == s[at + taken..]
            && written + Decode(s[at..]) == written + out + Decode(s[at + taken..])
  {
    var (taken, out) := First(s[at..]);
    assert s[at..][taken..] == s[at + taken..];
    assert written + (out + Decode(s[at + taken..])) == written + out + Decode(s[at + taken..]);
  }

  /** One turn of the loop, `rest` being what is not read yet. */
  method DecodeOne(input: array<char>, inputStart: nat, outputStart: nat, ghost rest: string)
      returns (inputIdx: nat, outputIdx: nat)
    requires outputStart <= inputStart < input.Length && rest == input[inputStart..]
    modifies input
    ensures inputIdx == inputStart + First(rest).0 && outputIdx == outputStart + |First(rest).1|
    ensures input[..outputIdx] == old(input[..outputStart]) + First(rest).1
    ensures input[inputIdx..] == rest[First(rest).0..]
  {
    inputIdx, outputIdx := inputStart, outputStart;
    var inputLen := input.Length;
    assert forall k :: inputStart <= k < inputLen ==> input[k] == rest[k - inputStart];
    if input[inputIdx] == '\\' && inputIdx + 1 < inputLen {
      inputIdx := inputIdx + 1;
      var c := input[inputIdx];
      if SimpleEscape(c).Some? {
        outputIdx := Write(input, outputIdx, SimpleEscape(c).value, inputIdx + 1);
      } else if c == 'x' && inputIdx + 2 < inputLen && HexField(input[inputIdx + 1], input[inputIdx + 2]).Some? {
        var val := HexField(input[inputIdx + 1], input[inputIdx + 2]).value;
        inputIdx := inputIdx + 2;
        outputIdx := Write(input, outputIdx, ByteChar(val), inputIdx + 1);
      } else {
        outputIdx := Write(input, outputIdx, '\\', inputIdx);
        assert input[inputIdx..][0] == c;
        ghost var unread := input[inputIdx..];
        outputIdx := Write(input, outputIdx, input[inputIdx], inputIdx + 1);
        assert input[inputIdx + 1..] == unread[1..];
      }
    } else {
      outputIdx := Write(input, outputIdx, input[inputIdx], inputIdx + 1);
    }
    inputIdx := inputIdx + 1;
  }

  /** `string_process_escapes`: reading and writing the same characters, the write index never passing the read
      index. `outputIdx` is the length the string is cut to. */
  method ProcessEscapes(input: array<char>) returns (outputIdx: nat)
    modifies input
    ensures outputIdx <= input.Length && input[..outputIdx] == Decode(old(input[..]))
  {
    ghost var s, rest, written := input[..], input[..], "";
    var inputLen := input.Length;
    outputIdx := 0;
    var inputIdx := 0;
    while inputIdx < inputLen
      invariant outputIdx <= inputIdx <= inputLen
      invariant rest == s[inputIdx..] && input[inputIdx..] == rest
      invariant written == input[..outputIdx] && written + Decode(rest) == Decode(s)
    {
      DecodeStep(s, inputIdx, written);
      inputIdx, outputIdx := DecodeOne(input, inputIdx, outputIdx, rest);
      written, rest := written + First(rest).1, rest[First(rest).0..];
    }
  }

  // ----- what decoding undoes -----

  function Doubled(c: char): string {
    if c == '\\' then ['\\', '\\'] else [c]
  }

  /** Every backslash doubled. */
  function Double(s: string): string {
    if s == [] then [] else Doubled(s[0]) + Double(s[1..])
  }

  lemma DecodeDoubled(c: char, rest: string)
    ensures Decode(Doubled(c) + rest) == [c] + Decode(rest)
  {
    var s := Doubled(c) + rest;
    assert s[|Doubled(c)|..] == rest;
    assert First(s) == (|Doubled(c)|, [c]);
  }

  lemma ConcatAssociates(a: string, b: string, c: string)
    ensures (a + b) + c == a + (b + c)
  {
  }

  /** Doubled text decodes to the text, and does not touch what follows it. */
  lemma {:induction false} DecodeUndoesDouble(s: string, rest: string)
    ensures Decode(Double(s) + rest) == s + Decode(rest)
  {
    if s == [] {
      assert Double(s) + rest == rest;
    } else {
      ConcatAssociates(Doubled(s[0]), Double(s[1..]), rest);
      DecodeDoubled(s[0], Double(s[1..]) + rest);
      DecodeUndoesDouble(s[1..], rest);
      ConcatAssociates([s[0]], s[1..], Decode(rest));
      assert [s[0]] + s[1..] == s;
    }
  }

  const HEX_DIGITS: string := "0123456789abcdef"

  lemma HexDigitIs(d: nat)
    requires d < 16
    ensures HexDigit(HEX_DIGITS[d]) == Some(d)
  {
    if d < 10 {
      assert HEX_DIGITS[d] == '0' + d as char;
    } else {
      assert HEX_DIGITS[d] == 'a' + (d - 10) as char;
    }
  }

  lemma DecodeField(c0: char, c1: char, v: int, rest: string)
    requires HexField(c0, c1) == Some(v)
    ensures Decode(['\\', 'x', c0, c1] + rest) == [ByteChar(v)] + Decode(rest)
  {
    assert (['\\', 'x', c0, c1] + rest)[4..] == rest;
  }

  /** Every byte can be written as `\x` and its two hexadecimal digits. */
  lemma DecodeHex(b: nat, rest: string)
    requires b < 256
    ensures Decode(['\\', 'x', HEX_DIGITS[b / 16], HEX_DIGITS[b % 16]] + rest) == [b as char] + Decode(rest)
  {
    HexDigitIs(b / 16);
    HexDigitIs(b % 16);
    DecodeField(HEX_DIGITS[b / 16], HEX_DIGITS[b % 16], b, rest);
  }

  // ----- the pieces of a text -----

  const HEX_CAPITALS: string := "0123456789ABCDEF"

  ghost predicate IsDigit(c: char, d: nat) {
    d < 16 && (c == HEX_DIGITS[d] || c == HEX_CAPITALS[d])
  }

  /** The six named escapes. */
  predicate NameMeans(c: char, d: char) {
    || (c == 'n' && d as int == 10) || (c == 'r' && d as int == 13) || (c == 't' && d as int == 9)
    || (c == d && (c == '\'' || c == '"' || c as int == 92))
  }

  /** What a digit is worth after another digit, or after a space or sign. */
  ghost predicate LeadMeans(c0: char, d1: nat, v: int) {
    || ((c0 == '+' || IsOneOfSix(c0)) && v == d1)
    || (c0 == '-' && v + d1 == 0)
    || (exists d0: nat :: IsDigit(c0, d0) && v == 16 * d0 + d1)
  }

  ghost predicate FieldMeans(c0: char, c1: char, v: int) {
    exists d1: nat :: IsDigit(c1, d1) && LeadMeans(c0, d1, v)
  }

  lemma DigitIff(c: char, d: nat)
    ensures HexDigit(c) == Some(d) <==> IsDigit(c, d)
  {
    if d < 16 {
      HexDigitIs(d);
      CapitalIs(d);
    }
  }

  lemma CapitalIs(d: nat)
    requires d < 16
    ensures HEX_CAPITALS[d] == if d < 10 then '0' + d as char else 'A' + (d - 10) as char
  {
  }

  lemma FieldIsRead(c0: char, c1: char, v: int)
    requires HexField(c0, c1) == Some(v)
    ensures FieldMeans(c0, c1, v)
  {
    var d1 := HexDigit(c1).value;
    DigitIff(c1, d1);
    if HexDigit(c0).Some? {
      DigitIff(c0, HexDigit(c0).value);
    }
    assert LeadMeans(c0, d1, v);
  }

  lemma FieldIff(c0: char, c1: char, v: int)
    ensures HexField(c0, c1) == Some(v) <==> FieldMeans(c0, c1, v)
  {
    if HexField(c0, c1) == Some(v) {
      FieldIsRead(c0, c1, v);
    } else if FieldMeans(c0, c1, v) {
      var d1: nat :| IsDigit(c1, d1) && LeadMeans(c0, d1, v);
      DigitIff(c1, d1);
      if d0: nat :| IsDigit(c0, d0) && v == 16 * d0 + d1 {
        DigitIff(c0, d0);
      } else {
        LeadIsNoDigit(c0);
      }
    }
  }

  lemma LeadIsNoDigit(c0: char)
    ensures c0 == '+' || c0 == '-' || IsOneOfSix(c0) ==> HexDigit(c0).None?
  {
  }

  lemma NameIff(c: char, d: char)
    ensures SimpleEscape(c) == Some(d) <==> NameMeans(c, d)
  {
  }

  /** `Kept` is a backslash and a character that escape nothing together. */
  datatype Piece = Plain(c: char) | Named(c: char, d: char) | Byte(c0: char, c1: char, v: int) | Kept(c: char) {
    function Text(): string {
      match this
      case Plain(c) => [c]
      case Named(c, _) => ['\\', c]
      case Byte(c0, c1, _) => ['\\', 'x', c0, c1]
      case Kept(c) => ['\\', c]
    }

    /** Whether this can be the next piece with `rest` after it. */
    ghost predicate Stands(rest: string) {
      match this
      case Plain(c) => c != '\\' || rest == ""
      case Named(c, d) => NameMeans(c, d)
      case Byte(c0, c1, v) => FieldMeans(c0, c1, v)
      case Kept(c) =>
        && (forall d :: !NameMeans(c, d))
        && (c == 'x' ==> |rest| < 2 || forall v :: !FieldMeans(rest[0], rest[1], v))
    }

    /** A number counts as the 8-bit character it is cut to. */
    function Means(): string {
      match this
      case Plain(c) => [c]
      case Named(_, d) => [d]
      case Byte(_, _, v) => [(v % 256) as char]
      case Kept(c) => ['\\', c]
    }
  }

  function Texts(ps: seq<Piece>): string {
    if ps == [] then "" else ps[0].Text() + Texts(ps[1..])
  }

  ghost predicate WellFormed(ps: seq<Piece>) {
    ps == [] || (ps[0].Stands(Texts(ps[1..])) && WellFormed(ps[1..]))
  }

  function Meaning(ps: seq<Piece>): string {
    if ps == [] then "" else ps[0].Means() + Meaning(ps[1..])
  }

  /** One piece is what one turn takes. */
  lemma FirstIsPiece(p: Piece, rest: string)
    requires p.Stands(rest)
    ensures First(p.Text() + rest) == (|p.Text()|, p.Means()) && (p.Text() + rest)[|p.Text()|..] == rest
  {
    var s := p.Text() + rest;
    match p
    case Plain(c) =>
    case Named(c, d) => NameIff(c, d);
    case Byte(c0, c1, v) => FieldIff(c0, c1, v);
    case Kept(c) => KeptIsFirst(c, rest);
  }

  lemma KeptIsFirst(c: char, rest: string)
    requires Kept(c).Stands(rest)
    ensures First(['\\', c] + rest) == (2, ['\\', c])
  {
    if SimpleEscape(c).Some? {
      NameIff(c, SimpleEscape(c).value);
    }
    var s := ['\\', c] + rest;
    if |rest| >= 2 {
      assert s[2] == rest[0] && s[3] == rest[1];
      if HexField(rest[0], rest[1]).Some? {
        FieldIff(rest[0], rest[1], HexField(rest[0], rest[1]).value);
      }
    }
  }

  /** Decoding replaces each piece by its meaning. */
  lemma {:induction false} DecodeIsMeaning(ps: seq<Piece>)
    requires WellFormed(ps)
    ensures Decode(Texts(ps)) == Meaning(ps)
  {
    if ps != [] {
      FirstIsPiece(ps[0], Texts(ps[1..]));
      DecodeIsMeaning(ps[1..]);
    }
  }

  /** No text can be taken apart in two ways. */
  lemma {:induction false} PiecesAreUnique(ps: seq<Piece>, qs: seq<Piece>)
    requires WellFormed(ps) && WellFormed(qs) && Texts(ps) == Texts(qs)
    ensures ps == qs
  {
    if ps != [] && qs != [] {
      var p, q, ps', qs' := ps[0], qs[0], ps[1..], qs[1..];
      FirstIsPiece(p, Texts(ps'));
      FirstIsPiece(q, Texts(qs'));
      assert p.Text() == Texts(ps)[..|p.Text()|] == q.Text();
      SamePiece(p, Texts(ps'), q, Texts(qs'));
      PiecesAreUnique(ps', qs');
    }
  }

  lemma SamePiece(p: Piece, rest: string, q: Piece, rest': string)
    requires p.Stands(rest) && q.Stands(rest') && p.Text() == q.Text()
    ensures p == q
  {
    assert p.Text()[0] == q.Text()[0];
    if |p.Text()| == 2 {
      assert p.Text()[1] == q.Text()[1];
      if p.Named? {
        assert NameMeans(p.c, p.d);
      }
      if q.Named? {
        assert NameMeans(q.c, q.d);
      }
    } else if |p.Text()| == 4 {
      assert p.Text()[2] == q.Text()[2] && p.Text()[3] == q.Text()[3];
      FieldIff(p.c0, p.c1, p.v);
      FieldIff(q.c0, q.c1, q.v);
    }
  }

  /** The piece that one turn takes. */
  lemma PieceIsFirst(s: string) returns (p: Piece)
    requires s != ""
    ensures p.Stands(s[First(s).0..]) && s == p.Text() + s[First(s).0..]
  {
    var taken := First(s).0;
    if taken == 1 {
      p := Plain(s[0]);
    } else if taken == 4 {
      p := Byte(s[2], s[3], HexField(s[2], s[3]).value);
      FieldIff(s[2], s[3], p.v);
    } else if SimpleEscape(s[1]).Some? {
      p := Named(s[1], SimpleEscape(s[1]).value);
      NameIff(s[1], p.d);
    } else {
      p := Kept(s[1]);
      forall d ensures !NameMeans(s[1], d) {
        NameIff(s[1], d);
      }
      if |s| > 3 {
        forall v ensures s[1] == 'x' ==> !FieldMeans(s[2], s[3], v) {
          FieldIff(s[2], s[3], v);
        }
      }
    }
  }

  /** Every text consists of such pieces, and decoding replaces each by its meaning. */
  lemma {:induction false} EveryTextHasPieces(s: string) returns (ps: seq<Piece>)
    ensures WellFormed(ps) && Texts(ps) == s && Decode(s) == Meaning(ps)
    ensures forall qs :: WellFormed(qs) && Texts(qs) == s ==> qs == ps
    decreases |s|
  {
    if s == "" {
      ps := [];
    } else {
      var p := PieceIsFirst(s);
      var rest := EveryTextHasPieces(s[First(s).0..]);
      ps := [p] + rest;
      assert ps[1..] == rest;
      DecodeIsMeaning(ps);
    }
    forall qs | WellFormed(qs) && Texts(qs) == s ensures qs == ps {
      PiecesAreUnique(qs, ps);
    }
  }
}
