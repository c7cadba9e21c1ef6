/** Base64 with two alphabets, alphabet detection and decoding in place (llama.cpp/common/base64.hpp; the encodings
    are those of sections 4 and 5 of RFC 4648). */
module Base64 {
  import opened Wrappers

  type Byte = bv8

  datatype Alphabet = Auto | Standard | UrlFilenameSafe

  datatype Behavior = Moderate | Loose

  const PAD: Byte := 61 // '='

  // ----- symbols -----

  /** `alpha[v]`: the character for six bits. */
  function Symbol(alphabet: Alphabet, v: Byte): Byte
    requires v < 64
  {
    if v < 26 then v + 65 // 'A'..'Z'
    else if v < 52 then v - 26 + 97 // 'a'..'z'
    else if v < 62 then v - 52 + 48 // '0'..'9'
    else if alphabet == UrlFilenameSafe then (if v == 62 then 45 else 95) // '-', '_'
    else (if v == 62 then 43 else 47) // '+', '/'
  }

  predicate Alphanumeric(c: Byte) {
    65 <= c <= 90 || 97 <= c <= 122 || 48 <= c <= 57
  }

  predicate StandardOnly(c: Byte) {
    c == 43 || c == 47
  }

  predicate UrlOnly(c: Byte) {
    c == 45 || c == 95
  }

  /** `_base64_value`: the six bits of a character, and the alphabet as it leaves it; `None` is the exception. */
  function Value(alphabet: Alphabet, c: Byte): (r: Option<(Alphabet, Byte)>)
    ensures r.Some? ==> r.value.1 < 64
  {
    if 65 <= c <= 90 then Some((alphabet, c - 65))
    else if 97 <= c <= 122 then Some((alphabet, c - 97 + 26))
    else if 48 <= c <= 57 then Some((alphabet, c - 48 + 52))
    else match alphabet
      case Standard => if c == 43 then Some((Standard, 62)) else if c == 47 then Some((Standard, 63)) else None
      case UrlFilenameSafe =>
        if c == 45 then Some((UrlFilenameSafe, 62)) else if c == 95 then Some((UrlFilenameSafe, 63)) else None
      case Auto =>
        if c == 43 then Some((Standard, 62))
        else if c == 47 then Some((Standard, 63))
        else if c == 45 then Some((UrlFilenameSafe, 62))
        else if c == 95 then Some((UrlFilenameSafe, 63))
        else None
  }

  /** `alphabet` as `encode` reads it: anything but the URL alphabet is the standard one. */
  function Fixed(alphabet: Alphabet): Alphabet {
    if alphabet == UrlFilenameSafe then UrlFilenameSafe else Standard
  }

  lemma SymbolHasItsValue(alphabet: Alphabet, v: Byte)
    requires v < 64
    ensures Symbol(alphabet, v) != PAD && Value(Fixed(alphabet), Symbol(alphabet, v)) == Some((Fixed(alphabet), v))
  {
  }

  const LETTERS := "ABCDEFGHIJKLMNOPQRSTUVWXYZ"
  const SMALL_LETTERS := "abcdefghijklmnopqrstuvwxyz"
  const DIGITS := "0123456789"

  predicate IsChar(b: Byte, c: char) {
    b as int == c as int
  }

  /** The characters of the two alphabets, in their order, and the padding. */
  lemma SymbolIsListed(alphabet: Alphabet, v: Byte)
    requires v < 64
    ensures v < 26 ==> IsChar(Symbol(alphabet, v), LETTERS[v])
    ensures 26 <= v < 52 ==> IsChar(Symbol(alphabet, v), SMALL_LETTERS[v - 26])
    ensures 52 <= v < 62 ==> IsChar(Symbol(alphabet, v), DIGITS[v - 52])
    ensures v == 62 ==> IsChar(Symbol(alphabet, v), if alphabet == UrlFilenameSafe then '-' else '+')
    ensures v == 63 ==> IsChar(Symbol(alphabet, v), if alphabet == UrlFilenameSafe then '_' else '/')
    ensures IsChar(PAD, '=')
  {
    if v < 26 {
      LetterIs(v);
    } else if v < 52 {
      SmallLetterIs(v - 26);
    } else if v < 62 {
      assert DIGITS[v - 52] as int == '0' as int + (v - 52) as int;
    }
  }

  lemma LetterIs(v: Byte)
    requires v < 26
    ensures LETTERS[v] as int == 'A' as int + v as int
  {
  }

  lemma SmallLetterIs(v: Byte)
    requires v < 26
    ensures SMALL_LETTERS[v] as int == 'a' as int + v as int
  {
  }

  /** Only the symbols have values. */
  lemma ValueIsOfSymbol(alphabet: Alphabet, c: Byte)
    requires Value(alphabet, c).Some?
    ensures var (next, v) := Value(alphabet, c).value;
            Symbol(next, v) == c && (alphabet != Auto ==> next == alphabet) && (v < 62 ==> next == alphabet)
  {
  }

  // ----- encoding -----

  function Sextet0(i0: Byte): (v: Byte) ensures v < 64 { (i0 >> 2) & 0x3f }
  function Sextet1(i0: Byte, i1: Byte): (v: Byte) ensures v < 64 { ((i0 & 0x3) << 4) | ((i1 >> 4) & 0x0f) }
  function Sextet2(i1: Byte, i2: Byte): (v: Byte) ensures v < 64 { ((i1 & 0xf) << 2) | ((i2 >> 6) & 0x03) }
  function Sextet3(i2: Byte): (v: Byte) ensures v < 64 { i2 & 0x3f }

  /** The six-bit groups of the input, the last one filled up with zeros. */
  function Sextets(input: seq<Byte>): (r: seq<Byte>)
    ensures forall i :: 0 <= i < |r| ==> r[i] < 64
  {
    if |input| == 0 then []
    else if |input| == 1 then [Sextet0(input[0]), Sextet1(input[0], 0)]
    else if |input| == 2 then [Sextet0(input[0]), Sextet1(input[0], input[1]), Sextet2(input[1], 0)]
    else [Sextet0(input[0]), Sextet1(input[0], input[1]), Sextet2(input[1], input[2]), Sextet3(input[2])]
         + Sextets(input[3..])
  }

  function Symbols(alphabet: Alphabet, values: seq<Byte>): (r: seq<Byte>)
    requires forall i :: 0 <= i < |values| ==> values[i] < 64
    ensures |r| == |values| && forall i :: 0 <= i < |r| ==> r[i] == Symbol(alphabet, values[i])
  {
    seq(|values|, i requires 0 <= i < |values| => Symbol(alphabet, values[i]))
  }

  function Padding(size: nat): seq<Byte> {
    if size % 3 == 1 then [PAD, PAD] else if size % 3 == 2 then [PAD] else []
  }

  function Encoded(input: seq<Byte>, alphabet: Alphabet): seq<Byte> {
    Symbols(alphabet, Sextets(input)) + Padding(|input|)
  }

  function RequiredEncodeSize(size: nat): nat {
    (size / 3 + (if size % 3 != 0 then 1 else 0)) * 4
  }

  function MaxDecodeSize(size: nat): nat {
    (size / 4 + (if size % 4 != 0 then 1 else 0)) * 3
  }

  /** Sizes are those of whole blocks of three bytes and four symbols, as few as hold the rest. */
  lemma SizesAreOfBlocks(size: nat)
    ensures exists k: nat :: RequiredEncodeSize(size) == 4 * k && size <= 3 * k < size + 3
    ensures exists k: nat :: MaxDecodeSize(size) == 3 * k && size <= 4 * k < size + 4
  {
    var e, d := RequiredEncodeSize(size) / 4, MaxDecodeSize(size) / 3;
    assert RequiredEncodeSize(size) == 4 * e && size <= 3 * e < size + 3;
    assert MaxDecodeSize(size) == 3 * d && size <= 4 * d < size + 4;
  }

  lemma PaddingOfBlock(size: nat)
    requires size >= 3
    ensures Padding(size) == Padding(size - 3)
  {
  }

  /** The values of the first three bytes. */
  function FirstFour(input: seq<Byte>): (r: seq<Byte>)
    requires |input| >= 3
    ensures |r| == 4 && forall i :: 0 <= i < 4 ==> r[i] < 64
  {
    [Sextet0(input[0]), Sextet1(input[0], input[1]), Sextet2(input[1], input[2]), Sextet3(input[2])]
  }

  lemma SextetsStep(input: seq<Byte>)
    requires |input| >= 3
    ensures Sextets(input) == FirstFour(input) + Sextets(input[3..])
  {
  }

  lemma {:induction false} SymbolsOfConcat(alphabet: Alphabet, a: seq<Byte>, b: seq<Byte>, padding: seq<Byte>)
    requires (forall i :: 0 <= i < |a| ==> a[i] < 64) && (forall i :: 0 <= i < |b| ==> b[i] < 64)
    ensures Symbols(alphabet, a + b) + padding == Symbols(alphabet, a) + (Symbols(alphabet, b) + padding)
  {
  }

  lemma {:induction false} BlockEncoded(input: seq<Byte>, rest: seq<Byte>, four: seq<Byte>, alphabet: Alphabet)
    requires (forall i :: 0 <= i < |four| ==> four[i] < 64) && Sextets(input) == four + Sextets(rest)
    requires Padding(|input|) == Padding(|rest|)
    ensures Encoded(input, alphabet) == Symbols(alphabet, four) + Encoded(rest, alphabet)
  {
    SymbolsOfConcat(alphabet, four, Sextets(rest), Padding(|rest|));
  }

  lemma FourSymbols(input: seq<Byte>, alphabet: Alphabet)
    requires |input| >= 3
    ensures Symbols(alphabet, FirstFour(input))
         == [Symbol(alphabet, Sextet0(input[0])), Symbol(alphabet, Sextet1(input[0], input[1])),
             Symbol(alphabet, Sextet2(input[1], input[2])), Symbol(alphabet, Sextet3(input[2]))]
  {
  }

  lemma {:induction false} SextetsOfBlock(input: seq<Byte>, alphabet: Alphabet)
    requires |input| >= 3
    ensures Encoded(input, alphabet) == Symbols(alphabet, FirstFour(input)) + Encoded(input[3..], alphabet)
  {
    SextetsStep(input);
    PaddingOfBlock(|input|);
    BlockEncoded(input, input[3..], FirstFour(input), alphabet);
  }

  lemma EncodedEnds(i0: Byte, i1: Byte, alphabet: Alphabet)
    ensures Encoded([i0], alphabet) == [Symbol(alphabet, Sextet0(i0)), Symbol(alphabet, Sextet1(i0, 0)), PAD, PAD]
    ensures Encoded([i0, i1], alphabet)
         == [Symbol(alphabet, Sextet0(i0)), Symbol(alphabet, Sextet1(i0, i1)), Symbol(alphabet, Sextet2(i1, 0)), PAD]
  {
  }

  lemma Append(a: seq<Byte>, b: seq<Byte>, c: seq<Byte>)
    ensures a + b + c == a + (b + c)
  {
  }

  /** One turn of the loop of `encode`: up to three bytes, with the two early exits. */
  method EncodeBlock(input: seq<Byte>, start: nat, alphabet: Alphabet) returns (i: nat, out: seq<Byte>)
    requires start < |input|
    ensures start < i <= |input|
    ensures out + Encoded(input[i..], alphabet) == Encoded(input[start..], alphabet)
  {
    i := start;
    ghost var rest := input[start..];
    var i0, i1, i2 := input[i], 0, 0;
    i := i + 1;
    out := [Symbol(alphabet, Sextet0(i0))];
    if i != |input| {
      i1 := input[i];
      i := i + 1;
      out := out + [Symbol(alphabet, Sextet1(i0, i1))];
    } else {
      out := out + [Symbol(alphabet, Sextet1(i0, 0))];
      out := out + [PAD];
      out := out + [PAD];
      assert rest == [i0] && input[i..] == [];
      EncodedEnds(i0, i1, alphabet);
      assert out + [] == Encoded([i0], alphabet);
      return;
    }
    if i != |input| {
      i2 := input[i];
      i := i + 1;
      out := out + [Symbol(alphabet, Sextet2(i1, i2))];
    } else {
      out := out + [Symbol(alphabet, Sextet2(i1, 0))];
      out := out + [PAD];
      assert rest == [i0, i1] && input[i..] == [];
      EncodedEnds(i0, i1, alphabet);
      assert out + [] == Encoded([i0, i1], alphabet);
      return;
    }
    out := out + [Symbol(alphabet, Sextet3(i2))];
    assert out == [Symbol(alphabet, Sextet0(i0)), Symbol(alphabet, Sextet1(i0, i1)),
                   Symbol(alphabet, Sextet2(i1, i2)), Symbol(alphabet, Sextet3(i2))];
    assert rest[0] == i0 && rest[1] == i1 && rest[2] == i2 && rest[3..] == input[i..];
    SextetsOfBlock(rest, alphabet);
    FourSymbols(rest, alphabet);
  }

  /** `encode`. */
  method Encode(input: seq<Byte>, alphabet: Alphabet) returns (out: seq<Byte>)
    ensures out == Encoded(input, alphabet)
  {
    out := [];
    var i := 0;
    ghost var whole := Encoded(input, alphabet);
    assert input[0..] == input;
    while i != |input|
      invariant i <= |input|
      invariant out + Encoded(input[i..], alphabet) == whole
      decreases |input| - i
    {
      ghost var before := out;
      var block;
      i, block := EncodeBlock(input, i, alphabet);
      out := out + block;
      Append(before, block, Encoded(input[i..], alphabet));
    }
  }

  lemma {:induction false} EncodedSize(input: seq<Byte>, alphabet: Alphabet)
    ensures |Encoded(input, alphabet)| == RequiredEncodeSize(|input|)
  {
    if |input| >= 3 {
      SextetsOfBlock(input, alphabet);
      EncodedSize(input[3..], alphabet);
    }
  }

  // ----- decoding -----

  predicate AllPad(s: seq<Byte>) {
    forall i :: 0 <= i < |s| ==> s[i] == PAD
  }

  /** The byte completed by six more bits when `bits` bits of `last` are waiting: `last` shifted up by 8 - bits,
      `part` shifted down by bits - 2. */
  function Joined(last: Byte, part: Byte, bits: nat): Byte
    requires bits == 2 || bits == 4 || bits == 6
  {
    if bits == 2 then (last << 6) | (part >> 0)
    else if bits == 4 then (last << 4) | (part >> 2)
    else (last << 2) | (part >> 4)
  }

  /** What `decode` writes from a state on; `None` when it throws. */
  function DecodedFrom(s: seq<Byte>, alphabet: Alphabet, behavior: Behavior, bits: nat, last: Byte): Option<seq<Byte>>
    requires bits in {0, 2, 4, 6}
  {
    if s == [] then Some([])
    else if s[0] == PAD then (if behavior == Loose || AllPad(s[1..]) then Some([]) else None)
    else
      var value := Value(alphabet, s[0]);
      if value.None? then None
      else
        var (next, part) := value.value;
        if bits + 6 >= 8 then
          var rest := DecodedFrom(s[1..], next, behavior, bits - 2, part);
          if rest.None? then None else Some([Joined(last, part, bits)] + rest.value)
        else DecodedFrom(s[1..], next, behavior, bits + 6, part)
  }

  function Decoded(s: seq<Byte>, alphabet: Alphabet, behavior: Behavior): Option<seq<Byte>> {
    DecodedFrom(s, alphabet, behavior, 0, 0)
  }

  function Prepended(written: seq<Byte>, rest: Option<seq<Byte>>): Option<seq<Byte>> {
    if rest.None? then None else Some(written + rest.value)
  }

  lemma NothingPrepended(rest: Option<seq<Byte>>)
    ensures Prepended([], rest) == rest
  {
    if rest.Some? {
      assert [] + rest.value == rest.value;
    }
  }

  lemma PrependedByte(written: seq<Byte>, b: Byte, rest: Option<seq<Byte>>)
    ensures Prepended(written, if rest.None? then None else Some([b] + rest.value)) == Prepended(written + [b], rest)
  {
    if rest.Some? {
      Append(written, [b], rest.value);
    }
  }

  /** The loop over what follows the first padding character. */
  method OnlyPadding(str: array<Byte>, start: nat) returns (ok: bool)
    requires start <= str.Length
    ensures ok <==> AllPad(str[start..])
  {
    var i := start;
    while i < str.Length
      invariant start <= i <= str.Length
      invariant forall k :: start <= k < i ==> str[k] == PAD
    {
      if str[i] != PAD {
        assert str[start..][i - start] != PAD;
        return false;
      }
      i := i + 1;
    }
    return true;
  }

  /** `*out = b; ++out`, which leaves what is not read yet alone. */
  method Write(str: array<Byte>, out: nat, b: Byte, ghost unread: nat) returns (next: nat)
    requires out < unread <= str.Length
    modifies str
    ensures next == out + 1
    ensures str[..next] == old(str[..out]) + [b] && str[unread..] == old(str[unread..])
  {
    str[out] := b;
    next := out + 1;
  }

  /** How far decoding is: the alphabet, the waiting bits and the last symbol's value. */
  datatype Waiting = Waiting(alphabet: Alphabet, bits: nat, last: Byte) {
    predicate Valid() {
      bits == 0 || bits == 2 || bits == 4 || bits == 6
    }
  }

  /** What the whole text decodes to, given what is written and what is still to be read. */
  ghost function Outcome(written: seq<Byte>, unread: seq<Byte>, behavior: Behavior, w: Waiting): Option<seq<Byte>>
    requires w.Valid()
  {
    Prepended(written, DecodedFrom(unread, w.alphabet, behavior, w.bits, w.last))
  }

  /** One turn of the loop over the symbols: `None` when it throws. */
  method DecodeSymbol(str: array<Byte>, i: nat, out: nat, w: Waiting, ghost behavior: Behavior)
    returns (next: Option<(nat, Waiting)>)
    requires out <= i < str.Length && w.Valid() && w.bits == 6 * i - 8 * out && str[i] != PAD
    modifies str
    ensures next.None? ==> Outcome(old(str[..out]), old(str[i..]), behavior, w).None?
    ensures next.Some? ==>
              var (out', w') := next.value;
              && out <= out' <= i + 1 && w'.Valid() && w'.bits == 6 * (i + 1) - 8 * out'
              && str[i + 1..] == old(str[i + 1..])
              && Outcome(str[..out'], str[i + 1..], behavior, w') == Outcome(old(str[..out]), old(str[i..]), behavior, w)
  {
    ghost var written, unread := str[..out], str[i..];
    assert unread[0] == str[i] && unread[1..] == str[i + 1..];
    var value := Value(w.alphabet, str[i]);
    if value.None? {
      return None;
    }
    var (alphabet, part) := value.value;
    if w.bits + 6 >= 8 {
      var b := Joined(w.last, part, w.bits);
      PrependedByte(written, b, DecodedFrom(unread[1..], alphabet, behavior, w.bits - 2, part));
      var out' := Write(str, out, b, i + 1);
      return Some((out', Waiting(alphabet, w.bits - 2, part)));
    }
    return Some((out, Waiting(alphabet, w.bits + 6, part)));
  }

  /** What follows the loop over the symbols, with `i` the position of the first character after them. */
  method PaddingIsFine(str: array<Byte>, i: nat, behavior: Behavior) returns (ok: bool)
    requires i <= str.Length && (i < str.Length ==> str[i] == PAD)
    ensures ok <==> i == str.Length || behavior == Loose || AllPad(str[i..][1..])
  {
    ok := true;
    if i < str.Length && behavior != Loose {
      assert str[i..][1..] == str[i + 1..];
      ok := OnlyPadding(str, i + 1);
    }
  }

  /** `decode_inplace`: the characters are overwritten from the front while they are read. After `i` symbols
      floor(3 * i / 4) bytes are written, so no unread character is ever overwritten. */
  method DecodeInPlace(str: array<Byte>, alphabet: Alphabet, behavior: Behavior) returns (size: Option<nat>)
    modifies str
    ensures size.None? <==> Decoded(old(str[..]), alphabet, behavior).None?
    ensures size.Some? ==> size.value <= str.Length && Decoded(old(str[..]), alphabet, behavior) == Some(str[..size.value])
  {
    ghost var whole := Decoded(str[..], alphabet, behavior);
    var w := Waiting(alphabet, 0, 0);
    var i, out := 0, 0;
    NothingPrepended(whole);
    assert str[0..] == str[..];
    while i < str.Length && str[i] != PAD
      invariant i <= str.Length && w.Valid() && out == 3 * i / 4 && w.bits == 6 * i - 8 * out
      invariant whole == Outcome(str[..out], str[i..], behavior, w)
    {
      var next := DecodeSymbol(str, i, out, w, behavior);
      if next.None? {
        return None;
      }
      out, w := next.value.0, next.value.1;
      i := i + 1;
    }
    assert str[..out] + [] == str[..out];
    var ok := PaddingIsFine(str, i, behavior);
    if !ok {
      return None;
    }
    size := Some(out);
  }

  /** `decode` into a buffer of its own: the same loop, appending. */
  method Decode(str: seq<Byte>, alphabet: Alphabet, behavior: Behavior) returns (r: Option<seq<Byte>>)
    ensures r == Decoded(str, alphabet, behavior)
  {
    var w := Waiting(alphabet, 0, 0);
    var out: seq<Byte> := [];
    var i := 0;
    NothingPrepended(Decoded(str, alphabet, behavior));
    assert str[0..] == str;
    while i < |str| && str[i] != PAD
      invariant i <= |str| && w.Valid()
      invariant Decoded(str, alphabet, behavior) == Outcome(out, str[i..], behavior, w)
    {
      assert str[i..][0] == str[i] && str[i..][1..] == str[i + 1..];
      var value := Value(w.alphabet, str[i]);
      if value.None? {
        return None;
      }
      var part := value.value.1;
      if w.bits + 6 >= 8 {
        var b := Joined(w.last, part, w.bits);
        PrependedByte(out, b, DecodedFrom(str[i + 1..], value.value.0, behavior, w.bits - 2, part));
        out := out + [b];
        w := Waiting(value.value.0, w.bits - 2, part);
      } else {
        w := Waiting(value.value.0, w.bits + 6, part);
      }
      i := i + 1;
    }
    assert out + [] == out;
    if i < |str| {
      assert str[i..][0] == PAD && str[i..][1..] == str[i + 1..];
      i := i + 1;
    }
    if behavior != Loose {
      for k := i to |str|
        invariant forall j :: i <= j < k ==> str[j] == PAD
      {
        if str[k] != PAD {
          assert str[i..][k - i] != PAD;
          return None;
        }
      }
    }
    r := Some(out);
  }
}
