/** What the Base64 codec promises, bit by bit (llama.cpp/common/base64.hpp; sections 4 and 5 of RFC 4648). */
module Base64Laws {
  import opened Wrappers
  import opened Base64

  type Bits = seq<bool>

  // ----- bit strings, most significant bit first -----

  function Bits8(b: Byte): (r: Bits)
    ensures |r| == 8
  {
    [b & 0x80 != 0, b & 0x40 != 0, b & 0x20 != 0, b & 0x10 != 0,
     b & 0x08 != 0, b & 0x04 != 0, b & 0x02 != 0, b & 0x01 != 0]
  }

  function Bits6(v: Byte): (r: Bits)
    ensures |r| == 6
  {
    Bits8(v)[2..]
  }

  function BytesBits(bytes: seq<Byte>): (r: Bits)
    ensures |r| == 8 * |bytes|
  {
    if bytes == [] then [] else Bits8(bytes[0]) + BytesBits(bytes[1..])
  }

  function SextetsBits(values: seq<Byte>): (r: Bits)
    ensures |r| == 6 * |values|
  {
    if values == [] then [] else Bits6(values[0]) + SextetsBits(values[1..])
  }

  lemma Bits8Injective(a: Byte, b: Byte)
    requires Bits8(a) == Bits8(b)
    ensures a == b
  {
    assert forall k :: 0 <= k < 8 ==> Bits8(a)[k] == Bits8(b)[k];
    assert Bits8(a)[0] == Bits8(b)[0] && Bits8(a)[1] == Bits8(b)[1] && Bits8(a)[2] == Bits8(b)[2]
        && Bits8(a)[3] == Bits8(b)[3] && Bits8(a)[4] == Bits8(b)[4] && Bits8(a)[5] == Bits8(b)[5]
        && Bits8(a)[6] == Bits8(b)[6] && Bits8(a)[7] == Bits8(b)[7];
  }

  lemma {:induction false} BytesBitsInjective(a: seq<Byte>, b: seq<Byte>)
    requires BytesBits(a) == BytesBits(b)
    ensures a == b
  {
    assert |a| == |b|;
    if a != [] {
      assert Bits8(a[0]) == BytesBits(a)[..8] == BytesBits(b)[..8] == Bits8(b[0]);
      Bits8Injective(a[0], b[0]);
      assert BytesBits(a[1..]) == BytesBits(a)[8..] == BytesBits(b)[8..] == BytesBits(b[1..]);
      BytesBitsInjective(a[1..], b[1..]);
    }
  }

  // ----- encoding -----

  lemma Sextet0Bits(i0: Byte)
    ensures Bits6(Sextet0(i0)) == Bits8(i0)[..6]
  {
  }

  lemma Sextet1Bits(i0: Byte, i1: Byte)
    ensures Bits6(Sextet1(i0, i1)) == Bits8(i0)[6..] + Bits8(i1)[..4]
  {
  }

  lemma Sextet2Bits(i1: Byte, i2: Byte)
    ensures Bits6(Sextet2(i1, i2)) == Bits8(i1)[4..] + Bits8(i2)[..2]
  {
  }

  lemma Sextet3Bits(i2: Byte)
    ensures Bits6(Sextet3(i2)) == Bits8(i2)[2..]
  {
  }

  /** Three times eight bits regrouped as four times six. */
  lemma Regroup(x: Bits, y: Bits, z: Bits)
    requires |x| == |y| == |z| == 8
    ensures x[..6] + (x[6..] + y[..4]) + (y[4..] + z[..2]) + z[2..] == x + y + z
  {
  }

  lemma ZeroBits()
    ensures Bits8(0) == [false, false, false, false, false, false, false, false]
  {
  }

  /** How many zero bits fill up the last symbol. */
  function Fill(size: nat): nat {
    if size % 3 == 1 then 4 else if size % 3 == 2 then 2 else 0
  }

  function Zeros(n: nat): Bits {
    seq(n, _ => false)
  }

  lemma SextetsCons(v: Byte, rest: seq<Byte>)
    ensures SextetsBits([v] + rest) == Bits6(v) + SextetsBits(rest)
  {
    assert ([v] + rest)[1..] == rest;
  }

  lemma BytesCons(b: Byte, rest: seq<Byte>)
    ensures BytesBits([b] + rest) == Bits8(b) + BytesBits(rest)
  {
    assert ([b] + rest)[1..] == rest;
  }

  lemma TwoSextets(a: Byte, b: Byte, rest: seq<Byte>)
    ensures SextetsBits([a, b] + rest) == Bits6(a) + Bits6(b) + SextetsBits(rest)
  {
    assert [a, b] + rest == [a] + ([b] + rest);
    SextetsCons(a, [b] + rest);
    SextetsCons(b, rest);
  }

  lemma FourSextets(a: Byte, b: Byte, c: Byte, d: Byte, rest: seq<Byte>)
    ensures SextetsBits([a, b, c, d] + rest) == Bits6(a) + Bits6(b) + Bits6(c) + Bits6(d) + SextetsBits(rest)
  {
    assert [a, b, c, d] + rest == [a, b] + ([c, d] + rest);
    TwoSextets(a, b, [c, d] + rest);
    TwoSextets(c, d, rest);
  }

  lemma TwoBytes(a: Byte, b: Byte, rest: seq<Byte>)
    ensures BytesBits([a, b] + rest) == Bits8(a) + Bits8(b) + BytesBits(rest)
  {
    assert [a, b] + rest == [a] + ([b] + rest);
    BytesCons(a, [b] + rest);
    BytesCons(b, rest);
  }

  lemma ThreeBytes(a: Byte, b: Byte, c: Byte, rest: seq<Byte>)
    ensures BytesBits([a, b, c] + rest) == Bits8(a) + Bits8(b) + Bits8(c) + BytesBits(rest)
  {
    assert [a, b, c] + rest == [a, b] + ([c] + rest);
    TwoBytes(a, b, [c] + rest);
    BytesCons(c, rest);
  }

  lemma BlockBits(i0: Byte, i1: Byte, i2: Byte)
    ensures Bits6(Sextet0(i0)) + Bits6(Sextet1(i0, i1)) + Bits6(Sextet2(i1, i2)) + Bits6(Sextet3(i2))
         == Bits8(i0) + Bits8(i1) + Bits8(i2)
  {
    Sextet0Bits(i0);
    Sextet1Bits(i0, i1);
    Sextet2Bits(i1, i2);
    Sextet3Bits(i2);
    Regroup(Bits8(i0), Bits8(i1), Bits8(i2));
  }

  lemma TwoBytesBits(i0: Byte, i1: Byte)
    ensures SextetsBits(Sextets([i0, i1])) == BytesBits([i0, i1]) + Zeros(2)
  {
    Sextet0Bits(i0);
    Sextet1Bits(i0, i1);
    Sextet2Bits(i1, 0);
    ZeroBits();
    var a, b, c := Sextet0(i0), Sextet1(i0, i1), Sextet2(i1, 0);
    assert Sextets([i0, i1]) == [a, b] + ([c] + []);
    TwoSextets(a, b, [c] + []);
    SextetsCons(c, []);
    assert [i0, i1] == [i0, i1] + [];
    TwoBytes(i0, i1, []);
    TwoRegrouped(Bits8(i0), Bits8(i1), Bits8(0));
  }

  lemma TwoRegrouped(x: Bits, y: Bits, z: Bits)
    requires |x| == |y| == |z| == 8 && z[..2] == Zeros(2)
    ensures x[..6] + (x[6..] + y[..4]) + ((y[4..] + z[..2]) + []) == x + y + [] + Zeros(2)
  {
  }

  lemma OneByteBits(i0: Byte)
    ensures SextetsBits(Sextets([i0])) == BytesBits([i0]) + Zeros(4)
  {
    Sextet0Bits(i0);
    Sextet1Bits(i0, 0);
    ZeroBits();
    var a, b := Sextet0(i0), Sextet1(i0, 0);
    assert Sextets([i0]) == [a, b] + [];
    TwoSextets(a, b, []);
    assert [i0] == [i0] + [];
    BytesCons(i0, []);
    OneRegrouped(Bits8(i0), Bits8(0));
  }

  lemma OneRegrouped(x: Bits, z: Bits)
    requires |x| == |z| == 8 && z[..4] == Zeros(4)
    ensures x[..6] + (x[6..] + z[..4]) + [] == x + [] + Zeros(4)
  {
  }

  lemma Assoc(x: Bits, y: Bits, z: Bits)
    ensures x + (y + z) == (x + y) + z
  {
  }

  lemma SextetsOfBytes(i0: Byte, i1: Byte, i2: Byte, rest: seq<Byte>)
    ensures SextetsBits(Sextets([i0, i1, i2] + rest))
         == Bits8(i0) + Bits8(i1) + Bits8(i2) + SextetsBits(Sextets(rest))
  {
    var input := [i0, i1, i2] + rest;
    assert input[3..] == rest;
    var a, b, c, d := Sextet0(i0), Sextet1(i0, i1), Sextet2(i1, i2), Sextet3(i2);
    assert Sextets(input) == [a, b, c, d] + Sextets(rest);
    FourSextets(a, b, c, d, Sextets(rest));
    BlockBits(i0, i1, i2);
  }

  lemma BlockSpellsBits(i0: Byte, i1: Byte, i2: Byte, rest: seq<Byte>)
    requires SextetsBits(Sextets(rest)) == BytesBits(rest) + Zeros(Fill(|rest|))
    ensures var input := [i0, i1, i2] + rest;
            SextetsBits(Sextets(input)) == BytesBits(input) + Zeros(Fill(|input|))
  {
    SextetsOfBytes(i0, i1, i2, rest);
    ThreeBytes(i0, i1, i2, rest);
    Assoc(Bits8(i0) + Bits8(i1) + Bits8(i2), BytesBits(rest), Zeros(Fill(|rest|)));
    assert Fill(3 + |rest|) == Fill(|rest|);
  }

  /** The symbols of an encoding spell the bits of the input in order, filled up with zero bits. */
  lemma {:induction false} EncodingSpellsBits(input: seq<Byte>)
    ensures SextetsBits(Sextets(input)) == BytesBits(input) + Zeros(Fill(|input|))
  {
    if |input| == 0 {
    } else if |input| == 1 {
      assert input == [input[0]];
      OneByteBits(input[0]);
    } else if |input| == 2 {
      assert input == [input[0], input[1]];
      TwoBytesBits(input[0], input[1]);
    } else {
      EncodingSpellsBits(input[3..]);
      assert input == [input[0], input[1], input[2]] + input[3..];
      BlockSpellsBits(input[0], input[1], input[2], input[3..]);
    }
  }

  // ----- decoding -----

  /** The values of the symbols before the padding, for one of the two alphabets. */
  function ValuesOf(s: seq<Byte>, alphabet: Alphabet): (r: seq<Byte>)
    requires alphabet != Auto
  {
    if s == [] || s[0] == PAD || Value(alphabet, s[0]).None? then []
    else [Value(alphabet, s[0]).value.1] + ValuesOf(s[1..], alphabet)
  }

  /** The bits of the last symbol that are not in a byte yet. */
  function Carried(bits: nat, last: Byte): (r: Bits)
    requires bits <= 6
    ensures |r| == bits
  {
    Bits6(last)[6 - bits..]
  }

  lemma JoinedBits2(last: Byte, part: Byte)
    requires last < 64 && part < 64
    ensures Bits8(Joined(last, part, 2)) == Bits6(last)[4..] + Bits6(part)[..6]
  {
  }

  lemma JoinedBits4(last: Byte, part: Byte)
    requires last < 64 && part < 64
    ensures Bits8(Joined(last, part, 4)) == Bits6(last)[2..] + Bits6(part)[..4]
  {
  }

  lemma JoinedBits6(last: Byte, part: Byte)
    requires last < 64 && part < 64
    ensures Bits8(Joined(last, part, 6)) == Bits6(last)[0..] + Bits6(part)[..2]
  {
  }

  lemma JoinedBits(last: Byte, part: Byte, bits: nat)
    requires bits == 2 || bits == 4 || bits == 6
    requires last < 64 && part < 64
    ensures Bits8(Joined(last, part, bits)) == Carried(bits, last) + Bits6(part)[..8 - bits]
  {
    if bits == 2 {
      JoinedBits2(last, part);
    } else if bits == 4 {
      JoinedBits4(last, part);
    } else {
      JoinedBits6(last, part);
    }
  }

  lemma JoinStep(carried: Bits, part: Bits, cut: nat, rest: Bits, n: nat)
    requires |part| == 6 && cut <= 6 && |carried| + cut == 8 && n <= |part[cut..] + rest|
    ensures (carried + part[..cut]) + (part[cut..] + rest)[..n] == (carried + (part + rest))[..8 + n]
  {
    assert carried + (part + rest) == (carried + part[..cut]) + (part[cut..] + rest);
  }

  /** Bytes that are the whole bytes at the front of a bit string. */
  ghost predicate Spells(out: seq<Byte>, stream: Bits) {
    |out| == |stream| / 8 && BytesBits(out) == stream[..8 * |out|]
  }

  lemma JoinedSpells(last: Byte, part: Byte, bits: nat, rest: seq<Byte>, stream: Bits)
    requires bits == 2 || bits == 4 || bits == 6
    requires last < 64 && part < 64 && Spells(rest, Carried(bits - 2, part) + stream)
    ensures Spells([Joined(last, part, bits)] + rest, Carried(bits, last) + (Bits6(part) + stream))
  {
    BytesCons(Joined(last, part, bits), rest);
    JoinedBits(last, part, bits);
    JoinStep(Carried(bits, last), Bits6(part), 8 - bits, stream, 8 * |rest|);
  }

  lemma WaitingSpells(last: Byte, part: Byte, out: seq<Byte>, stream: Bits)
    requires Spells(out, Carried(6, part) + stream)
    ensures Spells(out, Carried(0, last) + (Bits6(part) + stream))
  {
    assert Carried(6, part) == Bits6(part);
    assert Carried(0, last) + (Bits6(part) + stream) == Bits6(part) + stream;
  }

  lemma NothingSpells(last: Byte, bits: nat)
    requires bits <= 6
    ensures Spells([], Carried(bits, last) + [])
  {
  }

  lemma ValuesCons(s: seq<Byte>, alphabet: Alphabet)
    requires alphabet != Auto && s != [] && s[0] != PAD && Value(alphabet, s[0]).Some?
    ensures var part := Value(alphabet, s[0]).value.1;
            SextetsBits(ValuesOf(s, alphabet)) == Bits6(part) + SextetsBits(ValuesOf(s[1..], alphabet))
  {
    SextetsCons(Value(alphabet, s[0]).value.1, ValuesOf(s[1..], alphabet));
  }

  /** What one symbol contributes to what is decoded. */
  lemma DecodedStep(s: seq<Byte>, alphabet: Alphabet, behavior: Behavior, bits: nat, last: Byte)
    requires alphabet != Auto && (bits == 0 || bits == 2 || bits == 4 || bits == 6) && s != [] && s[0] != PAD
    requires DecodedFrom(s, alphabet, behavior, bits, last).Some?
    ensures Value(alphabet, s[0]).Some? && Value(alphabet, s[0]).value.1 < 64
    ensures var part := Value(alphabet, s[0]).value.1;
            var rest := DecodedFrom(s[1..], alphabet, behavior, if bits == 0 then 6 else bits - 2, part);
            && rest.Some?
            && DecodedFrom(s, alphabet, behavior, bits, last).value
            == if bits == 0 then rest.value else [Joined(last, part, bits)] + rest.value
  {
  }

  /** Whatever is accepted, the decoded bytes are the whole bytes at the front of the symbols' bits: one for every
      eight bits, in order, the rest being ignored. */
  lemma {:induction false} DecodingSpellsBits(s: seq<Byte>, alphabet: Alphabet, behavior: Behavior, bits: nat, last: Byte)
    requires alphabet != Auto && (bits == 0 || bits == 2 || bits == 4 || bits == 6) && last < 64
    requires DecodedFrom(s, alphabet, behavior, bits, last).Some?
    ensures Spells(DecodedFrom(s, alphabet, behavior, bits, last).value,
                   Carried(bits, last) + SextetsBits(ValuesOf(s, alphabet)))
  {
    if s == [] || s[0] == PAD {
      NothingSpells(last, bits);
    } else {
      DecodedStep(s, alphabet, behavior, bits, last);
      var part := Value(alphabet, s[0]).value.1;
      var stream := SextetsBits(ValuesOf(s[1..], alphabet));
      ValuesCons(s, alphabet);
      var next := if bits == 0 then 6 else bits - 2;
      DecodingSpellsBits(s[1..], alphabet, behavior, next, part);
      var rest := DecodedFrom(s[1..], alphabet, behavior, next, part).value;
      if bits == 0 {
        WaitingSpells(last, part, rest, stream);
      } else {
        JoinedSpells(last, part, bits, rest, stream);
      }
    }
  }

  lemma {:induction false} ValuesBound(s: seq<Byte>, alphabet: Alphabet)
    requires alphabet != Auto
    ensures |ValuesOf(s, alphabet)| <= |s|
  {
    if s != [] && s[0] != PAD && Value(alphabet, s[0]).Some? {
      ValuesBound(s[1..], alphabet);
    }
  }

  function FirstPad(s: seq<Byte>): (r: nat)
    ensures r <= |s| && (forall i :: 0 <= i < r ==> s[i] != PAD) && (r < |s| ==> s[r] == PAD)
  {
    if s == [] || s[0] == PAD then 0 else 1 + FirstPad(s[1..])
  }

  /** Symbols of the alphabet up to the first padding character, and after it only padding unless decoding is loose. */
  predicate Acceptable(s: seq<Byte>, alphabet: Alphabet, behavior: Behavior) {
    && (forall i :: 0 <= i < FirstPad(s) ==> Value(alphabet, s[i]).Some?)
    && (behavior == Loose || AllPad(s[FirstPad(s)..]))
  }

  lemma AcceptablePadding(s: seq<Byte>, alphabet: Alphabet, behavior: Behavior)
    requires s != [] && s[0] == PAD
    ensures Acceptable(s, alphabet, behavior) <==> behavior == Loose || AllPad(s[1..])
  {
    assert s[0..] == s;
    assert forall i :: 0 < i < |s| ==> s[i] == s[1..][i - 1];
    assert forall i :: 0 <= i < |s[1..]| ==> s[1..][i] == s[i + 1];
  }

  lemma AcceptableStep(s: seq<Byte>, alphabet: Alphabet, behavior: Behavior)
    requires s != [] && s[0] != PAD
    ensures Acceptable(s, alphabet, behavior) <==> Value(alphabet, s[0]).Some? && Acceptable(s[1..], alphabet, behavior)
  {
    var n := FirstPad(s[1..]);
    assert s[n + 1..] == s[1..][n..];
    assert forall i :: 0 < i < n + 1 ==> s[i] == s[1..][i - 1];
    assert forall i :: 0 <= i < n ==> s[1..][i] == s[i + 1];
  }

  /** Exactly what decoding accepts with a fixed alphabet. */
  lemma {:induction false} AcceptedIff(s: seq<Byte>, alphabet: Alphabet, behavior: Behavior, bits: nat, last: Byte)
    requires alphabet != Auto && (bits == 0 || bits == 2 || bits == 4 || bits == 6)
    ensures DecodedFrom(s, alphabet, behavior, bits, last).Some? <==> Acceptable(s, alphabet, behavior)
  {
    if s != [] && s[0] == PAD {
      AcceptablePadding(s, alphabet, behavior);
    } else if s != [] {
      AcceptableStep(s, alphabet, behavior);
      if Value(alphabet, s[0]).Some? {
        AcceptedIff(s[1..], alphabet, behavior, if bits == 0 then 6 else bits - 2, Value(alphabet, s[0]).value.1);
      }
    }
  }

  // ----- the two alphabets and their detection -----

  /** Detecting the alphabet gives what one of the two alphabets gives, from any state. */
  lemma {:induction false} DetectionIsOneOfThem(s: seq<Byte>, behavior: Behavior, bits: nat, last: Byte)
    requires bits == 0 || bits == 2 || bits == 4 || bits == 6
    ensures var auto := DecodedFrom(s, Auto, behavior, bits, last);
            var standard := DecodedFrom(s, Standard, behavior, bits, last);
            var url := DecodedFrom(s, UrlFilenameSafe, behavior, bits, last);
            && (auto.Some? <==> standard.Some? || url.Some?)
            && (standard.Some? ==> auto == standard)
            && (url.Some? ==> auto == url)
  {
    if s != [] && s[0] != PAD && Alphanumeric(s[0]) {
      var part := Value(Standard, s[0]).value.1;
      DetectionIsOneOfThem(s[1..], behavior, if bits == 0 then 6 else bits - 2, part);
    }
  }

  /** No symbol before the padding belongs to one alphabet only. */
  ghost predicate SymbolsAvoid(s: seq<Byte>, avoided: Byte -> bool) {
    s == [] || s[0] == PAD || (!avoided(s[0]) && SymbolsAvoid(s[1..], avoided))
  }

  lemma {:induction false} AlphabetAvoidsOther(s: seq<Byte>, behavior: Behavior, bits: nat, last: Byte)
    requires bits == 0 || bits == 2 || bits == 4 || bits == 6
    ensures DecodedFrom(s, Standard, behavior, bits, last).Some? ==> SymbolsAvoid(s, UrlOnly)
    ensures DecodedFrom(s, UrlFilenameSafe, behavior, bits, last).Some? ==> SymbolsAvoid(s, StandardOnly)
  {
    if s != [] && s[0] != PAD {
      var next := if bits == 0 then 6 else bits - 2;
      if Value(Standard, s[0]).Some? {
        AlphabetAvoidsOther(s[1..], behavior, next, Value(Standard, s[0]).value.1);
      }
      if Value(UrlFilenameSafe, s[0]).Some? {
        AlphabetAvoidsOther(s[1..], behavior, next, Value(UrlFilenameSafe, s[0]).value.1);
      }
    }
  }

  /** Detection succeeds exactly when a fixed alphabet does, with the same bytes; symbols that belong to different
      alphabets are refused. */
  lemma DetectionLaw(s: seq<Byte>, behavior: Behavior)
    ensures var auto, standard, url :=
              Decoded(s, Auto, behavior), Decoded(s, Standard, behavior), Decoded(s, UrlFilenameSafe, behavior);
            && (auto.Some? <==> standard.Some? || url.Some?)
            && (standard.Some? ==> auto == standard)
            && (url.Some? ==> auto == url)
    ensures !SymbolsAvoid(s, UrlOnly) && !SymbolsAvoid(s, StandardOnly) ==> Decoded(s, Auto, behavior).None?
  {
    DetectionIsOneOfThem(s, behavior, 0, 0);
    AlphabetAvoidsOther(s, behavior, 0, 0);
  }

  // ----- round trip -----

  lemma {:induction false} SymbolsAreAccepted(values: seq<Byte>, padding: seq<Byte>, alphabet: Alphabet,
                                              behavior: Behavior, bits: nat, last: Byte)
    requires bits == 0 || bits == 2 || bits == 4 || bits == 6
    requires AllPad(padding) && forall i :: 0 <= i < |values| ==> values[i] < 64
    ensures var s := Symbols(alphabet, values) + padding;
            && DecodedFrom(s, Fixed(alphabet), behavior, bits, last).Some?
            && ValuesOf(s, Fixed(alphabet)) == values
    decreases |values|
  {
    var s := Symbols(alphabet, values) + padding;
    if values == [] {
      assert s == padding;
    } else {
      SymbolHasItsValue(alphabet, values[0]);
      assert s[1..] == Symbols(alphabet, values[1..]) + padding;
      SymbolsAreAccepted(values[1..], padding, alphabet, behavior, if bits == 0 then 6 else bits - 2, values[0]);
      assert values == [values[0]] + values[1..];
    }
  }

  lemma WholeBytesOf(whole: Bits, fill: Bits, n: nat)
    requires |whole| == 8 * n && |fill| < 8
    ensures |whole + fill| / 8 == n && (whole + fill)[..8 * n] == whole
  {
  }

  lemma SpelledIsInput(out: seq<Byte>, input: seq<Byte>, fill: Bits)
    requires |fill| < 8 && Spells(out, BytesBits(input) + fill)
    ensures out == input
  {
    WholeBytesOf(BytesBits(input), fill, |input|);
    BytesBitsInjective(out, input);
  }

  lemma RoundTripFixed(input: seq<Byte>, alphabet: Alphabet, behavior: Behavior, padding: seq<Byte>)
    requires AllPad(padding)
    ensures Decoded(Symbols(alphabet, Sextets(input)) + padding, Fixed(alphabet), behavior) == Some(input)
  {
    var values := Sextets(input);
    var s := Symbols(alphabet, values) + padding;
    SymbolsAreAccepted(values, padding, alphabet, behavior, 0, 0);
    DecodingSpellsBits(s, Fixed(alphabet), behavior, 0, 0);
    EncodingSpellsBits(input);
    assert Carried(0, 0) + SextetsBits(values) == SextetsBits(values);
    SpelledIsInput(Decoded(s, Fixed(alphabet), behavior).value, input, Zeros(Fill(|input|)));
  }

  /** Decoding an encoding gives the input back, with its alphabet or with detection, strictly or loosely, and with
      any number of padding characters. */
  lemma RoundTrip(input: seq<Byte>, alphabet: Alphabet, behavior: Behavior, padding: seq<Byte>)
    requires AllPad(padding)
    ensures var s := Symbols(alphabet, Sextets(input)) + padding;
            && Decoded(s, Fixed(alphabet), behavior) == Some(input)
            && Decoded(s, Auto, behavior) == Some(input)
  {
    RoundTripFixed(input, alphabet, behavior, padding);
    DetectionLaw(Symbols(alphabet, Sextets(input)) + padding, behavior);
  }

  /** In particular with the padding `encode` writes, and without any. */
  lemma RoundTripOfEncoded(input: seq<Byte>, alphabet: Alphabet, behavior: Behavior)
    ensures Decoded(Encoded(input, alphabet), Fixed(alphabet), behavior) == Some(input)
    ensures Decoded(Encoded(input, alphabet), Auto, behavior) == Some(input)
    ensures Decoded(Symbols(alphabet, Sextets(input)), Auto, behavior) == Some(input)
  {
    RoundTrip(input, alphabet, behavior, Padding(|input|));
    RoundTrip(input, alphabet, behavior, []);
    assert Symbols(alphabet, Sextets(input)) + [] == Symbols(alphabet, Sextets(input));
  }

  /** The announced sizes: exact for encoding, an upper bound for decoding. */
  lemma Sizes(input: seq<Byte>, s: seq<Byte>, alphabet: Alphabet, behavior: Behavior)
    ensures |Encoded(input, alphabet)| == RequiredEncodeSize(|input|)
    ensures Decoded(s, alphabet, behavior).Some? ==> |Decoded(s, alphabet, behavior).value| <= MaxDecodeSize(|s|)
  {
    EncodedSize(input, alphabet);
    DetectionLaw(s, behavior);
    if Decoded(s, Standard, behavior).Some? {
      DecodingSpellsBits(s, Standard, behavior, 0, 0);
      ValuesBound(s, Standard);
    }
    if Decoded(s, UrlFilenameSafe, behavior).Some? {
      DecodingSpellsBits(s, UrlFilenameSafe, behavior, 0, 0);
      ValuesBound(s, UrlFilenameSafe);
    }
  }
}
