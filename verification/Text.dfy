/** Searching and trimming of strings, as the C++ string class and llama.cpp/common/common.cpp do it. */
module Text {
  import opened Wrappers

  ghost predicate OccursAt(s: string, word: string, i: nat) {
    i + |word| <= |s| && s[i..i + |word|] == word
  }

  /** `std::string::find`: the leftmost occurrence of `word` that starts at `from` or later. */
  function Find(s: string, word: string, from: nat): (r: Option<nat>)
    ensures r.Some? ==> from <= r.value && OccursAt(s, word, r.value)
    ensures r.Some? ==> forall j: nat {:trigger OccursAt(s, word, j)} :: from <= j < r.value ==> !OccursAt(s, word, j)
    ensures r.None? ==> forall j: nat {:trigger OccursAt(s, word, j)} :: from <= j ==> !OccursAt(s, word, j)
    decreases |s| - from
  {
    if |s| < from + |word| then None
    else if s[from..from + |word|] == word then Some(from)
    else Find(s, word, from + 1)
  }

  /** The leftmost occurrence is unique, so any witness of leftmostness is what `Find` returns. */
  lemma FindIs(s: string, word: string, from: nat, i: nat)
    requires from <= i && OccursAt(s, word, i)
    requires forall j: nat {:trigger OccursAt(s, word, j)} :: from <= j < i ==> !OccursAt(s, word, j)
    ensures Find(s, word, from) == Some(i)
  {
  }

  /** Occurrences in a text survive appending to it, and those within the old length are old. */
  lemma OccursInPrefix(s: string, longer: string, word: string, i: nat)
    requires s <= longer
    ensures OccursAt(s, word, i) <==> OccursAt(longer, word, i) && i + |word| <= |s|
  {
    if i + |word| <= |s| {
      assert s[i..i + |word|] == longer[i..i + |word|];
    }
  }

  /** Once a word has been found, more text does not move the place where it is found. */
  lemma FindIsStable(s: string, longer: string, word: string, from: nat)
    requires s <= longer
    requires Find(s, word, from).Some?
    ensures Find(longer, word, from) == Find(s, word, from)
  {
    var i := Find(s, word, from).value;
    OccursInPrefix(s, longer, word, i);
    forall j: nat | from <= j < i
      ensures !OccursAt(longer, word, j)
    {
      OccursInPrefix(s, longer, word, j);
    }
    FindIs(longer, word, from, i);
  }

  /** `std::isspace` in the "C" locale. */
  predicate IsSpace(c: char) {
    c == ' ' || '\t' <= c <= '\r'
  }

  /** Every position from `i` up to `j` holds a space. */
  ghost predicate Blank(s: string, i: nat, j: nat)
    requires j <= |s|
  {
    forall k :: i <= k < j ==> IsSpace(s[k])
  }

  /** The first position at or after `pos` that does not hold a space. */
  function SkipSpaces(s: string, pos: nat): (r: nat)
    requires pos <= |s|
    ensures pos <= r <= |s| && Blank(s, pos, r)
    ensures r < |s| ==> !IsSpace(s[r])
    decreases |s| - pos
  {
    if pos < |s| && IsSpace(s[pos]) then SkipSpaces(s, pos + 1) else pos
  }

  /** The end of the text in `s` once the spaces after it are dropped, not going below `start`. */
  function DropSpaces(s: string, start: nat, end: nat): (r: nat)
    requires start <= end <= |s|
    ensures start <= r <= end && Blank(s, r, end)
    ensures start < r ==> !IsSpace(s[r - 1])
  {
    if start < end && IsSpace(s[end - 1]) then DropSpaces(s, start, end - 1) else end
  }

  /** What is left of `s` without its leading and trailing spaces. */
  function Strip(s: string): string {
    var start := SkipSpaces(s, 0);
    s[start..DropSpaces(s, start, |s|)]
  }

  /** `Strip` is determined by what it removes: spaces on both sides, up to a non-space on each. */
  lemma StripIs(s: string, i: nat, j: nat)
    requires i <= j <= |s| && Blank(s, 0, i) && Blank(s, j, |s|)
    requires i < j ==> !IsSpace(s[i]) && !IsSpace(s[j - 1])
    ensures Strip(s) == s[i..j]
  {
    var start := SkipSpaces(s, 0);
    var end := DropSpaces(s, start, |s|);
    if i < j {
      assert start == i;
      assert end == j;
    } else {
      assert start == |s|;
    }
  }

  /** Stripping respects extension: more text can only lengthen what is kept. */
  lemma StripGrows(s: string, longer: string)
    requires s <= longer
    ensures Strip(s) <= Strip(longer)
  {
    var i := SkipSpaces(s, 0);
    if i < |s| {
      assert SkipSpaces(longer, 0) == i;
      var j, j' := DropSpaces(s, i, |s|), DropSpaces(longer, i, |longer|);
      assert !IsSpace(longer[j - 1]);
      assert j <= j';
    }
  }

  /** Cutting off trailing spaces changes nothing. */
  lemma StripIgnoresTrailingSpace(s: string, n: nat)
    requires n <= |s| && Blank(s, n, |s|)
    ensures Strip(s[..n]) == Strip(s)
  {
    var t := s[..n];
    var i := SkipSpaces(t, 0);
    var j := DropSpaces(t, i, n);
    StripIs(s, i, j);
    assert s[i..j] == t[i..j];
  }

  /** Cutting off a tail that is not blank loses text that was kept. */
  lemma StripNoticesTail(s: string, n: nat)
    requires n <= |s| && !Blank(s, n, |s|)
    ensures !(Strip(s) <= Strip(s[..n]))
  {
    var k :| n <= k < |s| && !IsSpace(s[k]);
    var t := s[..n];
    var i, i' := SkipSpaces(s, 0), SkipSpaces(t, 0);
    var j, j' := DropSpaces(s, i, |s|), DropSpaces(t, i', n);
    assert i <= k < j;
    assert i' < n ==> i == i';
  }

  /** The six characters that are spaces in the "C" locale. */
  predicate OnlySpaces(pad: string) {
    forall i :: 0 <= i < |pad| ==> IsOneOfSix(pad[i])
  }

  predicate IsOneOfSix(c: char) {
    c == ' ' || c == '\t' || c == '\n' || c == '\U{000B}' || c == '\U{000C}' || c == '\r'
  }

  /** Nothing at either end can be stripped off. */
  predicate Bare(t: string) {
    t != "" ==> !IsOneOfSix(t[0]) && !IsOneOfSix(t[|t| - 1])
  }

  /** Stripping takes those six off, all of them and nothing else. */
  lemma StripTakesSpacesOff(pad: string, t: string, pad': string)
    requires OnlySpaces(pad) && Bare(t) && OnlySpaces(pad')
    ensures Strip(pad + t + pad') == t
  {
    var s, i, j := pad + t + pad', |pad|, |pad| + |t|;
    assert forall k :: 0 <= k < i ==> s[k] == pad[k];
    assert forall k :: j <= k < |s| ==> s[k] == pad'[k - j];
    if t == "" {
      assert Blank(s, 0, |s|);
      StripIs(s, |s|, |s|);
    } else {
      StripIs(s, i, j);
    }
  }

  lemma SkipTakesSpaces(before: string, pad: string, t: string)
    requires OnlySpaces(pad) && (t == "" || !IsOneOfSix(t[0]))
    ensures SkipSpaces(before + pad + t, |before|) == |before + pad|
  {
    var s, i := before + pad + t, |before + pad|;
    assert forall k :: |before| <= k < i ==> s[k] == pad[k - |before|];
    var r := SkipSpaces(s, |before|);
    if r < i {
      assert IsSpace(s[r]);
    } else if t != "" {
      assert s[i] == t[0];
    }
  }

  /** `string_strip`: two indices close in on the text that is kept. */
  method StripString(str: string) returns (r: string)
    ensures r == Strip(str)
  {
    var start, end := 0, |str|;
    while start < end && IsSpace(str[start])
      invariant start <= end == |str| && Blank(str, 0, start)
    {
      start := start + 1;
    }
    while end > start && IsSpace(str[end - 1])
      invariant start <= end <= |str| && Blank(str, end, |str|)
      invariant start < end ==> !IsSpace(str[start])
    {
      end := end - 1;
    }
    StripIs(str, start, end);
    r := str[start..end];
  }
}
