/** Splitting, joining and replacing (llama.cpp/common/common.cpp:431-446 and 472-497). */
module SplitJoin {
  import opened Wrappers
  import opened Text

  // ----- what the loops compute -----

  function Split(s: string, delimiter: string, start: nat): (parts: seq<string>)
    requires delimiter != "" && start <= |s|
    ensures parts != []
    decreases |s| - start
  {
    var end := Find(s, delimiter, start);
    if end.None? then [s[start..]]
    else [s[start..end.value]] + Split(s, delimiter, end.value + |delimiter|)
  }

  function Join(values: seq<string>, separator: string): string {
    if values == [] then ""
    else if |values| == 1 then values[0]
    else values[0] + separator + Join(values[1..], separator)
  }

  function Replaced(s: string, search: string, replace: string, from: nat): string
    requires search != "" && from <= |s|
    decreases |s| - from
  {
    var pos := Find(s, search, from);
    if pos.None? then s[from..]
    else s[from..pos.value] + replace + Replaced(s, search, replace, pos.value + |search|)
  }

  // ----- the methods -----

  /** `string_split`; with an empty delimiter it would never end. */
  method StringSplit(str: string, delimiter: string) returns (parts: seq<string>)
    requires delimiter != ""
    ensures parts == Split(str, delimiter, 0)
  {
    parts := [];
    var start := 0;
    var end := Find(str, delimiter, 0);
    while end.Some?
      invariant start <= |str| && end == Find(str, delimiter, start)
      invariant parts + Split(str, delimiter, start) == Split(str, delimiter, 0)
      decreases |str| - start
    {
      parts := parts + [str[start..end.value]];
      start := end.value + |delimiter|;
      end := Find(str, delimiter, start);
    }
    parts := parts + [str[start..]];
  }

  /** `string_join`. */
  method StringJoin(values: seq<string>, separator: string) returns (result: string)
    ensures result == Join(values, separator)
  {
    result := "";
    for i := 0 to |values|
      invariant result == Join(values[..i], separator)
    {
      JoinOfAppend(values[..i], values[i], separator);
      assert values[..i + 1] == values[..i] + [values[i]];
      if i > 0 {
        result := result + separator;
      }
      result := result + values[i];
    }
    assert values[..|values|] == values;
  }

  lemma {:induction false} JoinOfAppend(values: seq<string>, last: string, separator: string)
    ensures Join(values + [last], separator)
         == if values == [] then last else Join(values, separator) + separator + last
  {
    if |values| == 1 {
      assert (values + [last])[1..] == [last];
    } else if |values| > 1 {
      assert (values + [last])[1..] == values[1..] + [last];
      JoinOfAppend(values[1..], last, separator);
    }
  }

  lemma AppendAll(a: string, b: string, c: string, d: string)
    ensures a + (b + c + d) == a + b + c + d
  {
  }

  /** `string_replace_all`. */
  method StringReplaceAll(s: string, search: string, replace: string) returns (r: string)
    ensures r == if search == "" then s else Replaced(s, search, replace, 0)
  {
    if search == "" {
      return s;
    }
    var builder := "";
    var lastPos := 0;
    var pos := Find(s, search, lastPos);
    ghost var total := Replaced(s, search, replace, 0);
    assert "" + total == total;
    while pos.Some?
      invariant lastPos <= |s| && pos == Find(s, search, lastPos)
      invariant builder + Replaced(s, search, replace, lastPos) == total
      decreases |s| - lastPos
    {
      ghost var rest := Replaced(s, search, replace, pos.value + |search|);
      assert Replaced(s, search, replace, lastPos) == s[lastPos..pos.value] + replace + rest;
      AppendAll(builder, s[lastPos..pos.value], replace, rest);
      builder := builder + s[lastPos..pos.value];
      builder := builder + replace;
      lastPos := pos.value + |search|;
      pos := Find(s, search, lastPos);
    }
    builder := builder + s[lastPos..];
    r := builder;
  }

  // ----- how they agree -----

  lemma JoinOfCons(first: string, rest: seq<string>, separator: string)
    requires rest != []
    ensures Join([first] + rest, separator) == first + separator + Join(rest, separator)
  {
    assert ([first] + rest)[1..] == rest;
  }

  /** Replacing is splitting at the search string and joining with the replacement. */
  lemma {:induction false} ReplaceIsJoinOfSplit(s: string, search: string, replace: string, from: nat)
    requires search != "" && from <= |s|
    ensures Replaced(s, search, replace, from) == Join(Split(s, search, from), replace)
    decreases |s| - from
  {
    var pos := Find(s, search, from);
    if pos.Some? {
      var next, first := pos.value + |search|, s[from..pos.value];
      ReplaceIsJoinOfSplit(s, search, replace, next);
      JoinOfCons(first, Split(s, search, next), replace);
      assert Split(s, search, from) == [first] + Split(s, search, next);
      assert Replaced(s, search, replace, from) == first + replace + Replaced(s, search, replace, next);
    }
  }

  /** Joining what was split gives the text back. */
  lemma {:induction false} JoinUndoesSplit(s: string, delimiter: string, start: nat)
    requires delimiter != "" && start <= |s|
    ensures Join(Split(s, delimiter, start), delimiter) == s[start..]
    decreases |s| - start
  {
    var end := Find(s, delimiter, start);
    if end.Some? {
      var next := end.value + |delimiter|;
      JoinUndoesSplit(s, delimiter, next);
      JoinOfCons(s[start..end.value], Split(s, delimiter, next), delimiter);
      assert s[start..] == s[start..end.value] + s[end.value..next] + s[next..];
    }
  }

  /** No part contains the delimiter, so the parts are as many as they can be. */
  lemma {:induction false} PartsHoldNoDelimiter(s: string, delimiter: string, start: nat)
    requires delimiter != "" && start <= |s|
    ensures forall part :: part in Split(s, delimiter, start) ==> Find(part, delimiter, 0).None?
    decreases |s| - start
  {
    var end := Find(s, delimiter, start);
    NoDelimiterBefore(s, delimiter, start, if end.Some? then end.value else |s|);
    if end.Some? {
      PartsHoldNoDelimiter(s, delimiter, end.value + |delimiter|);
    } else {
      assert s[start..|s|] == s[start..];
    }
  }

  lemma SliceOfSlice(s: string, start: nat, end: nat, i: nat, j: nat)
    requires start <= end <= |s| && i <= j <= end - start
    ensures s[start..end][i..j] == s[start + i..start + j]
  {
    forall k | 0 <= k < j - i
      ensures s[start..end][i..j][k] == s[start + i..start + j][k]
    {
      assert s[start..end][i + k] == s[start + i + k];
    }
  }

  lemma NoDelimiterBefore(s: string, delimiter: string, start: nat, end: nat)
    requires delimiter != "" && start <= end <= |s|
    requires Find(s, delimiter, start).Some? ==> end <= Find(s, delimiter, start).value
    ensures Find(s[start..end], delimiter, 0).None?
  {
    var part := s[start..end];
    var i := Find(part, delimiter, 0);
    if i.Some? {
      SliceOfSlice(s, start, end, i.value, i.value + |delimiter|);
      assert OccursAt(s, delimiter, start + i.value);
    }
  }

  /** Replacing a string by itself changes nothing. */
  lemma ReplaceByItself(s: string, search: string)
    requires search != ""
    ensures Replaced(s, search, search, 0) == s
  {
    ReplaceIsJoinOfSplit(s, search, search, 0);
    JoinUndoesSplit(s, search, 0);
  }
}
