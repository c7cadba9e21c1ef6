/** Looking for a stop word whose beginning is the end of the text so far (llama.cpp/common/common.cpp). */
module PartialStop {
  import opened Wrappers
  import opened Text

  /** From `i` on, the text is a non-empty beginning of the stop word. */
  ghost predicate BeginsAt(str: string, stop: string, i: nat) {
    i < |str| <= i + |stop| && str[i..] == stop[..|str| - i]
  }

  /** Where the longest such beginning starts, searched from the left. */
  ghost function Start(str: string, stop: string): (r: Option<nat>)
    ensures r.Some? ==> BeginsAt(str, stop, r.value)
    ensures r.Some? ==> forall i: nat :: BeginsAt(str, stop, i) ==> r.value <= i
    ensures r.None? ==> forall i: nat :: !BeginsAt(str, stop, i)
  {
    StartFrom(str, stop, 0)
  }

  ghost function StartFrom(str: string, stop: string, from: nat): (r: Option<nat>)
    ensures r.Some? ==> BeginsAt(str, stop, r.value)
    ensures r.Some? ==> forall i: nat :: from <= i && BeginsAt(str, stop, i) ==> r.value <= i
    ensures r.None? ==> forall i: nat :: from <= i ==> !BeginsAt(str, stop, i)
    decreases |str| - from
  {
    if |str| <= from then None
    else if BeginsAt(str, stop, from) then Some(from)
    else StartFrom(str, stop, from + 1)
  }

  lemma LastCharacterMatches(str: string, stop: string, i: nat)
    requires BeginsAt(str, stop, i)
    ensures str[|str| - 1] == stop[|str| - i - 1]
  {
    assert str[i..][|str| - i - 1] == stop[..|str| - i][|str| - i - 1];
  }

  predicate EndsWith(str: string, suffix: string) {
    |suffix| <= |str| && str[|str| - |suffix|..] == suffix
  }

  /** `string_find_partial_stop`: tries the beginnings of the stop word from the longest to the shortest. */
  method FindPartialStop(str: string, stop: string) returns (r: Option<nat>)
    ensures r == Start(str, stop)
  {
    if str != [] && stop != [] {
      var textLastChar := str[|str| - 1];
      var charIndex := |stop| - 1;
      while charIndex >= 0
        invariant -1 <= charIndex < |stop|
        invariant forall i: nat :: BeginsAt(str, stop, i) ==> |str| - i <= charIndex + 1
        decreases charIndex
      {
        if stop[charIndex] == textLastChar {
          var currentPartial := stop[..charIndex + 1];
          if EndsWith(str, currentPartial) {
            assert BeginsAt(str, stop, |str| - charIndex - 1);
            return Some(|str| - charIndex - 1);
          }
        }
        forall i: nat | BeginsAt(str, stop, i)
          ensures |str| - i <= charIndex
        {
          LastCharacterMatches(str, stop, i);
        }
        charIndex := charIndex - 1;
      }
    }
    return None;
  }

  /** Whatever is generated next, a stop word that reaches the end of the text or goes beyond it starts
      at the reported place or later: everything before that place can be sent. */
  lemma NoLaterStopStartsEarlier(str: string, stop: string, continuation: string, i: nat)
    requires OccursAt(str + continuation, stop, i) && i < |str| <= i + |stop|
    ensures Start(str, stop).Some? && Start(str, stop).value <= i
  {
    assert (str + continuation)[i..i + |stop|][..|str| - i] == str[i..];
    assert BeginsAt(str, stop, i);
  }

  /** The reported place is not too early either: some continuation does complete the stop word there. */
  lemma ReportedStartCanComplete(str: string, stop: string)
    requires Start(str, stop).Some?
    ensures exists continuation :: OccursAt(str + continuation, stop, Start(str, stop).value)
  {
    var i := Start(str, stop).value;
    var continuation := stop[|str| - i..];
    assert (str + continuation)[i..i + |stop|] == str[i..] + continuation;
    assert OccursAt(str + continuation, stop, i);
  }
}
