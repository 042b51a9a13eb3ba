/** What several modules need of sequences and numbers. */
module Sequences {
  import opened Wrappers

  function Max(a: int, b: int): int {
    if a > b then a else b
  }

  function Min(a: int, b: int): int {
    if a < b then a else b
  }

  /** The positions `from .. from + count`. */
  function Span(from: nat, count: nat): seq<nat> {
    seq(count, k requires 0 <= k < count => from + k)
  }

  predicate StartsWith(s: string, prefix: string) {
    prefix <= s
  }

  /** Where the first `c` is. */
  function IndexOf(s: string, c: char): (at: Option<nat>)
    ensures at.Some? ==> at.value < |s| && s[at.value] == c && c !in s[..at.value]
    ensures at.None? ==> c !in s
  {
    if s == "" then None
    else if s[0] == c then Some(0)
    else
      var at := IndexOf(s[1..], c);
      if at.None? then None else Some(at.value + 1)
  }

  lemma {:induction false} Reassociate<T>(a: seq<T>, b: seq<T>, c: seq<T>)
    ensures a + (b + c) == a + b + c
  {
  }
}
