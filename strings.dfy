/** The two `std::string` operations the decoder relies on, as value-level functions. */
module Strings {

  /** True iff `prefix` is a prefix of `s`; this is what `std::equal` over the
      range of `prefix` decides when the comparison stays inside `s`. */
  predicate IsPrefix(prefix: seq<char>, s: seq<char>)
  {
    |prefix| <= |s| && s[..|prefix|] == prefix
  }

  /** `std::string::find(c)`: the index of the first occurrence of `c` in `s`,
      with `|s|` standing for `npos` when `c` does not occur. */
  function Find(s: seq<char>, c: char): (i: nat)
    ensures i <= |s|
    ensures forall k :: 0 <= k < i ==> s[k] != c
    ensures i < |s| ==> s[i] == c
    ensures i == |s| <==> c !in s
  {
    if s == [] then 0
    else if s[0] == c then 0
    else 1 + Find(s[1..], c)
  }
}
