/** Sequence operations several components share. */
module Seqs {

  /** The first `n` elements, or all of them. */
  function Prefix<T>(s: seq<T>, n: nat): seq<T> {
    if n <= |s| then s[..n] else s
  }

  predicate NoRepeats(s: seq<string>) { forall i, j :: 0 <= i < j < |s| ==> s[i] != s[j] }

  /** The words of a list, each once, in order of first appearance. */
  function Distinct(words: seq<string>): (r: seq<string>)
    ensures forall w :: w in r <==> w in words
    ensures NoRepeats(r)
  {
    if words == [] then []
    else
      var init, last := words[..|words| - 1], words[|words| - 1];
      assert words == init + [last];
      if last in init then Distinct(init) else Distinct(init) + [last]
  }

  /** Position i holds the first appearance of the word. */
  predicate FirstAt(words: seq<string>, w: string, i: nat) {
    i < |words| && words[i] == w && forall j :: 0 <= j < i ==> words[j] != w
  }

  /** First appearances are in the order of the distinct words. */
  lemma {:induction false} DistinctKeepsOrder(words: seq<string>, i: nat, j: nat, a: nat, b: nat)
    requires i < j < |Distinct(words)|
    requires FirstAt(words, Distinct(words)[i], a) && FirstAt(words, Distinct(words)[j], b)
    ensures a < b
  {
    var init, last := words[..|words| - 1], words[|words| - 1];
    var d := Distinct(init);
    assert words == init + [last];
    assert d[i] in d;
    if j < |d| {
      assert d[j] in d;
      DistinctKeepsOrder(init, i, j, a, b);
    }
  }
}
