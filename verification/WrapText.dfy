/** Greedy word wrap, and why no other wrapping of the same words is shorter. */
module WrapText {
  import opened SearchTypes
  import opened TextRuns

  // ---- words -----------------------------------------------------------------------------

  /** Python's `str.isspace()`: Go's white space and four separators more. */
  predicate IsPythonSpace(c: char) { IsSpace(c) || '\U{1C}' <= c <= '\U{1F}' }

  predicate IsInk(c: char) { !IsPythonSpace(c) }

  /** Among ASCII characters, white space is the blank, tab to carriage return, and the four
      separators. */
  lemma AsciiSpaces(c: char)
    requires c < '\U{80}'
    ensures IsPythonSpace(c) <==> c in " \t\n\U{0B}\U{0C}\r\U{1C}\U{1D}\U{1E}\U{1F}"
  {
  }

  /** Python's `str.split()`: the maximal runs of characters that are not white space. */
  function Words(text: string): (ws: seq<string>)
    ensures forall i :: 0 <= i < |ws| ==> ws[i] != ""
  {
    RunsAreKept(IsInk, text);
    Runs(IsInk, text)
  }

  function Blank(ws: seq<string>): string { Join(ws, " ") }

  // ---- wrappings -------------------------------------------------------------------------

  function Flatten(groups: seq<seq<string>>): seq<string> {
    if groups == [] then [] else Flatten(groups[..|groups| - 1]) + groups[|groups| - 1]
  }

  predicate Fits(width: string -> int, max: int, group: seq<string>) {
    |group| == 1 || width(Blank(group)) <= max
  }

  /** All the words in order, in non-empty lines that fit unless they are a single word. */
  predicate Wrapping(width: string -> int, max: int, words: seq<string>, groups: seq<seq<string>>) {
    && Flatten(groups) == words
    && forall i :: 0 <= i < |groups| ==> groups[i] != [] && Fits(width, max, groups[i])
  }

  /** The first word of line `next` does not fit on the line before. */
  predicate Overflows(width: string -> int, max: int, groups: seq<seq<string>>, next: int)
    requires 1 <= next < |groups|
  {
    groups[next] != [] && width(Blank(groups[next - 1] + [groups[next][0]])) > max
  }

  /** No line could take the first word of the next. */
  predicate Greedy(width: string -> int, max: int, groups: seq<seq<string>>) {
    forall next :: 1 <= next < |groups| ==> Overflows(width, max, groups, next)
  }

  /** Adding words at either end never narrows a line. */
  ghost predicate Monotone(width: string -> int, words: seq<string>) {
    forall i, j, k, l :: 0 <= i <= j < k <= l <= |words| ==> width(Blank(words[j..k])) <= width(Blank(words[i..l]))
  }

  function Lines(groups: seq<seq<string>>): seq<string> {
    if groups == [] then [] else Lines(groups[..|groups| - 1]) + [Blank(groups[|groups| - 1])]
  }

  /** The loop's state after `i` words: finished lines, and the words of the current one. */
  ghost predicate Progress(width: string -> int, max: int, words: seq<string>, i: nat,
                           groups: seq<seq<string>>, cur: seq<string>)
    requires i <= |words|
  {
    && Flatten(groups) + cur == words[..i]
    && (cur == [] ==> groups == [])
    && (forall j :: 0 <= j < |groups| ==> groups[j] != [] && Fits(width, max, groups[j]))
    && (cur != [] ==> Fits(width, max, cur) && Greedy(width, max, groups + [cur]))
  }

  lemma Extends(width: string -> int, max: int, words: seq<string>, i: nat, groups: seq<seq<string>>, cur: seq<string>)
    requires i < |words| && Progress(width, max, words, i, groups, cur)
    requires width(Blank(cur + [words[i]])) <= max
    ensures Progress(width, max, words, i + 1, groups, cur + [words[i]])
  {
    var a, b := groups + [cur], groups + [cur + [words[i]]];
    assert words[..i + 1] == words[..i] + [words[i]];
    forall next | 1 <= next < |b|
      ensures Overflows(width, max, b, next)
    {
      assert Overflows(width, max, a, next);
    }
  }

  lemma Breaks(width: string -> int, max: int, words: seq<string>, i: nat, groups: seq<seq<string>>, cur: seq<string>)
    requires i < |words| && Progress(width, max, words, i, groups, cur)
    requires cur != [] && width(Blank(cur + [words[i]])) > max
    ensures Progress(width, max, words, i + 1, groups + [cur], [words[i]])
  {
    var a, b := groups + [cur], groups + [cur] + [[words[i]]];
    assert words[..i + 1] == words[..i] + [words[i]];
    assert a[..|groups|] == groups;
    forall next | 1 <= next < |b|
      ensures Overflows(width, max, b, next)
    {
      if next < |a| {
        assert Overflows(width, max, a, next);
      }
    }
  }

  /** The greedy loop. */
  method WrapWords(words: seq<string>, width: string -> int, max: int)
    returns (lines: seq<string>, ghost groups: seq<seq<string>>)
    requires forall i :: 0 <= i < |words| ==> words[i] != ""
    ensures lines == Lines(groups)
    ensures Wrapping(width, max, words, groups) && Greedy(width, max, groups)
  {
    lines := [];
    var current := "";
    groups := [];
    ghost var cur: seq<string> := [];
    var i := 0;
    while i < |words|
      invariant 0 <= i <= |words|
      invariant Progress(width, max, words, i, groups, cur)
      invariant lines == Lines(groups) && current == Blank(cur)
      invariant cur == [] <==> current == ""
    {
      var word := words[i];
      var candidate := if current == "" then word else current + " " + word;
      assert (cur + [word])[..|cur|] == cur;
      assert candidate == Blank(cur + [word]);
      if width(candidate) <= max {
        Extends(width, max, words, i, groups, cur);
        cur := cur + [word];
        current := candidate;
      } else {
        if current != "" {
          Breaks(width, max, words, i, groups, cur);
          assert (groups + [cur])[..|groups|] == groups;
          lines := lines + [current];
          groups := groups + [cur];
        } else {
          assert words[..i + 1] == words[..i] + [word];
        }
        cur := [word];
        current := word;
      }
      i := i + 1;
    }
    assert words[..|words|] == words;
    if current != "" {
      assert (groups + [cur])[..|groups|] == groups;
      lines := lines + [current];
      groups := groups + [cur];
    }
  }

  /** Wraps a text. The lines keep the words in order, fit unless they are a single word, and
      are the fewest possible whenever width is monotone. */
  method Wrap(text: string, width: string -> int, max: int)
    returns (lines: seq<string>, ghost groups: seq<seq<string>>)
    ensures lines == Lines(groups) && Wrapping(width, max, Words(text), groups)
    ensures Blank(lines) == Blank(Words(text))
    ensures Monotone(width, Words(text)) ==>
              forall other :: Wrapping(width, max, Words(text), other) ==> |lines| <= |other|
  {
    var words := Words(text);
    lines, groups := WrapWords(words, width, max);
    LinesLength(groups);
    JoinLines(groups);
    if Monotone(width, words) {
      forall other | Wrapping(width, max, words, other)
        ensures |lines| <= |other|
      {
        GreedyIsShortest(width, max, words, groups, other);
      }
    }
  }

  lemma {:induction false} LinesLength(groups: seq<seq<string>>)
    ensures |Lines(groups)| == |groups|
  {
    if groups != [] {
      LinesLength(groups[..|groups| - 1]);
    }
  }

  lemma {:induction false} BlankConcat(a: seq<string>, b: seq<string>)
    requires a != [] && b != []
    ensures Blank(a + b) == Blank(a) + " " + Blank(b)
  {
    var init := b[..|b| - 1];
    assert (a + b)[..|a + b| - 1] == a + init;
    if init == [] {
      assert a + init == a;
    } else {
      BlankConcat(a, init);
    }
  }

  /** Joining the lines gives back the joined words. */
  lemma {:induction false} JoinLines(groups: seq<seq<string>>)
    requires forall i :: 0 <= i < |groups| ==> groups[i] != []
    ensures Blank(Lines(groups)) == Blank(Flatten(groups))
    ensures groups != [] ==> Flatten(groups) != []
  {
    if groups != [] {
      var init, g := groups[..|groups| - 1], groups[|groups| - 1];
      JoinLines(init);
      LinesLength(init);
      if init == [] {
        assert Flatten(groups) == g && Lines(groups) == [Blank(g)];
      } else {
        BlankConcat(Flatten(init), g);
        BlankConcat(Lines(init), [Blank(g)]);
      }
    }
  }

  // ---- greedy stays ahead ----------------------------------------------------------------

  /** Where line `i` starts among the words. */
  function Offset(groups: seq<seq<string>>, i: nat): nat
    requires i <= |groups|
  {
    |Flatten(groups[..i])|
  }

  lemma {:induction false} LineIsSlice(groups: seq<seq<string>>, i: nat)
    requires i < |groups|
    ensures Offset(groups, i) + |groups[i]| == Offset(groups, i + 1) <= |Flatten(groups)|
    ensures groups[i] == Flatten(groups)[Offset(groups, i)..Offset(groups, i + 1)]
  {
    var last := |groups| - 1;
    assert groups[..i + 1][..i] == groups[..i];
    if i == last {
      assert groups[..i + 1] == groups;
    } else {
      var init := groups[..last];
      LineIsSlice(init, i);
      assert init[..i] == groups[..i] && init[..i + 1] == groups[..i + 1];
    }
  }

  lemma MonotoneAt(width: string -> int, words: seq<string>, i: nat, j: nat, k: nat, l: nat)
    requires Monotone(width, words)
    ensures i <= j < k <= l <= |words| ==> width(Blank(words[j..k])) <= width(Blank(words[i..l]))
  {
  }

  /** One line of each: if the greedy line starts no earlier, it ends no earlier. */
  lemma LineStaysAhead(width: string -> int, max: int, words: seq<string>,
                       groups: seq<seq<string>>, other: seq<seq<string>>, i: nat)
    requires Monotone(width, words) && Greedy(width, max, groups)
    requires Wrapping(width, max, words, groups) && Wrapping(width, max, words, other)
    requires i + 1 < |groups| && i < |other| && Offset(other, i) <= Offset(groups, i)
    ensures Offset(other, i + 1) <= Offset(groups, i + 1)
  {
    LineIsSlice(groups, i);
    LineIsSlice(groups, i + 1);
    LineIsSlice(other, i);
    var s, e := Offset(groups, i), Offset(groups, i + 1);
    var s', e' := Offset(other, i), Offset(other, i + 1);
    assert groups[i] + [groups[i + 1][0]] == words[s..e + 1];
    assert Overflows(width, max, groups, i + 1);
    MonotoneAt(width, words, s', s, e + 1, e');
  }

  /** After any number of lines the greedy wrapping has used at least as many words. */
  lemma {:induction false} GreedyStaysAhead(width: string -> int, max: int, words: seq<string>,
                                            groups: seq<seq<string>>, other: seq<seq<string>>, i: nat)
    requires Monotone(width, words) && Greedy(width, max, groups)
    requires Wrapping(width, max, words, groups) && Wrapping(width, max, words, other)
    requires i <= |groups| && i <= |other|
    ensures Offset(other, i) <= Offset(groups, i)
  {
    if i > 0 {
      GreedyStaysAhead(width, max, words, groups, other, i - 1);
      if i == |groups| {
        assert groups[..i] == groups;
        LineIsSlice(other, i - 1);
      } else {
        LineStaysAhead(width, max, words, groups, other, i - 1);
      }
    }
  }

  /** So no wrapping of the same words has fewer lines. */
  lemma GreedyIsShortest(width: string -> int, max: int, words: seq<string>,
                         groups: seq<seq<string>>, other: seq<seq<string>>)
    requires Monotone(width, words) && Greedy(width, max, groups)
    requires Wrapping(width, max, words, groups) && Wrapping(width, max, words, other)
    ensures |groups| <= |other|
  {
    assert other[..|other|] == other;
    if |other| < |groups| {
      GreedyStaysAhead(width, max, words, groups, other, |other|);
      LineIsSlice(groups, |other|);
    }
  }
}
