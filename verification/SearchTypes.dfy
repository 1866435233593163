/** Requests, result items and responses shared by the search connectors. */
module SearchTypes {

  datatype Request = Request(query: string, sources: seq<string>, maxResults: int, language: string,
                             safeSearch: bool, timeRange: string, format: string, cachePolicy: string,
                             deepResearch: bool, filters: map<string, string>)

  datatype Item = Item(title: string, url: string, snippet: string, source: string, engine: string,
                       kind: string, score: int, citationId: string, canonicalUrl: string)

  datatype Response = Response(query: string, results: seq<Item>, sourcesUsed: seq<string>, strategy: string,
                               cached: bool, partial: bool, warnings: seq<string>)

  /** The effective limit: a default for non-positive requests, and a ceiling of 100. */
  function MaxResults(max: int, default: int): (limit: int)
    requires 1 <= default <= 100
    ensures 1 <= max <= 100 ==> limit == max
    ensures max <= 0 ==> limit == default
    ensures max > 100 ==> limit == 100
  {
    if max <= 0 then default else if max > 100 then 100 else max
  }

  /** Go's `unicode.IsSpace`. */
  predicate IsSpace(c: char) {
    || c == ' ' || '\t' <= c <= '\r' || c == '\U{85}' || c == '\U{A0}' || c == '\U{1680}'
    || '\U{2000}' <= c <= '\U{200A}' || c == '\U{2028}' || c == '\U{2029}' || c == '\U{202F}'
    || c == '\U{205F}' || c == '\U{3000}'
  }

  function TrimLeft(s: string): string {
    if s != "" && IsSpace(s[0]) then TrimLeft(s[1..]) else s
  }

  function TrimRight(s: string): string {
    if s != "" && IsSpace(s[|s| - 1]) then TrimRight(s[..|s| - 1]) else s
  }

  function TrimSpace(s: string): string { TrimRight(TrimLeft(s)) }

  predicate AllSpace(s: string) { forall i :: 0 <= i < |s| ==> IsSpace(s[i]) }

  lemma {:induction false} TrimLeftMeaning(s: string) returns (before: string)
    ensures s == before + TrimLeft(s) && AllSpace(before)
    ensures TrimLeft(s) != "" ==> !IsSpace(TrimLeft(s)[0])
  {
    if s != "" && IsSpace(s[0]) {
      var rest := TrimLeftMeaning(s[1..]);
      before := [s[0]] + rest;
    } else {
      before := "";
    }
  }

  lemma {:induction false} TrimRightMeaning(s: string) returns (after: string)
    ensures s == TrimRight(s) + after && AllSpace(after)
    ensures TrimRight(s) != "" ==> !IsSpace(TrimRight(s)[|TrimRight(s)| - 1]) && TrimRight(s)[0] == s[0]
  {
    if s != "" && IsSpace(s[|s| - 1]) {
      var rest := TrimRightMeaning(s[..|s| - 1]);
      after := rest + [s[|s| - 1]];
    } else {
      after := "";
    }
  }

  /** Trimming takes white space off both ends, all of it and nothing else. */
  lemma TrimSpaceMeaning(s: string) returns (before: string, after: string)
    ensures s == before + TrimSpace(s) + after && AllSpace(before) && AllSpace(after)
    ensures var t := TrimSpace(s); t != "" ==> !IsSpace(t[0]) && !IsSpace(t[|t| - 1])
  {
    before := TrimLeftMeaning(s);
    after := TrimRightMeaning(TrimLeft(s));
  }

  /** ASCII letters in lower case. */
  function Lower(s: string): (r: string)
    ensures |r| == |s|
  {
    seq(|s|, i requires 0 <= i < |s| => LowerChar(s[i]))
  }

  /** Lower-casing moves capital letters by a fixed distance and keeps the rest. */
  lemma LowerMeaning(s: string, i: nat)
    requires i < |s|
    ensures 'A' <= s[i] <= 'Z' ==> 'a' <= Lower(s)[i] <= 'z' && Lower(s)[i] - 'a' == s[i] - 'A'
    ensures !('A' <= s[i] <= 'Z') ==> Lower(s)[i] == s[i]
  {
  }

  function LowerChar(c: char): char {
    if 'A' <= c <= 'Z' then ((c as int) + 32) as char else c
  }

  /** Whether `sub` occurs somewhere in `s`. */
  predicate Contains(s: string, sub: string) {
    sub <= s || (s != "" && Contains(s[1..], sub))
  }

  predicate OccursAt(s: string, sub: string, i: nat) { i + |sub| <= |s| && s[i..i + |sub|] == sub }

  /** Containment is by position: some stretch of the text is the other one. */
  lemma {:induction false} ContainsMeaning(s: string, sub: string)
    ensures Contains(s, sub) <==> exists i: nat :: OccursAt(s, sub, i)
  {
    if sub <= s {
      assert OccursAt(s, sub, 0);
    } else if s != "" {
      var rest := s[1..];
      ContainsMeaning(rest, sub);
      forall i: nat
        ensures OccursAt(rest, sub, i) <==> OccursAt(s, sub, i + 1)
      {
        if i + |sub| <= |rest| {
          assert rest[i..i + |sub|] == s[i + 1..i + 1 + |sub|];
        }
      }
      if i: nat :| OccursAt(s, sub, i) {
        assert i > 0 by {
          assert s[0..0 + |sub|] == s[..|sub|];
        }
        assert OccursAt(rest, sub, i - 1);
      }
    }
  }

  function Join(parts: seq<string>, sep: string): string {
    if parts == [] then ""
    else if |parts| == 1 then parts[0]
    else Join(parts[..|parts| - 1], sep) + sep + parts[|parts| - 1]
  }
}
