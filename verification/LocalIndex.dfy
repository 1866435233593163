/** Lexical search over the operator's corpus: load with checks, match every term, rank, cut. */
module LocalIndex {
  import opened Options
  import opened SearchTypes
  import opened Seqs

  const MAX_RESULTS := 50
  const MAX_TERMS := 32
  const MAX_TERM_LENGTH := 64

  datatype Document = Document(id: string, title: string, url: string, snippet: string, author: string,
                               tags: seq<string>)

  /** Library text functions, total and deterministic but otherwise unknown. */
  datatype Ops = Ops(
    lower: string -> string,
    fields: string -> seq<string>,                 // runs of letters and digits
    safeUrl: (string, string) -> Option<string>)   // from the trimmed URL and the id

  // ---- terms -----------------------------------------------------------------------------

  function Short(fields: seq<string>): seq<string> {
    if fields == [] then []
    else
      var init, last := Short(fields[..|fields| - 1]), fields[|fields| - 1];
      if |last| <= MAX_TERM_LENGTH then init + [last] else init
  }

  /** The first 32 distinct fields of at most 64 characters. */
  function Terms(fields: seq<string>): (ts: seq<string>)
    ensures |ts| <= MAX_TERMS
  {
    Prefix(Distinct(Short(fields)), MAX_TERMS)
  }

  /** What one more field does to the terms. */
  function NextTerms(ts: seq<string>, field: string): seq<string> {
    if |field| > MAX_TERM_LENGTH || |ts| == MAX_TERMS || field in ts then ts else ts + [field]
  }

  lemma TermsSnoc(init: seq<string>, field: string)
    ensures Terms(init + [field]) == NextTerms(Terms(init), field)
  {
    assert (init + [field])[..|init|] == init;
    var short := Short(init);
    if |field| <= MAX_TERM_LENGTH {
      assert (short + [field])[..|short|] == short;
      var d := Distinct(short);
      if |d| <= MAX_TERMS {
        assert Prefix(d, MAX_TERMS) == d;
      }
    }
  }

  /** Terms are told one field at a time: a field joins them if it is at most 64 characters
      long, new among them, and fewer than 32 are there. */
  lemma TermsMeaning(init: seq<string>, field: string)
    ensures Terms([]) == []
    ensures var ts := Terms(init);
            Terms(init + [field]) == if |field| <= 64 && field !in ts && |ts| < 32 then ts + [field] else ts
  {
    TermsSnoc(init, field);
  }

  method LocalIndexTerms(ops: Ops, query: string) returns (terms: seq<string>)
    ensures terms == Terms(ops.fields(ops.lower(query)))
  {
    terms := TermsOf(ops.fields(ops.lower(query)));
  }

  method TermsOf(fields: seq<string>) returns (terms: seq<string>)
    ensures terms == Terms(fields)
  {
    terms := [];
    var seen: set<string> := {};
    var i := 0;
    while i < |fields|
      invariant 0 <= i <= |fields|
      invariant terms == Terms(fields[..i]) && |terms| <= MAX_TERMS
      invariant forall t :: t in seen <==> t in terms
    {
      var field := fields[i];
      TermsSnoc(fields[..i], field);
      assert fields[..i + 1] == fields[..i] + [field];
      assert Terms(fields[..i + 1]) == NextTerms(terms, field);
      i := i + 1;
      if |field| > MAX_TERM_LENGTH || |terms| == MAX_TERMS {
        continue;
      }
      if field in seen {
        continue;
      }
      seen := seen + {field};
      terms := terms + [field];
    }
    assert fields[..|fields|] == fields;
  }

  // ---- scores ----------------------------------------------------------------------------

  /** The searchable faces of a document, lower-cased. */
  datatype Faces = Faces(title: string, tags: string, snippet: string, id: string)

  function FacesOf(ops: Ops, doc: Document): Faces {
    Faces(ops.lower(doc.title), ops.lower(Join(doc.tags, " ")), ops.lower(doc.snippet), ops.lower(doc.id))
  }

  predicate Occurs(f: Faces, term: string) {
    Contains(f.title, term) || Contains(f.tags, term) || Contains(f.snippet, term) || Contains(f.id, term)
  }

  function TermScore(f: Faces, term: string): nat {
    (if Contains(f.title, term) then 4 else 0) + (if Contains(f.tags, term) then 3 else 0) +
    (if Contains(f.snippet, term) then 1 else 0) + (if Contains(f.id, term) then 2 else 0)
  }

  function TermsScore(f: Faces, terms: seq<string>): nat {
    if terms == [] then 0 else TermsScore(f, terms[..|terms| - 1]) + TermScore(f, terms[|terms| - 1])
  }

  function PhraseScore(f: Faces, phrase: string): nat {
    if Contains(f.title, phrase) then 8 else if Contains(f.snippet, phrase) then 2 else 0
  }

  predicate MatchesAll(f: Faces, terms: seq<string>) {
    terms != [] && forall i :: 0 <= i < |terms| ==> Occurs(f, terms[i])
  }

  function Score(f: Faces, terms: seq<string>, phrase: string): Option<nat> {
    if MatchesAll(f, terms) then Some(TermsScore(f, terms) + PhraseScore(f, phrase)) else None
  }

  /** Scores one document, giving up at the first term that occurs nowhere in it. */
  method ScoreDocument(ops: Ops, doc: Document, terms: seq<string>, phrase: string) returns (s: Option<nat>)
    ensures s == Score(FacesOf(ops, doc), terms, phrase)
  {
    if |terms| == 0 {
      return None;
    }
    var f := FacesOf(ops, doc);
    var score := 0;
    var i := 0;
    while i < |terms|
      invariant 0 <= i <= |terms|
      invariant score == TermsScore(f, terms[..i])
      invariant forall j :: 0 <= j < i ==> Occurs(f, terms[j])
    {
      assert terms[..i + 1][..i] == terms[..i];
      var matched := false;
      if Contains(f.title, terms[i]) {
        score := score + 4;
        matched := true;
      }
      if Contains(f.tags, terms[i]) {
        score := score + 3;
        matched := true;
      }
      if Contains(f.snippet, terms[i]) {
        score := score + 1;
        matched := true;
      }
      if Contains(f.id, terms[i]) {
        score := score + 2;
        matched := true;
      }
      if !matched {
        return None;
      }
      i := i + 1;
    }
    assert terms[..|terms|] == terms;
    if Contains(f.title, phrase) {
      score := score + 8;
    } else if Contains(f.snippet, phrase) {
      score := score + 2;
    }
    return Some(score);
  }

  /** n matched terms score between n and 10n + 8. */
  lemma {:induction false} ScoreBounds(f: Faces, terms: seq<string>, phrase: string)
    requires terms != [] ==> MatchesAll(f, terms)
    ensures |terms| <= TermsScore(f, terms) <= 10 * |terms|
    ensures Score(f, terms, phrase).Some? ==> |terms| <= Score(f, terms, phrase).value <= 10 * |terms| + 8
  {
    if terms != [] {
      ScoreBounds(f, terms[..|terms| - 1], phrase);
      assert Occurs(f, terms[|terms| - 1]);
    }
  }

  /** How many of the terms occur in a text. */
  function Count(text: string, terms: seq<string>): nat {
    if terms == [] then 0
    else Count(text, terms[..|terms| - 1]) + (if Contains(text, terms[|terms| - 1]) then 1 else 0)
  }

  lemma {:induction false} TermsScoreByFace(f: Faces, terms: seq<string>)
    ensures TermsScore(f, terms)
         == 4 * Count(f.title, terms) + 3 * Count(f.tags, terms) + 2 * Count(f.id, terms) + Count(f.snippet, terms)
  {
    if terms != [] {
      TermsScoreByFace(f, terms[..|terms| - 1]);
    }
  }

  /** The score of a document, face by face: four for each term in its title, three in its tags,
      two in its id, one in its snippet, and eight more for the phrase in the title or two for
      it in the snippet only. */
  lemma ScoreByFace(ops: Ops, doc: Document, terms: seq<string>, phrase: string)
    requires Score(FacesOf(ops, doc), terms, phrase).Some?
    ensures var title, snippet := ops.lower(doc.title), ops.lower(doc.snippet);
            Score(FacesOf(ops, doc), terms, phrase).value
              == 4 * Count(title, terms) + 3 * Count(ops.lower(Join(doc.tags, " ")), terms)
                 + 2 * Count(ops.lower(doc.id), terms) + Count(snippet, terms)
                 + (if Contains(title, phrase) then 8 else if Contains(snippet, phrase) then 2 else 0)
  {
    TermsScoreByFace(FacesOf(ops, doc), terms);
  }

  /** Asking for more terms never matches more documents. */
  lemma MoreTermsMatchFewer(f: Faces, terms: seq<string>, more: seq<string>, p: string, q: string)
    requires terms != [] && forall t :: t in terms ==> t in more
    ensures Score(f, more, q).Some? ==> Score(f, terms, p).Some?
  {
    forall i | 0 <= i < |terms| && MatchesAll(f, more)
      ensures Occurs(f, terms[i])
    {
      assert terms[i] in more;
      var j :| 0 <= j < |more| && more[j] == terms[i];
    }
  }

  // ---- ranking ---------------------------------------------------------------------------

  datatype Ranked = Ranked(doc: Document, score: nat)

  /** Code point order on titles. */
  predicate Less(a: string, b: string) {
    b != "" && (a == "" || a[0] < b[0] || (a[0] == b[0] && Less(a[1..], b[1..])))
  }

  lemma LessIsTotalOrder(a: string, b: string, c: string)
    ensures !(Less(a, b) && Less(b, a))
    ensures !Less(b, a) && !Less(c, b) ==> !Less(c, a)
    ensures a == b || Less(a, b) || Less(b, a)
  {
    if a != "" && b != "" && c != "" {
      LessIsTotalOrder(a[1..], b[1..], c[1..]);
      assert a == [a[0]] + a[1..] && b == [b[0]] + b[1..];
    } else if a != "" && b != "" {
      LessIsTotalOrder(a[1..], b[1..], "");
      assert a == [a[0]] + a[1..] && b == [b[0]] + b[1..];
    }
  }

  predicate DiffersAt(a: string, b: string, i: nat) {
    i < |a| && i < |b| && a[..i] == b[..i] && a[i] < b[i]
  }

  /** Titles are ordered by their first differing character, a shorter one before its
      extensions. */
  lemma {:induction false} LessMeaning(a: string, b: string)
    ensures Less(a, b) <==> (a <= b && a != b) || exists i: nat :: DiffersAt(a, b, i)
  {
    if a != "" && b != "" {
      var x, y := a[1..], b[1..];
      LessMeaning(x, y);
      assert a == [a[0]] + x && b == [b[0]] + y;
      if a[0] < b[0] {
        assert DiffersAt(a, b, 0);
      }
      if i: nat :| a[0] == b[0] && DiffersAt(x, y, i) {
        assert a[..i + 1] == [a[0]] + x[..i] && b[..i + 1] == [b[0]] + y[..i];
        assert DiffersAt(a, b, i + 1);
      }
      if i: nat :| DiffersAt(a, b, i) {
        if i > 0 {
          assert a[..i][0] == a[0] && b[..i][0] == b[0];
          assert x[..i - 1] == a[..i][1..] && y[..i - 1] == b[..i][1..];
          assert DiffersAt(x, y, i - 1);
        }
      }
    }
  }

  /** Higher score first, then title. */
  predicate Ahead(x: Ranked, y: Ranked) {
    x.score > y.score || (x.score == y.score && Less(x.doc.title, y.doc.title))
  }

  predicate Sorted(s: seq<Ranked>) {
    forall i, j :: 0 <= i < j < |s| ==> !Ahead(s[j], s[i])
  }

  /** Some sort by Ahead; documents that tie may come in either order. */
  method SortRanked(s: seq<Ranked>) returns (r: seq<Ranked>)
    ensures Sorted(r) && multiset(r) == multiset(s)
  {
    r := [];
    var i := 0;
    while i < |s|
      invariant 0 <= i <= |s|
      invariant Sorted(r) && multiset(r) == multiset(s[..i])
    {
      assert s[..i + 1] == s[..i] + [s[i]];
      r := InsertRanked(r, s[i]);
      i := i + 1;
    }
    assert s[..|s|] == s;
  }

  function InsertRanked(s: seq<Ranked>, x: Ranked): (r: seq<Ranked>)
    requires Sorted(s)
    ensures Sorted(r) && multiset(r) == multiset(s) + multiset{x}
  {
    if s == [] || !Ahead(x, s[|s| - 1]) then
      (forall i | 0 <= i < |s| ensures !Ahead(x, s[i]) { BehindLast(s, x, i); }
       s + [x])
    else
      var init, last := s[..|s| - 1], s[|s| - 1];
      assert s == init + [last];
      var r := InsertRanked(init, x);
      (forall i | 0 <= i < |r| ensures !Ahead(last, r[i]) { NotBehind(init, last, x, r, i); }
       r + [last])
  }

  lemma BehindLast(s: seq<Ranked>, x: Ranked, i: nat)
    requires Sorted(s) && i < |s| && !Ahead(x, s[|s| - 1])
    ensures !Ahead(x, s[i])
  {
    LessIsTotalOrder(s[i].doc.title, s[|s| - 1].doc.title, x.doc.title);
  }

  lemma NotBehind(init: seq<Ranked>, last: Ranked, x: Ranked, r: seq<Ranked>, i: nat)
    requires Sorted(init + [last]) && multiset(r) == multiset(init) + multiset{x} && Ahead(x, last) && i < |r|
    ensures !Ahead(last, r[i])
  {
    assert r[i] in multiset(r);
    if r[i] in init {
      var j :| 0 <= j < |init| && init[j] == r[i];
      assert (init + [last])[j] == r[i] && (init + [last])[|init|] == last;
    } else {
      LessIsTotalOrder(x.doc.title, last.doc.title, "");
    }
  }

  /** `rest` is what `out` leaves of `all`, none of it strictly ahead of anything in `out`. */
  ghost predicate LeftOver(all: seq<Ranked>, out: seq<Ranked>, rest: seq<Ranked>) {
    && multiset(all) == multiset(out) + multiset(rest)
    && forall x, o :: x in rest && o in out ==> !Ahead(x, o)
  }

  /** `out` is a top-k of `all`: k of them, sorted, and none left out strictly ahead. */
  ghost predicate TopK(all: seq<Ranked>, k: nat, out: seq<Ranked>) {
    && |out| == (if |all| < k then |all| else k)
    && Sorted(out)
    && exists rest :: LeftOver(all, out, rest)
  }

  lemma SameSize(a: seq<Ranked>, b: seq<Ranked>)
    requires multiset(a) == multiset(b)
    ensures |a| == |b|
  {
    assert |a| == |multiset(a)| == |multiset(b)| == |b|;
  }

  lemma RestIsNotAhead(out: seq<Ranked>, rest: seq<Ranked>, x: Ranked, o: Ranked)
    requires Sorted(out + rest) && x in rest && o in out
    ensures !Ahead(x, o)
  {
    var j :| 0 <= j < |rest| && rest[j] == x;
    var i :| 0 <= i < |out| && out[i] == o;
    assert (out + rest)[|out| + j] == x && (out + rest)[i] == o;
  }

  lemma PrefixOfSortIsTopK(all: seq<Ranked>, sorted: seq<Ranked>, k: nat)
    requires Sorted(sorted) && multiset(sorted) == multiset(all)
    ensures TopK(all, k, Prefix(sorted, k))
  {
    SameSize(sorted, all);
    var n := if k <= |sorted| then k else |sorted|;
    var out, rest := sorted[..n], sorted[n..];
    assert sorted == out + rest && Prefix(sorted, k) == out;
    forall x, o | x in rest && o in out
      ensures !Ahead(x, o)
    {
      RestIsNotAhead(out, rest, x, o);
    }
    assert LeftOver(all, out, rest);
  }

  /** What a top-k looks like: scores never rise, equal scores stand in title order, and
      nothing left out scores higher than anything in it. */
  lemma TopKIsBestFirst(all: seq<Ranked>, k: nat, out: seq<Ranked>)
    requires TopK(all, k, out)
    ensures forall i, j :: 0 <= i < j < |out| ==>
              || out[i].score > out[j].score
              || (out[i].score == out[j].score && !Less(out[j].doc.title, out[i].doc.title))
    ensures forall x, o :: x in multiset(all) - multiset(out) && o in out ==> x.score <= o.score
  {
    forall i, j | 0 <= i < j < |out|
      ensures !Ahead(out[j], out[i])
    {
    }
    var rest :| LeftOver(all, out, rest);
    forall x, o | x in multiset(all) - multiset(out) && o in out
      ensures x.score <= o.score
    {
      assert x in multiset(rest);
      assert !Ahead(x, o);
    }
  }

  // ---- search ----------------------------------------------------------------------------

  /** Every document in which all terms occur, scored, in corpus order. */
  function AllMatches(ops: Ops, docs: seq<Document>, terms: seq<string>, phrase: string): seq<Ranked> {
    if docs == [] then []
    else
      var init, doc := AllMatches(ops, docs[..|docs| - 1], terms, phrase), docs[|docs| - 1];
      var s := Score(FacesOf(ops, doc), terms, phrase);
      if s.Some? then init + [Ranked(doc, s.value)] else init
  }

  lemma {:induction false} AllMatchesMeaning(ops: Ops, docs: seq<Document>, terms: seq<string>, phrase: string, d: Document)
    ensures (exists s :: Ranked(d, s) in AllMatches(ops, docs, terms, phrase))
            <==> d in docs && MatchesAll(FacesOf(ops, d), terms)
    ensures forall r :: r in AllMatches(ops, docs, terms, phrase) ==>
              Score(FacesOf(ops, r.doc), terms, phrase) == Some(r.score)
  {
    if docs != [] {
      var init, last := docs[..|docs| - 1], docs[|docs| - 1];
      AllMatchesMeaning(ops, init, terms, phrase, d);
      assert docs == init + [last];
      var s := Score(FacesOf(ops, last), terms, phrase);
      var all := AllMatches(ops, docs, terms, phrase);
      if s.Some? {
        assert Ranked(last, s.value) in all;
      }
      assert forall r :: r in AllMatches(ops, init, terms, phrase) ==> r in all;
    }
  }

  function ItemFor(r: Ranked): Item {
    Item(r.doc.title, r.doc.url, r.doc.snippet, "local_index", "", "document", r.score,
         "local-index:" + r.doc.id, "")
  }

  lemma AllMatchesSnoc(ops: Ops, docs: seq<Document>, doc: Document, terms: seq<string>, phrase: string)
    ensures var s := Score(FacesOf(ops, doc), terms, phrase);
            AllMatches(ops, docs + [doc], terms, phrase)
              == AllMatches(ops, docs, terms, phrase) + (if s.Some? then [Ranked(doc, s.value)] else [])
  {
    assert (docs + [doc])[..|docs|] == docs;
  }

  /** Matches can be collected piece by piece: each document once, in corpus order. */
  lemma {:induction false} AllMatchesConcat(ops: Ops, a: seq<Document>, b: seq<Document>, terms: seq<string>, phrase: string)
    ensures AllMatches(ops, a + b, terms, phrase) == AllMatches(ops, a, terms, phrase) + AllMatches(ops, b, terms, phrase)
  {
    if b == [] {
      assert a + b == a;
    } else {
      var init, last := b[..|b| - 1], b[|b| - 1];
      assert a + b == (a + init) + [last] && b == init + [last];
      AllMatchesConcat(ops, a, init, terms, phrase);
      AllMatchesSnoc(ops, a + init, last, terms, phrase);
      AllMatchesSnoc(ops, init, last, terms, phrase);
    }
  }

  /** An item shows a ranked document. */
  predicate Shows(item: Item, r: Ranked) {
    && item.title == r.doc.title && item.url == r.doc.url && item.snippet == r.doc.snippet
    && item.citationId == "local-index:" + r.doc.id && item.score == r.score
    && item.source == "local_index" && item.kind == "document"
  }

  /** Returns the top matches, or nothing when cancellation is seen before some document. */
  method Search(ops: Ops, docs: seq<Document>, req: Request, canceled: nat -> bool)
    returns (results: Option<seq<Item>>, top: seq<Ranked>)
    ensures results.None? <==> exists i :: 0 <= i < |docs| && canceled(i)
    ensures results.Some? ==>
              var terms := Terms(ops.fields(ops.lower(req.query)));
              var phrase := ops.lower(TrimSpace(req.query));
              && TopK(AllMatches(ops, docs, terms, phrase),
                      if req.maxResults <= 0 then 10 else if req.maxResults > 50 then 50 else req.maxResults, top)
              && |results.value| == |top|
              && forall i :: 0 <= i < |top| ==> Shows(results.value[i], top[i])
  {
    var terms := LocalIndexTerms(ops, req.query);
    var maxResults := req.maxResults;
    if maxResults <= 0 {
      maxResults := 10;
    }
    if maxResults > MAX_RESULTS {
      maxResults := MAX_RESULTS;
    }
    var phrase := ops.lower(TrimSpace(req.query));
    var ranked := CollectMatches(ops, docs, terms, phrase, canceled);
    if ranked.None? {
      return None, [];
    }
    top := RankAndCut(ranked.value, maxResults);
    var items := Items(top);
    results := Some(items);
  }

  method RankAndCut(ranked: seq<Ranked>, maxResults: nat) returns (top: seq<Ranked>)
    ensures TopK(ranked, maxResults, top)
  {
    top := SortRanked(ranked);
    PrefixOfSortIsTopK(ranked, top, maxResults);
    ghost var cut := Prefix(top, maxResults);
    if |top| > maxResults {
      top := top[..maxResults];
    }
    assert top == cut;
  }

  method CollectMatches(ops: Ops, docs: seq<Document>, terms: seq<string>, phrase: string, canceled: nat -> bool)
    returns (ranked: Option<seq<Ranked>>)
    ensures ranked.None? <==> exists i :: 0 <= i < |docs| && canceled(i)
    ensures ranked.Some? ==> ranked.value == AllMatches(ops, docs, terms, phrase)
  {
    var found: seq<Ranked> := [];
    var i := 0;
    while i < |docs|
      invariant 0 <= i <= |docs|
      invariant forall j :: 0 <= j < i ==> !canceled(j)
      invariant found == AllMatches(ops, docs[..i], terms, phrase)
    {
      if canceled(i) {
        return None;
      }
      assert docs[..i + 1][..i] == docs[..i];
      var score := ScoreDocument(ops, docs[i], terms, phrase);
      if score.Some? {
        found := found + [Ranked(docs[i], score.value)];
      }
      i := i + 1;
    }
    assert docs[..|docs|] == docs;
    ranked := Some(found);
  }

  method Items(ranked: seq<Ranked>) returns (items: seq<Item>)
    ensures |items| == |ranked| && forall i :: 0 <= i < |ranked| ==> items[i] == ItemFor(ranked[i])
  {
    items := [];
    var i := 0;
    while i < |ranked|
      invariant 0 <= i <= |ranked| == |ranked| && |items| == i
      invariant forall j :: 0 <= j < i ==> items[j] == ItemFor(ranked[j])
    {
      items := items + [ItemFor(ranked[i])];
      i := i + 1;
    }
  }

  // ---- the corpus ------------------------------------------------------------------------

  predicate SafeId(id: string) {
    forall i :: 0 <= i < |id| ==>
      'a' <= id[i] <= 'z' || 'A' <= id[i] <= 'Z' || '0' <= id[i] <= '9' || id[i] in "._-"
  }

  function TrimAll(tags: seq<string>): (r: seq<string>)
    ensures |r| == |tags| && forall i :: 0 <= i < |tags| ==> r[i] == TrimSpace(tags[i])
  {
    seq(|tags|, i requires 0 <= i < |tags| => TrimSpace(tags[i]))
  }

  /** The document as the corpus keeps it, if it passes every check of its own. */
  function Cleaned(ops: Ops, d: Document): (r: Option<Document>)
    ensures r.Some? ==> r.value.id == TrimSpace(d.id)
  {
    var c := Document(TrimSpace(d.id), TrimSpace(d.title), TrimSpace(d.url), TrimSpace(d.snippet),
                      TrimSpace(d.author), TrimAll(d.tags));
    if c.id == "" || |c.id| > 128 || !SafeId(c.id) then None
    else if c.title == "" || |c.title| > 512 then None
    else if |c.snippet| > 4096 || |c.author| > 256 then None
    else if |c.tags| > 32 || (exists i :: 0 <= i < |c.tags| && (c.tags[i] == "" || |c.tags[i]| > 128)) then None
    else
      match ops.safeUrl(c.url, c.id)
      case None => None
      case Some(u) => Some(c.(url := u))
  }

  /** What a document must be to be kept, once its fields are trimmed. */
  predicate Fit(ops: Ops, c: Document) {
    && 1 <= |c.id| <= 128 && (forall i :: 0 <= i < |c.id| ==>
                                'a' <= c.id[i] <= 'z' || 'A' <= c.id[i] <= 'Z' || '0' <= c.id[i] <= '9'
                                || c.id[i] == '.' || c.id[i] == '_' || c.id[i] == '-')
    && 1 <= |c.title| <= 512 && |c.snippet| <= 4096 && |c.author| <= 256
    && |c.tags| <= 32 && (forall i :: 0 <= i < |c.tags| ==> 1 <= |c.tags[i]| <= 128)
    && ops.safeUrl(c.url, c.id).Some?
  }

  function Trimmed(d: Document): Document {
    Document(TrimSpace(d.id), TrimSpace(d.title), TrimSpace(d.url), TrimSpace(d.snippet), TrimSpace(d.author),
             TrimAll(d.tags))
  }

  /** A document is kept exactly when it is fit, trimmed and under its safe URL. */
  lemma CleanedIff(ops: Ops, d: Document)
    ensures Cleaned(ops, d) ==
              if Fit(ops, Trimmed(d)) then Some(Trimmed(d).(url := ops.safeUrl(Trimmed(d).url, Trimmed(d).id).value))
              else None
  {
    var c := Trimmed(d);
    if exists i :: 0 <= i < |c.tags| && (c.tags[i] == "" || |c.tags[i]| > 128) {
      assert !Fit(ops, c);
    }
  }

  predicate DistinctIds(docs: seq<Document>) {
    forall i, j :: 0 <= i < j < |docs| ==> docs[i].id != docs[j].id
  }

  /** Every document passes, and no two have the same trimmed id. */
  predicate Acceptable(ops: Ops, docs: seq<Document>) {
    && (forall i :: 0 <= i < |docs| ==> Cleaned(ops, docs[i]).Some?)
    && DistinctTrimmed(docs)
  }

  predicate DistinctTrimmed(docs: seq<Document>) {
    forall i, j :: 0 <= i < j < |docs| ==> TrimSpace(docs[i].id) != TrimSpace(docs[j].id)
  }

  /** Checks and cleans the documents in place, one shared set of ids for all of them. It
      accepts exactly the acceptable corpora, and leaves their documents cleaned. */
  method LoadCorpus(ops: Ops, docs: array<Document>) returns (ok: bool)
    modifies docs
    ensures ok == Acceptable(ops, old(docs[..]))
    ensures ok ==> DistinctIds(docs[..]) && forall i :: 0 <= i < docs.Length ==> Some(docs[i]) == Cleaned(ops, old(docs[..])[i])
  {
    ghost var was := docs[..];
    var seen: set<string> := {};
    var i := 0;
    while i < docs.Length
      invariant 0 <= i <= docs.Length
      invariant docs[i..] == was[i..]
      invariant forall j :: 0 <= j < i ==> Some(docs[j]) == Cleaned(ops, was[j])
      invariant seen == Ids(was[..i])
      invariant DistinctTrimmed(was[..i])
    {
      assert docs[i] == was[i];
      var c := Cleaned(ops, docs[i]);
      if c.None? {
        return false;
      }
      if c.value.id in seen {
        RepeatedId(was, i);
        return false;
      }
      IdsSnoc(was, i);
      seen := seen + {c.value.id};
      docs[i] := c.value;
      i := i + 1;
    }
    assert was[..i] == was;
    return true;
  }

  lemma RepeatedId(docs: seq<Document>, i: nat)
    requires i < |docs| && TrimSpace(docs[i].id) in Ids(docs[..i])
    ensures !DistinctTrimmed(docs)
  {
    var j :| 0 <= j < i && TrimSpace(docs[..i][j].id) == TrimSpace(docs[i].id);
    assert docs[..i][j] == docs[j];
  }

  function Ids(docs: seq<Document>): set<string> {
    set i | 0 <= i < |docs| :: TrimSpace(docs[i].id)
  }

  lemma IdsSnoc(docs: seq<Document>, i: nat)
    requires i < |docs|
    ensures Ids(docs[..i + 1]) == Ids(docs[..i]) + {TrimSpace(docs[i].id)}
    ensures DistinctTrimmed(docs[..i]) && TrimSpace(docs[i].id) !in Ids(docs[..i]) ==> DistinctTrimmed(docs[..i + 1])
  {
    var a, b := docs[..i], docs[..i + 1];
    assert b[i] == docs[i];
    forall j | 0 <= j < i
      ensures a[j] == b[j] && TrimSpace(b[j].id) in Ids(a)
    {
    }
  }

  /** Over a loaded corpus the citations of one answer never repeat. */
  lemma CitationsAreDistinct(ops: Ops, docs: seq<Document>, terms: seq<string>, phrase: string, k: nat, out: seq<Ranked>)
    requires DistinctIds(docs) && TopK(AllMatches(ops, docs, terms, phrase), k, out)
    ensures forall i, j :: 0 <= i < j < |out| ==> ItemFor(out[i]).citationId != ItemFor(out[j]).citationId
  {
    var all := AllMatches(ops, docs, terms, phrase);
    MatchesKeepIds(ops, docs, terms, phrase);
    forall i, j | 0 <= i < j < |out|
      ensures out[i].doc.id != out[j].doc.id
    {
      OnceEach(all);
      TwiceIsTwo(out, i, j);
      assert out[i] in multiset(all) && out[j] in multiset(all);
      var a :| 0 <= a < |all| && all[a] == out[i];
      var b :| 0 <= b < |all| && all[b] == out[j];
      assert a != b;
    }
    forall i, j | 0 <= i < j < |out|
      ensures ItemFor(out[i]).citationId != ItemFor(out[j]).citationId
    {
      var p := "local-index:";
      assert (p + out[i].doc.id)[|p|..] == out[i].doc.id && (p + out[j].doc.id)[|p|..] == out[j].doc.id;
    }
  }

  predicate DistinctRanked(s: seq<Ranked>) {
    forall i, j :: 0 <= i < j < |s| ==> s[i].doc.id != s[j].doc.id
  }

  lemma {:induction false} MatchesKeepIds(ops: Ops, docs: seq<Document>, terms: seq<string>, phrase: string)
    requires DistinctIds(docs)
    ensures DistinctRanked(AllMatches(ops, docs, terms, phrase))
    ensures forall r :: r in AllMatches(ops, docs, terms, phrase) ==> r.doc in docs
  {
    if docs != [] {
      var init := docs[..|docs| - 1];
      MatchesKeepIds(ops, init, terms, phrase);
      assert docs == init + [docs[|docs| - 1]];
      var m := AllMatches(ops, init, terms, phrase);
      assert forall i :: 0 <= i < |m| ==> m[i] in m;
    }
  }

  lemma {:induction false} OnceEach(s: seq<Ranked>)
    requires DistinctRanked(s)
    ensures forall x :: multiset(s)[x] <= 1
  {
    if s != [] {
      var init, last := s[..|s| - 1], s[|s| - 1];
      OnceEach(init);
      assert s == init + [last];
      assert last !in init;
    }
  }

  lemma TwiceIsTwo(s: seq<Ranked>, i: nat, j: nat)
    requires i < j < |s|
    ensures s[i] == s[j] ==> multiset(s)[s[i]] >= 2
  {
    assert s == s[..j] + [s[j]] + s[j + 1..];
    assert s[i] in s[..j];
  }
}
