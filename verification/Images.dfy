/** The image connector's selection: filter, score, rank, deduplicate in place, cut, label. */
module Images {
  import opened Options
  import opened SearchTypes
  import opened Seqs
  import opened Ranking
  import opened Snippet

  const HIGHLIGHT_START := '\U{E000}'
  const HIGHLIGHT_END := '\U{E001}'

  /** Library text and URL functions, total and deterministic but otherwise unknown. */
  datatype Ops = Ops(
    words: string -> seq<string>,        // lower-case runs of letters and digits
    squeeze: string -> string,           // white space runs become one blank
    isHttp: string -> bool,
    isImage: string -> bool,
    canonical: string -> Option<string>)

  function StripHighlights(text: string): (r: string)
    ensures HIGHLIGHT_START !in r && HIGHLIGHT_END !in r
  {
    if text == "" then ""
    else
      var rest := StripHighlights(text[..|text| - 1]);
      var c := text[|text| - 1];
      if c == HIGHLIGHT_START || c == HIGHLIGHT_END then rest else rest + [c]
  }

  lemma {:induction false} StripConcat(a: string, b: string)
    ensures StripHighlights(a + b) == StripHighlights(a) + StripHighlights(b)
  {
    if b == "" {
      assert a + b == a;
    } else {
      StripConcat(a, b[..|b| - 1]);
      assert (a + b)[..|a + b| - 1] == a + b[..|b| - 1];
    }
  }

  /** Stripping drops the two marks, character by character, and nothing else. */
  lemma StripOne(c: char)
    ensures StripHighlights([c]) == if c == '\U{E000}' || c == '\U{E001}' then [] else [c]
  {
    assert [c][..0] == [];
  }

  function Normalized(raw: RawImage): RawImage {
    raw.(title := StripHighlights(raw.title), content := StripHighlights(raw.content))
  }

  /** The first usable image address: source, thumbnail, then the page itself if it is an image. */
  function ImageUrlFor(ops: Ops, raw: RawImage): Option<string> {
    if ops.isHttp(raw.imgSrc) then Some(raw.imgSrc)
    else if ops.isHttp(raw.thumbnailSrc) then Some(raw.thumbnailSrc)
    else if ops.isImage(raw.pageUrl) then Some(raw.pageUrl)
    else None
  }

  // ---- relevance -------------------------------------------------------------------------

  method ImageTerms(ops: Ops, query: string) returns (terms: seq<string>)
    ensures terms == Distinct(ops.words(query))
  {
    var words := ops.words(query);
    var seen: set<string> := {};
    terms := [];
    var i := 0;
    while i < |words|
      invariant 0 <= i <= |words|
      invariant forall w :: w in seen <==> w in words[..i]
      invariant terms == Distinct(words[..i])
    {
      assert words[..i + 1] == words[..i] + [words[i]];
      assert words[..i + 1][..i] == words[..i];
      if words[i] !in seen {
        seen := seen + {words[i]};
        terms := terms + [words[i]];
      }
      i := i + 1;
    }
    assert words[..|words|] == words;
  }

  /** How many terms are words of a text. */
  function Matches(terms: seq<string>, words: set<string>): (n: nat)
    ensures n <= |terms|
  {
    if terms == [] then 0
    else Matches(terms[..|terms| - 1], words) + (if terms[|terms| - 1] in words then 1 else 0)
  }

  function WordSet(ops: Ops, text: string): set<string> { set w | w in ops.words(text) }

  method ImageTermMatches(ops: Ops, terms: seq<string>, text: string) returns (matches: nat)
    ensures matches == Matches(terms, WordSet(ops, text))
  {
    var words := set w | w in ops.words(text);
    matches := 0;
    var i := 0;
    while i < |terms|
      invariant 0 <= i <= |terms|
      invariant matches == Matches(terms[..i], words)
    {
      assert terms[..i + 1][..i] == terms[..i];
      if terms[i] in words {
        matches := matches + 1;
      }
      i := i + 1;
    }
    assert terms[..|terms|] == terms;
  }

  function TermSet(terms: seq<string>): set<string> { set t | t in terms }

  lemma TermSetSnoc(init: seq<string>, last: string, words: set<string>)
    ensures TermSet(init + [last]) * words
         == if last in words then TermSet(init) * words + {last} else TermSet(init) * words
  {
    assert TermSet(init + [last]) == TermSet(init) + {last};
  }

  /** Counting each distinct term once makes the count the size of an intersection. */
  lemma {:induction false} MatchesCountsShared(terms: seq<string>, words: set<string>)
    requires NoRepeats(terms)
    ensures Matches(terms, words) == |TermSet(terms) * words|
  {
    if terms == [] {
      assert TermSet(terms) * words == {};
    } else {
      var init, last := terms[..|terms| - 1], terms[|terms| - 1];
      MatchesCountsShared(init, words);
      TermSetSnoc(init, last, words);
      assert terms == init + [last];
      assert last !in TermSet(init) * words;
    }
  }

  function TitleMatches(ops: Ops, query: string, raw: RawImage): nat {
    Matches(Distinct(ops.words(query)), WordSet(ops, raw.title))
  }

  function ContentMatches(ops: Ops, query: string, raw: RawImage): nat {
    Matches(Distinct(ops.words(query)), WordSet(ops, Bounded(ops.squeeze(raw.content), MAX_DESCRIPTION)))
  }

  function Relevance(ops: Ops, query: string, raw: RawImage): int {
    if ops.words(query) == [] then 0 else TitleMatches(ops, query, raw) * 10 + ContentMatches(ops, query, raw)
  }

  method ImageRelevance(ops: Ops, query: string, raw: RawImage) returns (relevance: int)
    ensures relevance == Relevance(ops, query, raw)
  {
    var terms := ImageTerms(ops, query);
    if |terms| == 0 {
      return 0;
    }
    var titleMatches := ImageTermMatches(ops, terms, raw.title);
    var contentMatches := ImageTermMatches(ops, terms, Bounded(ops.squeeze(raw.content), MAX_DESCRIPTION));
    return titleMatches * 10 + contentMatches;
  }

  // ---- the pipeline ----------------------------------------------------------------------

  /** The candidate an upstream result becomes, if it has a usable image address. */
  function CandidateOf(ops: Ops, query: string, raw: RawImage, i: nat): Option<Candidate> {
    var item := Normalized(raw);
    match ImageUrlFor(ops, item)
    case None => None
    case Some(u) =>
      match ops.canonical(u)
      case None => None
      case Some(c) => Some(Candidate(item, c, Relevance(ops, query, item), i))
  }

  function Candidates(ops: Ops, query: string, raws: seq<RawImage>): (cs: seq<Candidate>)
    ensures Numbered(cs) && forall c :: c in cs ==> c.index < |raws|
  {
    if raws == [] then []
    else
      var last := |raws| - 1;
      var cs := Candidates(ops, query, raws[..last]);
      var c := CandidateOf(ops, query, raws[last], last);
      assert forall i :: 0 <= i < |cs| ==> cs[i] in cs;
      if c.Some? then cs + [c.value] else cs
  }

  /** The address an image is known by: its source if that is HTTP, else its thumbnail if that
      is, else its page if that is an image itself. */
  predicate FirstUsable(ops: Ops, raw: RawImage, u: string) {
    || (ops.isHttp(raw.imgSrc) && u == raw.imgSrc)
    || (!ops.isHttp(raw.imgSrc) && ops.isHttp(raw.thumbnailSrc) && u == raw.thumbnailSrc)
    || (!ops.isHttp(raw.imgSrc) && !ops.isHttp(raw.thumbnailSrc) && ops.isImage(raw.pageUrl) && u == raw.pageUrl)
  }

  /** `c` is what result i becomes. */
  ghost predicate Becomes(ops: Ops, query: string, raws: seq<RawImage>, i: nat, c: Candidate) {
    && i < |raws| && c.index == i
    && c.item == raws[i].(title := StripHighlights(raws[i].title), content := StripHighlights(raws[i].content))
    && c.relevance == Relevance(ops, query, c.item)
    && exists u :: FirstUsable(ops, raws[i], u) && ops.canonical(u) == Some(c.url)
  }

  lemma BecomesCandidate(ops: Ops, query: string, raws: seq<RawImage>, i: nat, c: Candidate)
    ensures Becomes(ops, query, raws, i, c) <==> i < |raws| && CandidateOf(ops, query, raws[i], i) == Some(c)
  {
    if i < |raws| && ImageUrlFor(ops, Normalized(raws[i])).Some? {
      assert FirstUsable(ops, raws[i], ImageUrlFor(ops, Normalized(raws[i])).value);
    }
  }

  /** The candidates are exactly the results with a usable address that has a canonical form. */
  lemma CandidatesMeaning(ops: Ops, query: string, raws: seq<RawImage>, c: Candidate)
    ensures c in Candidates(ops, query, raws) <==> exists i: nat :: Becomes(ops, query, raws, i, c)
  {
    CandidatesAre(ops, query, raws, c);
    forall i: nat
      ensures Becomes(ops, query, raws, i, c) <==> i < |raws| && CandidateOf(ops, query, raws[i], i) == Some(c)
    {
      BecomesCandidate(ops, query, raws, i, c);
    }
  }

  lemma {:induction false} CandidatesAre(ops: Ops, query: string, raws: seq<RawImage>, c: Candidate)
    ensures c in Candidates(ops, query, raws) <==>
              exists i :: 0 <= i < |raws| && CandidateOf(ops, query, raws[i], i) == Some(c)
  {
    if raws != [] {
      CandidatesAre(ops, query, raws[..|raws| - 1], c);
      assert raws == raws[..|raws| - 1] + [raws[|raws| - 1]];
    }
  }

  function ItemFor(ops: Ops, c: Candidate, limit: int, i: int): Item {
    var engine := if c.item.engine == "" then "searxng" else c.item.engine;
    var page := if ops.isHttp(c.item.pageUrl) then Some(c.item.pageUrl) else None;
    var thumb := ops.canonical(c.item.thumbnailSrc);
    var preview := if thumb.Some? && thumb.value != c.url then thumb else None;
    Item(c.item.title, c.url, ImageSnippet(ops.squeeze(c.item.content), page, preview, c.item.source, engine),
         engine, c.item.engine, "image", limit - i, "images:" + c.url, c.url)
  }

  /** An item shows a candidate: its title, address and engine, a snippet from its content and
      the addresses beside it, and a score. */
  predicate Shows(ops: Ops, item: Item, c: Candidate, score: int) {
    var engine := if c.item.engine == "" then "searxng" else c.item.engine;
    var page := if ops.isHttp(c.item.pageUrl) then Some(c.item.pageUrl) else None;
    var thumb := ops.canonical(c.item.thumbnailSrc);
    && item.title == c.item.title && item.url == c.url && item.canonicalUrl == c.url && item.score == score
    && item.source == engine && item.engine == c.item.engine && item.kind == "image"
    && item.snippet == ImageSnippet(ops.squeeze(c.item.content), page, if thumb == Some(c.url) then None else thumb,
                                    c.item.source, engine)
  }

  /** `results` label the candidates `chosen`, in order, scored from the limit down. */
  predicate Labels(ops: Ops, chosen: seq<Candidate>, limit: int, results: seq<Item>) {
    |results| == |chosen| && forall i :: 0 <= i < |chosen| ==> Shows(ops, results[i], chosen[i], limit - i)
  }

  /** Everything between the decoded answer and the returned items. The result labels the
      selection from the usable candidates: the best per canonical URL, best first. */
  method SelectImages(ops: Ops, query: string, raws: seq<RawImage>, limit: int)
    returns (results: seq<Item>, ghost chosen: seq<Candidate>)
    requires limit >= 1
    ensures Selection(Candidates(ops, query, raws), limit, chosen)
    ensures Labels(ops, chosen, limit, results)
    ensures |results| <= limit && forall i :: 0 <= i < |results| ==> results[i].score >= 1
    ensures forall i, j :: 0 <= i < j < |results| ==>
              results[i].score > results[j].score && results[i].canonicalUrl != results[j].canonicalUrl
  {
    var candidates := CollectCandidates(ops, query, raws);
    var sorted := StableSort(candidates);
    var a := new Candidate[|sorted|](i requires 0 <= i < |sorted| => sorted[i]);
    assert a[..] == sorted;
    var kept := DedupInPlace(a);
    PipelineSelects(candidates, limit);
    chosen := Select(candidates, limit);
    results := LabelFirst(ops, a, kept, limit);
    LabelledSelection(ops, candidates, chosen, limit, results);
  }

  method LabelFirst(ops: Ops, a: array<Candidate>, kept: nat, limit: int) returns (results: seq<Item>)
    requires limit >= 1 && kept <= a.Length
    ensures Labels(ops, Prefix(a[..kept], limit), limit, results)
  {
    results := [];
    var outputIndex := 0;
    while outputIndex < kept
      invariant 0 <= outputIndex <= kept && outputIndex <= limit && |results| == outputIndex
      invariant forall i :: 0 <= i < outputIndex ==> results[i] == ItemFor(ops, a[i], limit, i)
    {
      if outputIndex >= limit {
        break;
      }
      results := results + [ItemFor(ops, a[outputIndex], limit, outputIndex)];
      outputIndex := outputIndex + 1;
    }
    MadeItemsLabel(ops, Prefix(a[..kept], limit), limit, results);
  }

  lemma MadeItemsLabel(ops: Ops, chosen: seq<Candidate>, limit: int, results: seq<Item>)
    requires |results| == |chosen| && forall i :: 0 <= i < |chosen| ==> results[i] == ItemFor(ops, chosen[i], limit, i)
    ensures Labels(ops, chosen, limit, results)
  {
    forall i | 0 <= i < |chosen|
      ensures Shows(ops, results[i], chosen[i], limit - i)
    {
      MadeItemShows(ops, chosen[i], limit, i);
    }
  }

  lemma MadeItemShows(ops: Ops, c: Candidate, limit: int, i: int)
    ensures Shows(ops, ItemFor(ops, c, limit, i), c, limit - i)
  {
  }

  /** What a caller sees of a labelled selection: at most the limit, distinct URLs, and
      scores that fall strictly and stay at least one. */
  lemma LabelledSelection(ops: Ops, all: seq<Candidate>, chosen: seq<Candidate>, limit: int, results: seq<Item>)
    requires limit >= 1 && Selection(all, limit, chosen) && Labels(ops, chosen, limit, results)
    ensures |results| <= limit && forall i :: 0 <= i < |results| ==> results[i].score >= 1
    ensures forall i, j :: 0 <= i < j < |results| ==>
              results[i].score > results[j].score && results[i].canonicalUrl != results[j].canonicalUrl
  {
  }

  method CollectCandidates(ops: Ops, query: string, raws: seq<RawImage>) returns (candidates: seq<Candidate>)
    ensures candidates == Candidates(ops, query, raws)
  {
    candidates := [];
    var i := 0;
    while i < |raws|
      invariant 0 <= i <= |raws|
      invariant candidates == Candidates(ops, query, raws[..i])
    {
      assert raws[..i + 1][..i] == raws[..i];
      var item := Normalized(raws[i]);
      var imageUrl := ImageUrlFor(ops, item);
      if imageUrl.Some? {
        var canonical := ops.canonical(imageUrl.value);
        if canonical.Some? {
          var relevance := ImageRelevance(ops, query, item);
          candidates := candidates + [Candidate(item, canonical.value, relevance, i)];
        }
      }
      i := i + 1;
    }
    assert raws[..|raws|] == raws;
  }
}
