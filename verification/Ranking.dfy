/** Choosing images: rank the candidates, keep the best one per canonical URL, cut at the
    limit. The stages are the pipeline's own; Selection says what they come to together. */
module Ranking {
  import opened Seqs

  datatype RawImage = RawImage(title: string, pageUrl: string, content: string, source: string,
                               engine: string, imgSrc: string, thumbnailSrc: string)

  /** A candidate as the pipeline sees it; `index` is its upstream position. */
  datatype Candidate = Candidate(item: RawImage, url: string, relevance: int, index: nat)

  /** Higher relevance first, then upstream order. */
  predicate Before(a: Candidate, b: Candidate) {
    a.relevance > b.relevance || (a.relevance == b.relevance && a.index < b.index)
  }

  predicate InOrder(s: seq<Candidate>) {
    forall i, j :: 0 <= i < j < |s| ==> Before(s[i], s[j])
  }

  predicate Numbered(s: seq<Candidate>) {
    forall i, j :: 0 <= i < j < |s| ==> s[i].index < s[j].index
  }

  function Urls(s: seq<Candidate>): set<string> {
    set i | 0 <= i < |s| :: s[i].url
  }

  predicate DistinctUrls(s: seq<Candidate>) {
    forall i, j :: 0 <= i < j < |s| ==> s[i].url != s[j].url
  }

  // ---- stable sort -----------------------------------------------------------------------

  /** Places `c` after everything at least as relevant. */
  function Insert(s: seq<Candidate>, c: Candidate): (r: seq<Candidate>)
    ensures forall x :: x in r <==> x == c || x in s
  {
    if s == [] || s[|s| - 1].relevance >= c.relevance then s + [c]
    else Insert(s[..|s| - 1], c) + [s[|s| - 1]]
  }

  /** The stable sort by descending relevance. */
  function StableSort(s: seq<Candidate>): (r: seq<Candidate>)
    ensures forall x :: x in r <==> x in s
  {
    if s == [] then []
    else
      var last := s[|s| - 1];
      assert s == s[..|s| - 1] + [last];
      Insert(StableSort(s[..|s| - 1]), last)
  }

  lemma {:induction false} InsertKeepsOrder(s: seq<Candidate>, c: Candidate)
    requires InOrder(s) && forall x :: x in s ==> x.index < c.index
    ensures InOrder(Insert(s, c))
  {
    if s != [] && s[|s| - 1].relevance < c.relevance {
      var init, last := s[..|s| - 1], s[|s| - 1];
      InsertKeepsOrder(init, c);
      var r := Insert(init, c);
      forall i | 0 <= i < |r|
        ensures Before(r[i], last)
      {
        assert r[i] in r;
      }
    } else {
      assert forall i :: 0 <= i < |s| ==> s[i] in s;
    }
  }

  lemma {:induction false} StableSortSorts(s: seq<Candidate>)
    requires Numbered(s)
    ensures InOrder(StableSort(s))
  {
    if s != [] {
      StableSortSorts(s[..|s| - 1]);
      InsertKeepsOrder(StableSort(s[..|s| - 1]), s[|s| - 1]);
    }
  }

  // ---- dedup in place --------------------------------------------------------------------

  /** Keeps the first candidate of each URL. */
  function Dedup(s: seq<Candidate>): seq<Candidate> {
    if s == [] then []
    else
      var init, last := s[..|s| - 1], s[|s| - 1];
      if last.url in Urls(init) then Dedup(init) else Dedup(init) + [last]
  }

  /** Deduplicates through a slice that shares its storage: kept candidates are written over
      the front of the very array being read. Returns how many were kept. */
  method DedupInPlace(a: array<Candidate>) returns (kept: nat)
    modifies a
    ensures kept <= a.Length && a[..kept] == Dedup(old(a[..]))
  {
    var seen: set<string> := {};
    kept := 0;
    var i := 0;
    ghost var was := a[..];
    while i < a.Length
      invariant 0 <= kept <= i <= a.Length
      invariant a[i..] == was[i..]
      invariant seen == Urls(was[..i])
      invariant a[..kept] == Dedup(was[..i])
    {
      var candidate := a[i];
      assert was[..i + 1][..i] == was[..i] && candidate == was[i];
      UrlsSnoc(was[..i], was[i]);
      assert was[..i + 1] == was[..i] + [was[i]];
      if candidate.url !in seen {
        seen := seen + {candidate.url};
        a[kept] := candidate;
        kept := kept + 1;
      }
      i := i + 1;
    }
    assert was[..a.Length] == was;
  }

  lemma UrlsSnoc(s: seq<Candidate>, c: Candidate)
    ensures Urls(s + [c]) == Urls(s) + {c.url}
  {
    var t := s + [c];
    assert forall i :: 0 <= i < |s| ==> t[i] == s[i];
    assert t[|s|] == c;
  }

  // ---- what the stages come to -----------------------------------------------------------

  /** `c` is the best candidate for its URL: nothing for the same URL comes before it. */
  predicate Best(all: seq<Candidate>, c: Candidate) {
    c in all && forall x :: x in all && x.url == c.url ==> x == c || Before(c, x)
  }

  /** `out` is the selection from `all`: best per URL, in order, and nothing left out that
      ranks above anything kept. */
  predicate Selection(all: seq<Candidate>, limit: nat, out: seq<Candidate>) {
    && |out| == (if |Urls(all)| < limit then |Urls(all)| else limit)
    && InOrder(out)
    && DistinctUrls(out)
    && (forall c :: c in out ==> Best(all, c))
    && (forall c, o :: c in all && c.url !in Urls(out) && o in out ==> Before(o, c))
  }

  lemma {:induction false} DedupKeeps(s: seq<Candidate>)
    ensures var d := Dedup(s);
            && (forall c :: c in d ==> c in s)
            && Urls(d) == Urls(s)
            && DistinctUrls(d)
  {
    if s != [] {
      var init, last := s[..|s| - 1], s[|s| - 1];
      assert s == init + [last];
      DedupKeeps(init);
      UrlsSnoc(init, last);
      var d := Dedup(init);
      if last.url in Urls(init) {
        assert Urls(d) == Urls(init) + {last.url};
      } else {
        UrlsSnoc(d, last);
        assert forall i :: 0 <= i < |d| ==> d[i].url in Urls(d);
      }
    }
  }

  lemma {:induction false} DistinctCount(d: seq<Candidate>)
    requires DistinctUrls(d)
    ensures |Urls(d)| == |d|
  {
    if d != [] {
      var init, last := d[..|d| - 1], d[|d| - 1];
      DistinctCount(init);
      assert d == init + [last];
      UrlsSnoc(init, last);
    }
  }

  lemma {:induction false} DedupKeepsBest(s: seq<Candidate>)
    requires InOrder(s)
    ensures InOrder(Dedup(s))
    ensures forall c :: c in Dedup(s) ==> Best(s, c)
  {
    if s != [] {
      var init, last := s[..|s| - 1], s[|s| - 1];
      assert s == init + [last];
      DedupKeepsBest(init);
      DedupKeeps(init);
      assert forall c :: c in init ==> Before(c, last);
      assert forall i :: 0 <= i < |Dedup(init)| ==> Dedup(init)[i] in Dedup(init);
      forall c | c in Dedup(s)
        ensures Best(s, c)
      {
        if c in Dedup(init) {
          assert Best(init, c) && c in init;
        } else {
          forall x | x in init
            ensures x.url != last.url
          {
            var i :| 0 <= i < |init| && init[i] == x;
          }
        }
      }
    }
  }

  /** The pipeline's composition. */
  function Select(all: seq<Candidate>, limit: nat): seq<Candidate> {
    Prefix(Dedup(StableSort(all)), limit)
  }

  lemma UrlsOfSame(a: seq<Candidate>, b: seq<Candidate>)
    requires forall x :: x in a <==> x in b
    ensures Urls(a) == Urls(b)
  {
    forall u
      ensures u in Urls(a) <==> u in Urls(b)
    {
      if u in Urls(a) {
        var i :| 0 <= i < |a| && a[i].url == u;
        assert a[i] in b;
      }
      if u in Urls(b) {
        var i :| 0 <= i < |b| && b[i].url == u;
        assert b[i] in a;
      }
    }
  }

  /** End to end, sorting then dedup then limit select the best candidates. */
  lemma PipelineSelects(all: seq<Candidate>, limit: nat)
    requires Numbered(all)
    ensures Selection(all, limit, Select(all, limit))
  {
    var sorted := StableSort(all);
    StableSortSorts(all);
    DedupKeeps(sorted);
    DistinctCount(Dedup(sorted));
    DedupKeepsBest(sorted);
    UrlsOfSame(sorted, all);
    var d, out := Dedup(sorted), Select(all, limit);
    forall c | c in out
      ensures Best(all, c)
    {
      assert c in d;
    }
    forall c, o | c in all && c.url !in Urls(out) && o in out
      ensures Before(o, c)
    {
      LeftOutIsBehind(sorted, d, |out|, c, o);
    }
  }

  /** A candidate whose URL missed the cut comes after everything that made it. */
  lemma LeftOutIsBehind(sorted: seq<Candidate>, d: seq<Candidate>, n: nat, c: Candidate, o: Candidate)
    requires InOrder(d) && n <= |d| && Urls(d) == Urls(sorted)
    requires forall x :: x in d ==> Best(sorted, x)
    requires c in sorted && o in d[..n] && c.url !in Urls(d[..n])
    ensures Before(o, c)
  {
    var k :| 0 <= k < |sorted| && sorted[k] == c;
    assert c.url in Urls(d);
    var j :| 0 <= j < |d| && d[j].url == c.url;
    var i :| 0 <= i < n && d[..n][i] == o;
    assert forall m :: 0 <= m < n ==> d[..n][m] == d[m] && d[m].url in Urls(d[..n]);
    assert Before(d[i], d[j]);
    assert d[j] in d && Best(sorted, d[j]);
  }

  lemma BestIsUnique(all: seq<Candidate>, x: Candidate, y: Candidate)
    requires Best(all, x) && Best(all, y) && x.url == y.url
    ensures x == y
  {
  }

  lemma IndexIdentifies(all: seq<Candidate>, x: Candidate, y: Candidate)
    requires Numbered(all) && x in all && y in all
    ensures x == y || Before(x, y) || Before(y, x)
  {
    var i :| 0 <= i < |all| && all[i] == x;
    var j :| 0 <= j < |all| && all[j] == y;
    assert i < j || j < i || i == j;
  }

  /** Where two selections first differ, neither has the better candidate. */
  lemma NotAhead(all: seq<Candidate>, limit: nat, a: seq<Candidate>, b: seq<Candidate>, i: nat)
    requires Selection(all, limit, a) && Selection(all, limit, b)
    requires i < |a| == |b| && a[..i] == b[..i]
    ensures !Before(a[i], b[i])
  {
    var c := a[i];
    assert c in a && b[i] in b && Best(all, c);
    if c.url in Urls(b) {
      var j :| 0 <= j < |b| && b[j].url == c.url;
      assert b[j] in b;
      BestIsUnique(all, c, b[j]);
      assert forall m :: 0 <= m < i ==> a[..i][m] == b[..i][m];
    }
  }

  /** There is only one selection, so the pipeline computes it. */
  lemma {:induction false} SelectionIsUnique(all: seq<Candidate>, limit: nat,
                                             a: seq<Candidate>, b: seq<Candidate>, n: nat)
    requires Numbered(all) && Selection(all, limit, a) && Selection(all, limit, b)
    requires n <= |a|
    ensures a[..n] == b[..n]
    ensures n == |a| ==> a == b
  {
    if n > 0 {
      var i := n - 1;
      SelectionIsUnique(all, limit, a, b, i);
      NotAhead(all, limit, a, b, i);
      NotAhead(all, limit, b, a, i);
      assert a[i] in a && b[i] in b;
      IndexIdentifies(all, a[i], b[i]);
      assert a[..n] == a[..i] + [a[i]] && b[..n] == b[..i] + [b[i]];
    }
    assert n == |a| ==> a[..n] == a && b[..n] == b;
  }
}
