/** What RedirectChain records: where each pass starts in it, how its entries hang together,
    and how far that is from the documented list of Locations followed. */
module FetchChains {
  import opened Options
  import opened FetchModel
  import opened FetchFacts
  import opened FetchRuns
  import opened FetchTheorems

  /** `b` is the resolution of a Location that `a` answered with during these exchanges. */
  predicate LinkedBy(w: World, sent: seq<Exchange>, a: string, b: string) {
    exists e :: e in sent && e.url == a && Redirecting(e.answer) && ResolveRedirect(w, a, e.answer.location) == Some(b)
  }

  predicate Segment(w: World, url: string, sent: seq<Exchange>) {
    var seg := Redirects(sent);
    && (seg != [] ==> seg[0] == url)
    && forall i :: 0 <= i < |seg| - 1 ==> LinkedBy(w, sent, seg[i], seg[i + 1])
  }

  lemma LinkedInLonger(w: World, init: seq<Exchange>, e: Exchange)
    ensures forall a, b :: LinkedBy(w, init, a, b) ==> LinkedBy(w, init + [e], a, b)
  {
    forall a, b | LinkedBy(w, init, a, b)
      ensures LinkedBy(w, init + [e], a, b)
    {
      var x :| x in init && x.url == a && Redirecting(x.answer)
               && ResolveRedirect(w, a, x.answer.location) == Some(b);
      assert x in init + [e];
    }
  }

  lemma {:induction false} PathIsLinked(w: World, url: string, sent: seq<Exchange>, current: string)
    requires Path(w, url, sent, current)
    ensures Segment(w, url, sent)
    ensures var seg := Redirects(sent);
            if seg == [] then current == url else LinkedBy(w, sent, seg[|seg| - 1], current)
  {
    if sent != [] {
      var init, e := sent[..|sent| - 1], sent[|sent| - 1];
      PathIsLinked(w, url, init, e.url);
      LinkedInLonger(w, init, e);
      assert init + [e] == sent;
      assert e in sent;
      if Redirecting(e.answer) {
        assert LinkedBy(w, sent, e.url, current);
      }
    }
  }

  lemma WalkedIsLinked(w: World, url: string, sent: seq<Exchange>)
    requires Walked(w, url, sent)
    ensures Segment(w, url, sent)
  {
    if sent != [] {
      var init, e := sent[..|sent| - 1], sent[|sent| - 1];
      PathIsLinked(w, url, init, e.url);
      LinkedInLonger(w, init, e);
      assert init + [e] == sent;
    }
  }

  /** Each pass's segment of the redirect chain starts at the fetched URL, and each entry
      resolves from the one before it. */
  lemma SegmentsAreLinked(w: World, cfg: Limits, url: string)
    ensures var r := Fetched(w, cfg, url);
            && r.rec.chain == AllRedirects(r.visits)
            && (forall i :: 0 <= i < |r.visits| ==> Segment(w, url, r.visits[i].sent))
            && (r.rec.chain != [] ==> r.rec.chain[0] == url)
  {
    FetchedIsOk(w, cfg, url);
    var r := Fetched(w, cfg, url);
    HistoryCarries(w, cfg, url, r.visits);
    forall i | 0 <= i < |r.visits|
      ensures Segment(w, url, r.visits[i].sent)
    {
      ChainedVisit(w, cfg, url, r.visits, i);
      WalkedIsLinked(w, url, r.visits[i].sent);
    }
    FirstOfAll(w, url, r.visits);
  }

  lemma {:induction false} FirstOfAll(w: World, url: string, visits: seq<Visit>)
    requires forall i :: 0 <= i < |visits| ==> Segment(w, url, visits[i].sent)
    ensures AllRedirects(visits) != [] ==> AllRedirects(visits)[0] == url
  {
    if visits != [] {
      FirstOfAll(w, url, visits[..|visits| - 1]);
      assert Segment(w, url, visits[|visits| - 1].sent);
    }
  }

  // ---- the initial URL is in it ----------------------------------------------------------

  lemma {:induction false} RedirectsConcat(a: seq<Exchange>, b: seq<Exchange>)
    ensures Redirects(a + b) == Redirects(a) + Redirects(b)
  {
    if b == [] {
      assert a + b == a;
    } else {
      RedirectsConcat(a, b[..|b| - 1]);
      assert (a + b)[..|a + b| - 1] == a + b[..|b| - 1];
    }
  }

  lemma {:induction false} AllRedirectsAreSent(visits: seq<Visit>)
    ensures AllRedirects(visits) == Redirects(AllSent(visits))
  {
    if visits != [] {
      AllRedirectsAreSent(visits[..|visits| - 1]);
      RedirectsConcat(AllSent(visits[..|visits| - 1]), visits[|visits| - 1].sent);
    }
  }

  lemma {:induction false} SomeRedirected(sent: seq<Exchange>)
    ensures Redirects(sent) != [] <==> exists i :: 0 <= i < |sent| && Redirecting(sent[i].answer)
  {
    if sent != [] {
      SomeRedirected(sent[..|sent| - 1]);
    }
  }

  /** The field is documented to exclude the initial URL. It includes it exactly when any reply
      of the run was a redirect, so whenever it is not empty. */
  lemma InitialUrlIsChainedIff(w: World, cfg: Limits, url: string)
    ensures var r := Fetched(w, cfg, url);
            var sent := AllSent(r.visits);
            && (url in r.rec.chain <==> exists i :: 0 <= i < |sent| && Redirecting(sent[i].answer))
            && (url in r.rec.chain <==> r.rec.chain != [])
  {
    SegmentsAreLinked(w, cfg, url);
    AllRedirectsAreSent(Fetched(w, cfg, url).visits);
    SomeRedirected(AllSent(Fetched(w, cfg, url).visits));
  }

  // ---- against the documented list -------------------------------------------------------

  /** The Locations these exchanges answered with, resolved, in order. */
  function Targets(w: World, sent: seq<Exchange>): seq<string> {
    if sent == [] then []
    else
      var init, e := Targets(w, sent[..|sent| - 1]), sent[|sent| - 1];
      if !Redirecting(e.answer) then init
      else match ResolveRedirect(w, e.url, e.answer.location) case None => init case Some(next) => init + [next]
  }

  /** The documented chain of a pass: every Location that was followed by a request. */
  function Followed(w: World, sent: seq<Exchange>): seq<string> {
    if sent == [] then [] else Targets(w, sent[..|sent| - 1])
  }

  /** Along a path, the recorded URLs are the followed ones one place late. */
  lemma {:induction false} ChainLagsBehind(w: World, url: string, sent: seq<Exchange>, current: string)
    requires Path(w, url, sent, current)
    ensures [url] + Targets(w, sent) == Redirects(sent) + [current]
  {
    if sent != [] {
      var init, e := sent[..|sent| - 1], sent[|sent| - 1];
      ChainLagsBehind(w, url, init, e.url);
      if Redirecting(e.answer) {
        assert [url] + Targets(w, sent) == ([url] + Targets(w, init)) + [current];
      }
    }
  }

  /** A constant list is one that equals itself moved by one place. */
  lemma {:induction false} ShiftedIsConstant(x: string, s: seq<string>, y: string)
    requires [x] + s == s + [y]
    ensures forall i :: 0 <= i < |s| ==> s[i] == x
  {
    if s != [] {
      assert ([x] + s)[0] == s[0] && ([x] + s)[1..] == s && (s + [y])[1..] == s[1..] + [y];
      ShiftedIsConstant(x, s[1..], y);
    }
  }

  /** In every run, each pass that sent anything starts its part of the chain with the fetched
      URL, continues with the Locations followed, and leaves out the last of them unless that
      one answered with a redirect too. So it records what is documented exactly when the pass
      did not end on a redirect and every Location followed led back to the fetched URL; with
      none followed, that is the empty chain. */
  lemma ChainIsShifted(w: World, cfg: Limits, url: string, i: nat)
    requires i < |Fetched(w, cfg, url).visits| && Fetched(w, cfg, url).visits[i].sent != []
    ensures var sent := Fetched(w, cfg, url).visits[i].sent;
            var last := sent[|sent| - 1];
            && [url] + Followed(w, sent) == Redirects(sent) + (if Redirecting(last.answer) then [] else [last.url])
            && (Redirects(sent) == Followed(w, sent) <==>
                  !Redirecting(last.answer) && forall k :: 0 <= k < |Followed(w, sent)| ==> Followed(w, sent)[k] == url)
  {
    FetchedIsOk(w, cfg, url);
    var r := Fetched(w, cfg, url);
    ChainedVisit(w, cfg, url, r.visits, i);
    var sent := r.visits[i].sent;
    var init, last := sent[..|sent| - 1], sent[|sent| - 1];
    ChainLagsBehind(w, url, init, last.url);
    DocumentedOnlyIfConstant(url, Followed(w, sent), Redirects(sent), Redirecting(last.answer), last.url);
  }

  lemma DocumentedOnlyIfConstant(url: string, followed: seq<string>, chain: seq<string>, redirecting: bool, end: string)
    requires [url] + followed == chain + (if redirecting then [] else [end])
    ensures chain == followed <==> !redirecting && forall k :: 0 <= k < |followed| ==> followed[k] == url
  {
    assert |chain| == |followed| + (if redirecting then 1 else 0);
    if chain == followed {
      ShiftedIsConstant(url, followed, end);
    } else if !redirecting {
      var k :| 0 <= k < |followed| && chain[k] != followed[k];
      assert chain[k] == (chain + [end])[k] == ([url] + followed)[k];
      assert k > 0 ==> ([url] + followed)[k] == followed[k - 1];
    }
  }

  // ---- a run that shows both -------------------------------------------------------------

  /** One redirect from any URL to http://b, then a good reply. */
  function RedirectOnce(): World {
    QuietWorld((n: nat, h: nat) =>
      if h == 0 then Replies(302, "http://b", "", false) else Replies(200, "", "", false))
  }

  /** The chain holds the fetched URL, and not the one Location that was followed. */
  lemma ChainHoldsInitialUrlOnly()
    ensures var r := Fetched(RedirectOnce(), DEFAULTS, "http://a");
            r.rec.outcome == Success && r.rec.chain == ["http://a"]
    ensures var r := Fetched(RedirectOnce(), DEFAULTS, "http://a");
            |r.visits| == 1 && Followed(RedirectOnce(), r.visits[0].sent) == ["http://b"]
  {
    var w, url, rec := RedirectOnce(), "http://a", FRESH.(attempts := 1);
    var first, second := Exchange(url, w.hop(1, 0)), Exchange("http://b", w.hop(1, 1));
    assert ResolveRedirect(w, url, "http://b") == Some("http://b");
    var chained := rec.(status := 302, chain := [url]);
    assert [] + [first] == [first] && [first] + [second] == [first, second] && [] + [url] == [url];
    assert Walk(w, DEFAULTS, 1, 0, url, rec, []) == Walk(w, DEFAULTS, 1, 1, "http://b", chained, [first]);
    var v := Walk(w, DEFAULTS, 1, 1, "http://b", chained, [first]);
    assert v.err.None? && v.sent == [first, second] && v.rec.chain == [url];
    RetryMakesPass(w, DEFAULTS, url, 1, FRESH, None, [], []);
    assert [first, second][..1] == [first] && [first][..0] == [];
    assert Targets(w, [first]) == ["http://b"];
  }
}
