/** Which passes of a fetch are followed by another: exactly when, for every world, and what
    that says about the documented promises on blocked targets and server errors. */
module FetchRetries {
  import opened Options
  import opened FetchModel
  import opened FetchFacts
  import opened FetchRuns
  import opened FetchTheorems

  // ---- what the context lets happen ------------------------------------------------------

  predicate IsContext(err: Option<FetchError>) { err.Some? && err.value.ContextError? }

  /** The context neither canceled the fetch right after pass n nor stopped pass n + 1. */
  predicate QuietAfter(w: World, cfg: Limits, n: nat) {
    w.after(n) != Some(Canceled) && PassHappens(w, cfg, n + 1)
  }

  /** Between any two passes the context was quiet. */
  predicate QuietBetween(w: World, cfg: Limits, n: nat) {
    forall j :: 1 <= j < n ==> QuietAfter(w, cfg, j)
  }

  /** A run whose last pass was over when the context ended it: it was not quiet then. */
  predicate ContextTold(w: World, cfg: Limits, r: Run) {
    var n := |r.visits|;
    && QuietBetween(w, cfg, n)
    && (IsContext(r.err) && n > 0 && !IsContext(r.visits[n - 1].err) ==> !QuietAfter(w, cfg, n))
  }

  lemma {:induction false} RetryTellsContext(w: World, cfg: Limits, url: string, attempt: nat, rec: Record,
                                             last: Option<FetchError>, visits: seq<Visit>, slept: seq<int>)
    requires attempt == |visits| + 1 && QuietBetween(w, cfg, |visits|)
    requires visits != [] ==> w.after(|visits|) != Some(Canceled) && last == visits[|visits| - 1].err
    ensures ContextTold(w, cfg, Retry(w, cfg, url, attempt, rec, last, visits, slept))
    decreases cfg.maxAttempts + 1 - attempt, 1
  {
    if PassHappens(w, cfg, attempt) {
      var v := Walk(w, cfg, attempt, 0, url, rec.(attempts := attempt), []);
      RetryMakesPass(w, cfg, url, attempt, rec, last, visits, slept);
      AfterPassTellsContext(w, cfg, url, attempt, visits + [v], SleptBy(cfg, attempt, slept));
    } else {
      RetryEnds(w, cfg, url, attempt, rec, last, visits, slept);
    }
  }

  lemma RetryEnds(w: World, cfg: Limits, url: string, attempt: nat, rec: Record,
                  last: Option<FetchError>, visits: seq<Visit>, slept: seq<int>)
    requires attempt >= 1 && !PassHappens(w, cfg, attempt)
    ensures var r := Retry(w, cfg, url, attempt, rec, last, visits, slept);
            && r.visits == visits && (r.err == last || IsContext(r.err))
            && (attempt <= cfg.maxAttempts ==> IsContext(r.err) && r.rec.attempts == attempt)
            && (attempt > cfg.maxAttempts ==> r.err == last && r.rec.attempts == rec.attempts)
  {
  }

  lemma {:induction false} AfterPassTellsContext(w: World, cfg: Limits, url: string, attempt: nat,
                                                 visits: seq<Visit>, slept: seq<int>)
    requires attempt == |visits| && 1 <= attempt <= cfg.maxAttempts && QuietBetween(w, cfg, attempt)
    ensures ContextTold(w, cfg, AfterPass(w, cfg, url, attempt, visits, slept))
    decreases cfg.maxAttempts + 1 - attempt, 0
  {
    var v := visits[attempt - 1];
    if w.after(attempt) != Some(Canceled) && v.err.Some? && ShouldRetry(v.rec.status, v.err.value) {
      RetryTellsContext(w, cfg, url, attempt + 1, v.rec, v.err, visits, slept);
    }
  }

  lemma FetchedTellsContext(w: World, cfg: Limits, url: string)
    ensures ContextTold(w, cfg, Fetched(w, cfg, url))
  {
    if w.entry.None? {
      RetryTellsContext(w, cfg, url, 1, FRESH, None, [], []);
    }
  }

  // ---- what Attempts counts --------------------------------------------------------------

  /** The next attempt was numbered, the passes so far calling for it and attempts remaining,
      but the context stopped it before it was made. */
  predicate NumberedInVain(w: World, cfg: Limits, visits: seq<Visit>) {
    var n := |visits|;
    && n < cfg.maxAttempts && !PassHappens(w, cfg, n + 1)
    && (n > 0 ==> w.after(n) != Some(Canceled) && Retried(visits[n - 1]))
  }

  predicate CountsAttempts(w: World, cfg: Limits, r: Run) {
    r.rec.attempts == if NumberedInVain(w, cfg, r.visits) then |r.visits| + 1 else |r.visits|
  }

  lemma PassKeepsNumber(w: World, cfg: Limits, attempt: nat, url: string, rec: Record)
    ensures Walk(w, cfg, attempt, 0, url, rec, []).rec.attempts == rec.attempts
  {
    assert rec.chain + Redirects([]) == rec.chain;
    WalkIsOk(w, cfg, attempt, 0, url, rec, [], url, rec);
  }

  lemma {:induction false} RetryCountsAttempts(w: World, cfg: Limits, url: string, attempt: nat, rec: Record,
                                               last: Option<FetchError>, visits: seq<Visit>, slept: seq<int>)
    requires attempt == |visits| + 1 && rec.attempts == |visits| <= cfg.maxAttempts
    requires visits != [] ==> w.after(|visits|) != Some(Canceled) && Retried(visits[|visits| - 1])
    ensures CountsAttempts(w, cfg, Retry(w, cfg, url, attempt, rec, last, visits, slept))
    decreases cfg.maxAttempts + 1 - attempt, 1
  {
    if PassHappens(w, cfg, attempt) {
      var numbered := rec.(attempts := attempt);
      var v := Walk(w, cfg, attempt, 0, url, numbered, []);
      PassKeepsNumber(w, cfg, attempt, url, numbered);
      RetryMakesPass(w, cfg, url, attempt, rec, last, visits, slept);
      AfterPassCountsAttempts(w, cfg, url, attempt, visits + [v], SleptBy(cfg, attempt, slept));
    } else {
      RetryEnds(w, cfg, url, attempt, rec, last, visits, slept);
    }
  }

  lemma {:induction false} AfterPassCountsAttempts(w: World, cfg: Limits, url: string, attempt: nat,
                                                   visits: seq<Visit>, slept: seq<int>)
    requires attempt == |visits| && 1 <= attempt <= cfg.maxAttempts
    requires visits[attempt - 1].rec.attempts == attempt
    ensures CountsAttempts(w, cfg, AfterPass(w, cfg, url, attempt, visits, slept))
    decreases cfg.maxAttempts + 1 - attempt, 0
  {
    var v := visits[attempt - 1];
    if w.after(attempt) != Some(Canceled) && Retried(v) {
      RetryCountsAttempts(w, cfg, url, attempt + 1, v.rec, v.err, visits, slept);
    }
  }

  /** Attempts counts one pass that was never made exactly when the context stops an attempt
      that was due: the first, or one after a pass that called for a retry. */
  lemma AttemptsCountIff(w: World, cfg: Limits, url: string)
    ensures var r := Fetched(w, cfg, url);
            if w.entry.Some? then r.rec.attempts == |r.visits| == 0
            else r.rec.attempts == (if NumberedInVain(w, cfg, r.visits) then |r.visits| + 1 else |r.visits|)
  {
    if w.entry.None? {
      RetryCountsAttempts(w, cfg, url, 1, FRESH, None, [], []);
    }
  }

  /** A fetch that counts one attempt and never tried. */
  lemma UntriedAttemptIsCounted(url: string, hop: (nat, nat) -> Answer)
    ensures var w := QuietWorld(hop).(before := (n: nat) => Some(Canceled));
            var r := Fetched(w, DEFAULTS, url);
            r.rec.attempts == 1 && r.visits == []
  {
    var w := QuietWorld(hop).(before := (n: nat) => Some(Canceled));
    RetryEnds(w, DEFAULTS, url, 1, FRESH, None, [], []);
  }

  // ---- when a pass is retried ------------------------------------------------------------

  lemma {:induction false} ChainedPrefix(w: World, cfg: Limits, url: string, visits: seq<Visit>, n: nat)
    requires Chained(w, cfg, url, visits) && n <= |visits|
    ensures Chained(w, cfg, url, visits[..n])
  {
    if n < |visits| {
      ChainedPrefix(w, cfg, url, visits[..|visits| - 1], n);
      assert visits[..|visits| - 1][..n] == visits[..n];
    } else {
      assert visits[..n] == visits;
    }
  }

  /** The status the first n passes left behind: the last one received in any of them. */
  function StatusAfter(visits: seq<Visit>, n: nat): int
    requires n <= |visits|
  {
    LastStatus(0, AllSent(visits[..n]))
  }

  /** Attempts remain, and pass i timed out or the last status received is transient. */
  predicate RetryDue(cfg: Limits, visits: seq<Visit>, i: nat)
    requires i < |visits|
  {
    && i + 1 < cfg.maxAttempts
    && visits[i].err.Some?
    && (IsTimeoutErr(visits[i].err.value) || Transient(StatusAfter(visits, i + 1)))
  }

  /** What is known of pass i of any run. */
  lemma PassFacts(w: World, cfg: Limits, url: string, i: nat)
    requires i < |Fetched(w, cfg, url).visits|
    ensures var vs := Fetched(w, cfg, url).visits;
            && Chained(w, cfg, url, vs[..i]) && RecordAfter(vs[..i]).status == StatusAfter(vs, i)
            && vs[i].rec.status == StatusAfter(vs, i + 1)
            && VisitOk(w, cfg, url, RecordAfter(vs[..i]).(attempts := i + 1), vs[i])
  {
    FetchedIsOk(w, cfg, url);
    var vs := Fetched(w, cfg, url).visits;
    ChainedVisit(w, cfg, url, vs, i);
    ChainedPrefix(w, cfg, url, vs, i);
    ChainedPrefix(w, cfg, url, vs, i + 1);
    HistoryCarries(w, cfg, url, vs[..i]);
    HistoryCarries(w, cfg, url, vs[..i + 1]);
  }

  /** A retry due after the last pass was prevented by the context. */
  lemma LastIsNotDue(w: World, cfg: Limits, url: string)
    requires Fetched(w, cfg, url).visits != []
    ensures var r := Fetched(w, cfg, url);
            var n := |r.visits|;
            RetryDue(cfg, r.visits, n - 1) ==> IsContext(r.err) && !QuietAfter(w, cfg, n)
  {
    FetchedTellsContext(w, cfg, url);
    var r := Fetched(w, cfg, url);
    PassFacts(w, cfg, url, |r.visits| - 1);
    assert Ended(cfg, r) by {
      FetchedIsOk(w, cfg, url);
    }
  }

  lemma FollowedIsDue(w: World, cfg: Limits, url: string, i: nat)
    requires i + 1 < |Fetched(w, cfg, url).visits|
    ensures RetryDue(cfg, Fetched(w, cfg, url).visits, i) && QuietAfter(w, cfg, i + 1)
  {
    var vs := Fetched(w, cfg, url).visits;
    FetchedTellsContext(w, cfg, url);
    PassFacts(w, cfg, url, i);
    assert Retried(vs[i]) && |vs| <= cfg.maxAttempts by {
      FetchedIsOk(w, cfg, url);
      ChainedVisit(w, cfg, url, vs, i);
    }
  }

  /** A pass is followed by another exactly when a retry is due and the context lets it. The
      status that decides may be one an earlier pass received. */
  lemma RetriedExactlyWhenDue(w: World, cfg: Limits, url: string, i: nat)
    requires i < |Fetched(w, cfg, url).visits|
    ensures var r := Fetched(w, cfg, url);
            && (i + 1 < |r.visits| <==> RetryDue(cfg, r.visits, i) && QuietAfter(w, cfg, i + 1))
            && (!IsContext(r.err) ==> (i + 1 < |r.visits| <==> RetryDue(cfg, r.visits, i)))
  {
    if i + 1 < |Fetched(w, cfg, url).visits| {
      FollowedIsDue(w, cfg, url, i);
    } else {
      LastIsNotDue(w, cfg, url);
    }
  }

  /** A blocked pass, its lookup not timed out, is not always final: it is retried exactly
      when it was blocked before sending anything and the passes before it left a transient
      status (attempts remaining, context quiet). On a first attempt it is final. */
  lemma BlockedIsRetriedIff(w: World, cfg: Limits, url: string, i: nat)
    requires i < |Fetched(w, cfg, url).visits|
    requires Fetched(w, cfg, url).visits[i].err == Some(Unresolvable(false))
    ensures var vs := Fetched(w, cfg, url).visits;
            i + 1 < |vs| <==>
              && i + 1 < cfg.maxAttempts && QuietAfter(w, cfg, i + 1)
              && vs[i].sent == [] && Transient(StatusAfter(vs, i))
    ensures i == 0 ==> |Fetched(w, cfg, url).visits| == 1
  {
    RetriedExactlyWhenDue(w, cfg, url, i);
    PassFacts(w, cfg, url, i);
    var vs := Fetched(w, cfg, url).visits;
    if vs[i].sent == [] {
      assert vs[i].rec.status == RecordAfter(vs[..i]).status;
    }
    assert vs[..0] == [];
  }

  /** An error status is retried exactly when it is 429 or 502 to 504 (attempts remaining,
      context quiet). Any other, 500 included, ends the fetch with that pass as http-error,
      unless the caller canceled it right then. */
  lemma ErrorStatusIsRetriedIff(w: World, cfg: Limits, url: string, i: nat)
    requires i < |Fetched(w, cfg, url).visits|
    requires var e := Fetched(w, cfg, url).visits[i].err; e.Some? && e.value.Upstream?
    ensures var r := Fetched(w, cfg, url);
            var s := r.visits[i].err.value.status;
            && (i + 1 < |r.visits| <==>
                  i + 1 < cfg.maxAttempts && QuietAfter(w, cfg, i + 1) && Transient(s))
            && (!Transient(s) ==>
                  && i + 1 == |r.visits| && r.rec.status == s
                  && if w.after(i + 1) == Some(Canceled)
                     then r.err == Some(ContextError(Canceled)) && r.rec.outcome == Timeout
                     else r.err == Some(Upstream(s)) && r.rec.outcome == HttpError)
  {
    RetriedExactlyWhenDue(w, cfg, url, i);
    PassFacts(w, cfg, url, i);
    FetchedIsOk(w, cfg, url);
    var r := Fetched(w, cfg, url);
    var s := r.visits[i].err.value.status;
    if !Transient(s) {
      assert r.visits[i].rec.status == s;
      GivesUpAfterLast(w, cfg, url);
    }
  }

  /** How the run ends once its last pass failed for good. */
  predicate GaveUp(w: World, r: Run) {
    r.visits != [] ==>
      var n := |r.visits|;
      var v := r.visits[n - 1];
      v.err.Some? && !ShouldRetry(v.rec.status, v.err.value) ==>
        r.err == if w.after(n) == Some(Canceled) then Some(ContextError(Canceled)) else v.err
  }

  lemma {:induction false} RetryGivesUp(w: World, cfg: Limits, url: string, attempt: nat, rec: Record,
                                        last: Option<FetchError>, visits: seq<Visit>, slept: seq<int>)
    requires attempt == |visits| + 1 && (visits != [] ==> Retried(visits[|visits| - 1]))
    ensures GaveUp(w, Retry(w, cfg, url, attempt, rec, last, visits, slept))
    decreases cfg.maxAttempts + 1 - attempt, 1
  {
    if PassHappens(w, cfg, attempt) {
      var v := Walk(w, cfg, attempt, 0, url, rec.(attempts := attempt), []);
      RetryMakesPass(w, cfg, url, attempt, rec, last, visits, slept);
      AfterPassGivesUp(w, cfg, url, attempt, visits + [v], SleptBy(cfg, attempt, slept));
    } else {
      RetryEnds(w, cfg, url, attempt, rec, last, visits, slept);
    }
  }

  lemma {:induction false} AfterPassGivesUp(w: World, cfg: Limits, url: string, attempt: nat,
                                            visits: seq<Visit>, slept: seq<int>)
    requires attempt == |visits| && 1 <= attempt <= cfg.maxAttempts
    ensures GaveUp(w, AfterPass(w, cfg, url, attempt, visits, slept))
    decreases cfg.maxAttempts + 1 - attempt, 0
  {
    var v := visits[attempt - 1];
    if w.after(attempt) != Some(Canceled) && v.err.Some? && ShouldRetry(v.rec.status, v.err.value) {
      RetryGivesUp(w, cfg, url, attempt + 1, v.rec, v.err, visits, slept);
    }
  }

  lemma GivesUpAfterLast(w: World, cfg: Limits, url: string)
    ensures GaveUp(w, Fetched(w, cfg, url))
  {
    if w.entry.None? {
      RetryGivesUp(w, cfg, url, 1, FRESH, None, [], []);
    }
  }

  // ---- the runs the documentation does not expect ----------------------------------------

  /** A 503 reply, then a blocked target, then a good reply. */
  function TransientThenBlock(): World {
    QuietWorld((n: nat, h: nat) =>
      if n == 1 then Replies(503, "", "", false) else if n == 2 then LookupFails(false) else Replies(200, "", "", false))
  }

  /** A non-public target is refused at once on a first attempt, yet retried after a 503:
      here the third attempt succeeds. */
  lemma BlockAfterTransientIsRetried(url: string)
    ensures var r := Fetched(TransientThenBlock(), DEFAULTS, url);
            && r.rec.outcome == Success && |r.visits| == 3
            && r.visits[1].rec.outcome == BlockedTarget && r.visits[1].err == Some(Unresolvable(false))
  {
    var w := TransientThenBlock();
    var v1 := Walk(w, DEFAULTS, 1, 0, url, FRESH.(attempts := 1), []);
    assert v1.err == Some(Upstream(503));
    RetryMakesPass(w, DEFAULTS, url, 1, FRESH, None, [], []);
    var v2 := Walk(w, DEFAULTS, 2, 0, url, v1.rec.(attempts := 2), []);
    assert v2.err == Some(Unresolvable(false)) && v2.rec.status == 503;
    RetryMakesPass(w, DEFAULTS, url, 2, v1.rec, v1.err, [] + [v1], []);
    var slept := SleptBy(DEFAULTS, 2, []);
    var v3 := Walk(w, DEFAULTS, 3, 0, url, v2.rec.(attempts := 3), []);
    assert v3.err.None?;
    RetryMakesPass(w, DEFAULTS, url, 3, v2.rec, v2.err, [] + [v1] + [v2], slept);
  }

  /** A server that always answers 500. */
  function ServerError(): World {
    QuietWorld((n: nat, h: nat) => Replies(500, "", "", false))
  }

  /** A 500 reply ends the fetch on its first attempt, with attempts to spare. */
  lemma ServerErrorIsNotRetried(url: string)
    ensures var r := Fetched(ServerError(), DEFAULTS, url);
            r.rec.outcome == HttpError && r.rec.status == 500 && r.rec.attempts == 1 < DEFAULTS.maxAttempts
  {
    var w := ServerError();
    var v := Walk(w, DEFAULTS, 1, 0, url, FRESH.(attempts := 1), []);
    assert v.err == Some(Upstream(500));
    RetryMakesPass(w, DEFAULTS, url, 1, FRESH, None, [], []);
  }
}
