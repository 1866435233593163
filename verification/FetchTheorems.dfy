/** The promises of the fetch engine's wire contract, over every world and every
    configuration, with concrete runs for the documented ones that fail. */
module FetchTheorems {
  import opened Options
  import opened FetchModel
  import opened FetchFacts
  import opened FetchRuns
  import Backoff

  // ---- the outcome taxonomy --------------------------------------------------------------

  /** The outcome is a function of the returned error and the status alone. */
  function Taxonomy(err: Option<FetchError>, status: int): Outcome {
    match err
    case None => Success
    case Some(e) =>
      if e.ContextError? || IsTimeoutErr(e) then Timeout
      else if Transient(status) then RetriedExhausted
      else OutcomeOf(e)
  }

  lemma OutcomeFollowsTaxonomy(w: World, cfg: Limits, url: string)
    ensures var r := Fetched(w, cfg, url); r.rec.outcome == Taxonomy(r.err, r.rec.status)
    ensures var o := Fetched(w, cfg, url).rec.outcome; o != Unset && o != BlockedRedirect
  {
    FetchedIsOk(w, cfg, url);
    var r := Fetched(w, cfg, url);
    if r.visits != [] {
      assert VisitOk(w, cfg, url, RecordAfter(r.visits[..|r.visits| - 1]).(attempts := |r.visits|),
                     r.visits[|r.visits| - 1]);
    }
  }

  /** A nil error means success, with a 2xx status and the last reply's bounded body. */
  lemma SuccessMeansBody(w: World, cfg: Limits, url: string)
    ensures var r := Fetched(w, cfg, url);
            && (r.err.None? <==> r.rec.outcome == Success)
            && (r.err.None? ==>
                  && r.visits != [] && r.rec.attempts == |r.visits|
                  && var sent := r.visits[|r.visits| - 1].sent;
                     && sent != []
                     && sent[|sent| - 1].answer.Replies?
                     && r.rec.status == sent[|sent| - 1].answer.status
                     && 200 <= r.rec.status < 300
                     && r.rec.content == sent[|sent| - 1].answer.body
                     && |r.rec.content| <= MAX_BODY)
  {
    FetchedIsOk(w, cfg, url);
    OutcomeFollowsTaxonomy(w, cfg, url);
    var r := Fetched(w, cfg, url);
    if r.visits != [] {
      assert VisitOk(w, cfg, url, RecordAfter(r.visits[..|r.visits| - 1]).(attempts := |r.visits|),
                     r.visits[|r.visits| - 1]);
    }
  }

  /** What each failing outcome says about the status and the work done. */
  lemma FailureMeanings(w: World, cfg: Limits, url: string)
    ensures var r := Fetched(w, cfg, url);
            && (r.rec.outcome == HttpError ==> r.rec.status >= 400 && !Transient(r.rec.status))
            && (r.rec.outcome == RetriedExhausted ==>
                  Transient(r.rec.status) && r.rec.attempts == cfg.maxAttempts == |r.visits|)
            && (r.rec.outcome == TooManyRedirects ==>
                  && 300 <= r.rec.status < 400
                  && r.visits != []
                  && |r.visits[|r.visits| - 1].sent| == cfg.maxRedirects + 1)
            && (r.rec.outcome == Timeout <==>
                  r.err.Some? && (r.err.value.ContextError? || IsTimeoutErr(r.err.value)))
  {
    FetchedIsOk(w, cfg, url);
    OutcomeFollowsTaxonomy(w, cfg, url);
    var r := Fetched(w, cfg, url);
    if r.visits != [] {
      assert VisitOk(w, cfg, url, RecordAfter(r.visits[..|r.visits| - 1]).(attempts := |r.visits|),
                     r.visits[|r.visits| - 1]);
    }
  }

  // ---- status, chain and work of a whole run ---------------------------------------------

  function AllSent(visits: seq<Visit>): seq<Exchange> {
    if visits == [] then [] else AllSent(visits[..|visits| - 1]) + visits[|visits| - 1].sent
  }

  function AllRedirects(visits: seq<Visit>): seq<string> {
    if visits == [] then [] else AllRedirects(visits[..|visits| - 1]) + Redirects(visits[|visits| - 1].sent)
  }

  lemma {:induction false} LastStatusConcat(before: int, a: seq<Exchange>, b: seq<Exchange>)
    ensures LastStatus(before, a + b) == LastStatus(LastStatus(before, a), b)
  {
    if b == [] {
      assert a + b == a;
    } else {
      var b' := b[..|b| - 1];
      LastStatusConcat(before, a, b');
      assert (a + b)[..|a + b| - 1] == a + b';
    }
  }

  /** Status and chain are carried across attempts, never reset. */
  lemma {:induction false} HistoryCarries(w: World, cfg: Limits, url: string, visits: seq<Visit>)
    requires Chained(w, cfg, url, visits)
    ensures RecordAfter(visits).status == LastStatus(0, AllSent(visits))
    ensures RecordAfter(visits).chain == AllRedirects(visits)
  {
    if visits != [] {
      var init, v := visits[..|visits| - 1], visits[|visits| - 1];
      HistoryCarries(w, cfg, url, init);
      assert VisitOk(w, cfg, url, RecordAfter(init).(attempts := |visits|), v);
      LastStatusConcat(0, AllSent(init), v.sent);
    }
  }

  lemma MultipleStep(n: nat, c: nat)
    ensures (n + 1) * c == n * c + c
  {
  }

  /** A retried pass records at most maxRedirects redirects; only a last one can record one more. */
  lemma {:induction false} HistoryIsBounded(w: World, cfg: Limits, url: string, visits: seq<Visit>)
    requires Chained(w, cfg, url, visits)
    ensures |AllSent(visits)| <= |visits| * (cfg.maxRedirects + 1)
    ensures |AllRedirects(visits)| <= |visits| * cfg.maxRedirects + 1
    ensures visits != [] && visits[|visits| - 1].err != Some(RedirectLimit) ==>
              |AllRedirects(visits)| <= |visits| * cfg.maxRedirects
  {
    if visits != [] {
      var init, v := visits[..|visits| - 1], visits[|visits| - 1];
      HistoryIsBounded(w, cfg, url, init);
      assert VisitOk(w, cfg, url, RecordAfter(init).(attempts := |visits|), v);
      MultipleStep(|init|, cfg.maxRedirects);
      MultipleStep(|init|, cfg.maxRedirects + 1);
      if init != [] {
        RetriedIsNotRedirectLimit(w, cfg, url, init);
      }
    }
  }

  /** Running out of redirects leaves a 3xx status behind, so that pass is never retried. */
  lemma RetriedIsNotRedirectLimit(w: World, cfg: Limits, url: string, visits: seq<Visit>)
    requires Chained(w, cfg, url, visits) && visits != [] && Retried(visits[|visits| - 1])
    ensures visits[|visits| - 1].err != Some(RedirectLimit)
  {
    var v := visits[|visits| - 1];
    assert VisitOk(w, cfg, url, RecordAfter(visits[..|visits| - 1]).(attempts := |visits|), v);
  }

  /** No exchange got as far as a status line. */
  predicate NoneReceived(sent: seq<Exchange>) {
    forall i :: 0 <= i < |sent| ==> !GotStatus(sent[i].answer)
  }

  predicate RealStatuses(sent: seq<Exchange>) {
    forall i :: 0 <= i < |sent| && GotStatus(sent[i].answer) ==> sent[i].answer.status != 0
  }

  lemma {:induction false} ZeroMeansNone(sent: seq<Exchange>)
    requires RealStatuses(sent)
    ensures LastStatus(0, sent) == 0 <==> NoneReceived(sent)
  {
    if sent != [] {
      var init := sent[..|sent| - 1];
      ZeroMeansNone(init);
      assert NoneReceived(sent) <==> NoneReceived(init) && !GotStatus(sent[|init|].answer);
    }
  }

  /** Status is the last one received anywhere in the run. So it is 0 exactly when no reply
      was received in any attempt, and not merely when the last attempt received none. */
  lemma StatusIsLastReceived(w: World, cfg: Limits, url: string)
    ensures var r := Fetched(w, cfg, url);
            && r.rec.status == LastStatus(0, AllSent(r.visits))
            && (RealStatuses(AllSent(r.visits)) ==> (r.rec.status == 0 <==> NoneReceived(AllSent(r.visits))))
  {
    FetchedIsOk(w, cfg, url);
    var r := Fetched(w, cfg, url);
    HistoryCarries(w, cfg, url, r.visits);
    if RealStatuses(AllSent(r.visits)) {
      ZeroMeansNone(AllSent(r.visits));
    }
  }

  /** The nested loops send at most attempts times (redirects + 1) requests, and the chain,
      which no attempt resets, is the passes' redirects end to end. */
  lemma WorkIsBounded(w: World, cfg: Limits, url: string)
    ensures var r := Fetched(w, cfg, url);
            && r.rec.chain == AllRedirects(r.visits)
            && |r.visits| <= cfg.maxAttempts
            && |AllSent(r.visits)| <= cfg.maxAttempts * (cfg.maxRedirects + 1)
            && |r.rec.chain| <= cfg.maxAttempts * cfg.maxRedirects + 1
            && (r.rec.attempts == |r.visits| || r.rec.attempts == |r.visits| + 1)
            && r.rec.attempts <= cfg.maxAttempts
  {
    FetchedIsOk(w, cfg, url);
    var r := Fetched(w, cfg, url);
    HistoryCarries(w, cfg, url, r.visits);
    HistoryIsBounded(w, cfg, url, r.visits);
    ProductMonotone(|r.visits|, cfg.maxAttempts, cfg.maxRedirects + 1);
    ProductMonotone(|r.visits|, cfg.maxAttempts, cfg.maxRedirects);
  }

  lemma ProductMonotone(a: nat, b: nat, c: nat)
    requires a <= b
    ensures a * c <= b * c
  {
  }

  lemma {:induction false} ChainedVisit(w: World, cfg: Limits, url: string, visits: seq<Visit>, i: nat)
    requires Chained(w, cfg, url, visits) && i < |visits|
    ensures Walked(w, url, visits[i].sent)
    ensures i < |visits| - 1 ==> Retried(visits[i])
    ensures VisitOk(w, cfg, url, RecordAfter(visits[..i]).(attempts := i + 1), visits[i])
  {
    if i < |visits| - 1 {
      ChainedVisit(w, cfg, url, visits[..|visits| - 1], i);
      assert visits[..|visits| - 1][..i] == visits[..i];
    }
  }

  // ---- content and sleeps -----------------------------------------------------------------

  /** Content is only ever a successful pass's body, and a run that reports it without
      succeeding was cancelled just after that pass. */
  lemma ContentOnlyFromSuccess(w: World, cfg: Limits, url: string)
    ensures var r := Fetched(w, cfg, url);
            r.rec.content != "" ==>
              && r.visits != [] && r.visits[|r.visits| - 1].err.None?
              && (r.rec.outcome == Success || r.err == Some(ContextError(Canceled)))
  {
    FetchedIsOk(w, cfg, url);
    OutcomeFollowsTaxonomy(w, cfg, url);
    var r := Fetched(w, cfg, url);
    NoContentWhileRetrying(w, cfg, url, r.visits);
    if w.entry.None? && r.visits != [] && r.visits[|r.visits| - 1].err.None? {
      SuccessThenContext(w, cfg, url, 1, FRESH, None, [], []);
    }
  }

  lemma {:induction false} NoContentWhileRetrying(w: World, cfg: Limits, url: string, visits: seq<Visit>)
    requires Chained(w, cfg, url, visits)
    ensures visits == [] || visits[|visits| - 1].err.Some? ==> RecordAfter(visits).content == ""
  {
    if visits != [] {
      NoContentWhileRetrying(w, cfg, url, visits[..|visits| - 1]);
      ChainedVisit(w, cfg, url, visits, |visits| - 1);
    }
  }

  predicate EndsWithSuccess(r: Run) {
    r.visits != [] && r.visits[|r.visits| - 1].err.None? ==> r.err.None? || r.err == Some(ContextError(Canceled))
  }

  /** Once a pass succeeds the loop ends with it, unless the context was canceled. */
  lemma {:induction false} SuccessThenContext(w: World, cfg: Limits, url: string, attempt: nat, rec: Record,
                                              last: Option<FetchError>, visits: seq<Visit>, slept: seq<int>)
    requires attempt >= 1
    requires visits != [] ==> visits[|visits| - 1].err.Some?
    ensures EndsWithSuccess(Retry(w, cfg, url, attempt, rec, last, visits, slept))
    decreases cfg.maxAttempts + 1 - attempt, 1
  {
    if PassHappens(w, cfg, attempt) {
      var v := Walk(w, cfg, attempt, 0, url, rec.(attempts := attempt), []);
      RetryMakesPass(w, cfg, url, attempt, rec, last, visits, slept);
      AfterPassSucceeds(w, cfg, url, attempt, visits + [v], SleptBy(cfg, attempt, slept));
    }
  }

  lemma {:induction false} AfterPassSucceeds(w: World, cfg: Limits, url: string, attempt: nat,
                                             visits: seq<Visit>, slept: seq<int>)
    requires 1 <= attempt <= cfg.maxAttempts && visits != []
    ensures EndsWithSuccess(AfterPass(w, cfg, url, attempt, visits, slept))
    decreases cfg.maxAttempts + 1 - attempt, 0
  {
    var v := visits[|visits| - 1];
    if w.after(attempt) != Some(Canceled) && v.err.Some? && ShouldRetry(v.rec.status, v.err.value) {
      SuccessThenContext(w, cfg, url, attempt + 1, v.rec, v.err, visits, slept);
    }
  }

  /** The sleeps of a run that made n passes add up to (2^n - 2) bases, plus half a base for
      even n, while the last delay fits 64 bits. */
  lemma TotalSleep(w: World, cfg: Limits, url: string)
    requires var n := |Fetched(w, cfg, url).visits|; n >= 2 ==> Backoff.Schedule(cfg.baseBackoff, n) < Backoff.TWO63
    ensures var r := Fetched(w, cfg, url);
            r.visits != [] ==> Backoff.Sum(r.slept) == Backoff.ClosedForm(cfg.baseBackoff, |r.visits|)
  {
    FetchedIsOk(w, cfg, url);
    var r := Fetched(w, cfg, url);
    if r.visits != [] {
      Backoff.TotalBackoff(cfg.baseBackoff, |r.visits|, r.slept);
    }
  }

  // ---- documented promises that fail -----------------------------------------------------

  const DEFAULTS: Limits := Config(30000, 5, 3, 200_000_000)

  function QuietWorld(hop: (nat, nat) -> Answer): World {
    World((u: string) => true, (p: string, l: string) => None, None,
          (n: nat) => None, (n: nat) => None, (n: nat) => None, hop)
  }

  /** A timeout while reading a 200 reply, then a blocked target. */
  function TimeoutThenBlock(): World {
    QuietWorld((n: nat, h: nat) => if n == 1 then ReadFails(200, true) else LookupFails(false))
  }

  /** The status field is documented as zero when a target is blocked; a status received by
      an earlier attempt is still there. StatusIsLastReceived says what it is instead. */
  lemma BlockedKeepsOldStatus(url: string)
    ensures var r := Fetched(TimeoutThenBlock(), DEFAULTS, url);
            r.rec.outcome == BlockedTarget && r.rec.status == 200 && r.rec.attempts == 2
  {
    var w := TimeoutThenBlock();
    var v1 := Walk(w, DEFAULTS, 1, 0, url, FRESH.(attempts := 1), []);
    assert v1.err == Some(BodyRead(true)) && v1.rec.status == 200;
    RetryMakesPass(w, DEFAULTS, url, 1, FRESH, None, [], []);
    var v2 := Walk(w, DEFAULTS, 2, 0, url, v1.rec.(attempts := 2), []);
    assert v2.err == Some(Unresolvable(false)) && v2.rec.status == 200;
    RetryMakesPass(w, DEFAULTS, url, 2, v1.rec, v1.err, [] + [v1], []);
  }
}
