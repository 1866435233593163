/** Whole runs of the retry loop: every one is a chain of legal passes, and the passes decide
    how it ends. */
module FetchRuns {
  import opened Options
  import opened FetchModel
  import opened FetchFacts
  import Backoff

  /** The record a pass starts from: whatever the passes before it left, renumbered. */
  function RecordAfter(visits: seq<Visit>): Record {
    if visits == [] then FRESH else visits[|visits| - 1].rec
  }

  predicate Retried(v: Visit) {
    v.err.Some? && ShouldRetry(v.rec.status, v.err.value)
  }

  /** Each pass is legal and starts where the one before ended; every pass but perhaps the
      last was retried. */
  predicate Chained(w: World, cfg: Limits, url: string, visits: seq<Visit>) {
    visits != [] ==>
      var init, v := visits[..|visits| - 1], visits[|visits| - 1];
      && Chained(w, cfg, url, init)
      && (init != [] ==> Retried(init[|init| - 1]))
      && VisitOk(w, cfg, url, RecordAfter(init).(attempts := |visits|), v)
  }

  /** How a run ends, given its passes. */
  predicate Ended(cfg: Limits, r: Run) {
    var left := RecordAfter(r.visits);
    && r.rec.status == left.status && r.rec.chain == left.chain && r.rec.content == left.content
    && match r.err
       case None =>
         r.visits != [] && r.visits[|r.visits| - 1].err.None? && r.rec == left
       case Some(e) =>
         if e.ContextError? then r.rec.outcome == Timeout
         else
           && r.visits != [] && r.visits[|r.visits| - 1].err == r.err
           && (if ShouldRetry(left.status, e)
               then |r.visits| == cfg.maxAttempts
                    && r.rec.outcome == (if IsTimeoutErr(e) then Timeout else RetriedExhausted)
               else r.rec == left)
  }

  predicate RunOk(w: World, cfg: Limits, url: string, r: Run) {
    && |r.visits| <= cfg.maxAttempts && r.rec.attempts <= cfg.maxAttempts
    && Chained(w, cfg, url, r.visits)
    && Backoff.Slept(cfg.baseBackoff, |r.visits|, r.slept)
    && Ended(cfg, r)
    && (r.rec.attempts == |r.visits|
        || (r.rec.attempts == |r.visits| + 1 && r.err.Some? && r.err.value.ContextError?))
  }

  lemma SnocVisits(visits: seq<Visit>, v: Visit)
    ensures (visits + [v])[..|visits|] == visits && RecordAfter(visits + [v]) == v.rec
  {
  }

  /** Between attempts: the passes so far were all retried and `rec` is what they left. */
  predicate Between(w: World, cfg: Limits, url: string, rec: Record, last: Option<FetchError>,
                    visits: seq<Visit>, slept: seq<int>)
  {
    && |visits| <= cfg.maxAttempts
    && Chained(w, cfg, url, visits)
    && rec == RecordAfter(visits) && rec.attempts == |visits|
    && (visits != [] ==>
          Retried(visits[|visits| - 1]) && last == visits[|visits| - 1].err && !last.value.ContextError?)
    && Backoff.Slept(cfg.baseBackoff, |visits|, slept)
  }

  /** What the loop does once a pass is over. */
  function AfterPass(w: World, cfg: Limits, url: string, attempt: nat, visits: seq<Visit>, slept: seq<int>): Run
    requires attempt >= 1 && visits != []
  {
    var v := visits[|visits| - 1];
    if w.after(attempt) == Some(Canceled) then Stopped(v.rec, Canceled, visits, slept)
    else if v.err.None? then Run(v.rec, None, visits, slept)
    else if !ShouldRetry(v.rec.status, v.err.value) then
      Run(if v.rec.outcome == Unset then v.rec.Ends(OutcomeFromErr(v.err.value)) else v.rec, v.err, visits, slept)
    else Retry(w, cfg, url, attempt + 1, v.rec, v.err, visits, slept)
  }

  predicate PassHappens(w: World, cfg: Limits, attempt: nat) {
    attempt <= cfg.maxAttempts && w.before(attempt).None? && (attempt > 1 ==> w.wait(attempt).None?)
  }

  function SleptBy(cfg: Limits, attempt: nat, slept: seq<int>): seq<int>
    requires attempt >= 1
  {
    if attempt > 1 then slept + [Backoff.Delay64(cfg.baseBackoff, attempt)] else slept
  }

  lemma RetryMakesPass(w: World, cfg: Limits, url: string, attempt: nat, rec: Record,
                       last: Option<FetchError>, visits: seq<Visit>, slept: seq<int>)
    requires attempt >= 1 && PassHappens(w, cfg, attempt)
    ensures var v := Walk(w, cfg, attempt, 0, url, rec.(attempts := attempt), []);
            Retry(w, cfg, url, attempt, rec, last, visits, slept)
              == AfterPass(w, cfg, url, attempt, visits + [v], SleptBy(cfg, attempt, slept))
  {
    var v := Walk(w, cfg, attempt, 0, url, rec.(attempts := attempt), []);
    SnocVisits(visits, v);
  }

  lemma NextSleep(cfg: Limits, visits: seq<Visit>, slept: seq<int>)
    requires Backoff.Slept(cfg.baseBackoff, |visits|, slept)
    ensures Backoff.Slept(cfg.baseBackoff, |visits| + 1, SleptBy(cfg, |visits| + 1, slept))
  {
  }

  lemma ChainedSnoc(w: World, cfg: Limits, url: string, visits: seq<Visit>, v: Visit)
    requires Chained(w, cfg, url, visits) && (visits != [] ==> Retried(visits[|visits| - 1]))
    requires VisitOk(w, cfg, url, RecordAfter(visits).(attempts := |visits| + 1), v)
    ensures Chained(w, cfg, url, visits + [v])
  {
    SnocVisits(visits, v);
  }

  /** One more pass extends a legal history. */
  lemma PassIsOk(w: World, cfg: Limits, url: string, rec: Record, last: Option<FetchError>,
                 visits: seq<Visit>, slept: seq<int>, attempt: nat)
    returns (v: Visit)
    requires Between(w, cfg, url, rec, last, visits, slept)
    requires attempt == |visits| + 1 <= cfg.maxAttempts
    ensures v == Walk(w, cfg, attempt, 0, url, rec.(attempts := attempt), [])
    ensures Chained(w, cfg, url, visits + [v])
    ensures v.rec.attempts == attempt && (v.err.Some? ==> !v.err.value.ContextError?)
  {
    var numbered := rec.(attempts := attempt);
    v := Walk(w, cfg, attempt, 0, url, numbered, []);
    assert numbered.chain + Redirects([]) == numbered.chain;
    WalkIsOk(w, cfg, attempt, 0, url, numbered, [], url, numbered);
    ChainedSnoc(w, cfg, url, visits, v);
  }

  /** The loop ends before another pass: attempts are used up or the context is done. */
  lemma NoPassIsOk(w: World, cfg: Limits, url: string, attempt: nat, rec: Record,
                   last: Option<FetchError>, visits: seq<Visit>, slept: seq<int>)
    requires attempt == |visits| + 1
    requires Between(w, cfg, url, rec, last, visits, slept)
    requires !PassHappens(w, cfg, attempt)
    ensures RunOk(w, cfg, url, Retry(w, cfg, url, attempt, rec, last, visits, slept))
  {
    var r := Retry(w, cfg, url, attempt, rec, last, visits, slept);
    assert r.visits == visits && r.slept == slept;
    if attempt > cfg.maxAttempts {
      assert visits != [] && r.err == last;
    } else {
      assert r.err.value.ContextError? && r.rec.attempts == attempt;
    }
  }

  /** Every run of the retry loop is as RunOk says. */
  lemma {:induction false} RetryIsOk(w: World, cfg: Limits, url: string, attempt: nat, rec: Record,
                                     last: Option<FetchError>, visits: seq<Visit>, slept: seq<int>)
    requires attempt == |visits| + 1
    requires Between(w, cfg, url, rec, last, visits, slept)
    ensures RunOk(w, cfg, url, Retry(w, cfg, url, attempt, rec, last, visits, slept))
    decreases cfg.maxAttempts + 1 - attempt, 1
  {
    if PassHappens(w, cfg, attempt) {
      var v := PassIsOk(w, cfg, url, rec, last, visits, slept, attempt);
      NextSleep(cfg, visits, slept);
      AfterPassIsOk(w, cfg, url, attempt, visits, v, SleptBy(cfg, attempt, slept));
      RetryMakesPass(w, cfg, url, attempt, rec, last, visits, slept);
    } else {
      NoPassIsOk(w, cfg, url, attempt, rec, last, visits, slept);
    }
  }

  lemma {:induction false} AfterPassIsOk(w: World, cfg: Limits, url: string, attempt: nat,
                                         visits: seq<Visit>, v: Visit, slept: seq<int>)
    requires attempt == |visits| + 1 == v.rec.attempts && attempt <= cfg.maxAttempts
    requires Chained(w, cfg, url, visits + [v]) && (v.err.Some? ==> !v.err.value.ContextError?)
    requires Backoff.Slept(cfg.baseBackoff, attempt, slept)
    ensures RunOk(w, cfg, url, AfterPass(w, cfg, url, attempt, visits + [v], slept))
    decreases cfg.maxAttempts + 1 - attempt, 0
  {
    SnocVisits(visits, v);
    if w.after(attempt) == Some(Canceled) {
      PassCanceled(w, cfg, url, visits, v, slept);
    } else if v.err.None? {
      PassSucceeded(w, cfg, url, visits, v, slept);
    } else if !ShouldRetry(v.rec.status, v.err.value) {
      PassGaveUp(w, cfg, url, visits, v, slept);
    } else {
      PassRetried(w, cfg, url, visits, v, slept);
      RetryIsOk(w, cfg, url, attempt + 1, v.rec, v.err, visits + [v], slept);
    }
  }

  lemma PassCanceled(w: World, cfg: Limits, url: string, visits: seq<Visit>, v: Visit, slept: seq<int>)
    requires Chained(w, cfg, url, visits + [v]) && |visits| < cfg.maxAttempts
    requires v.rec.attempts == |visits| + 1 && Backoff.Slept(cfg.baseBackoff, |visits| + 1, slept)
    ensures RunOk(w, cfg, url, Stopped(v.rec, Canceled, visits + [v], slept))
  {
    SnocVisits(visits, v);
  }

  lemma PassRetried(w: World, cfg: Limits, url: string, visits: seq<Visit>, v: Visit, slept: seq<int>)
    requires Chained(w, cfg, url, visits + [v]) && |visits| < cfg.maxAttempts
    requires Retried(v) && !v.err.value.ContextError?
    requires v.rec.attempts == |visits| + 1 && Backoff.Slept(cfg.baseBackoff, |visits| + 1, slept)
    ensures Between(w, cfg, url, v.rec, v.err, visits + [v], slept)
  {
    SnocVisits(visits, v);
  }

  lemma PassSucceeded(w: World, cfg: Limits, url: string, visits: seq<Visit>, v: Visit, slept: seq<int>)
    requires Chained(w, cfg, url, visits + [v]) && |visits| < cfg.maxAttempts
    requires v.err.None? && v.rec.attempts == |visits| + 1
    requires Backoff.Slept(cfg.baseBackoff, |visits| + 1, slept)
    ensures RunOk(w, cfg, url, Run(v.rec, None, visits + [v], slept))
  {
    SnocVisits(visits, v);
  }

  /** A pass that is not retried already carries its outcome, so the fallback never applies. */
  lemma PassGaveUp(w: World, cfg: Limits, url: string, visits: seq<Visit>, v: Visit, slept: seq<int>)
    requires Chained(w, cfg, url, visits + [v]) && |visits| < cfg.maxAttempts
    requires v.err.Some? && v.rec.attempts == |visits| + 1 && !ShouldRetry(v.rec.status, v.err.value)
    requires Backoff.Slept(cfg.baseBackoff, |visits| + 1, slept)
    ensures v.rec.outcome != Unset
    ensures RunOk(w, cfg, url, Run(v.rec, v.err, visits + [v], slept))
  {
    SnocVisits(visits, v);
    assert VisitOk(w, cfg, url, RecordAfter(visits).(attempts := |visits| + 1), v);
  }

  lemma FetchedIsOk(w: World, cfg: Limits, url: string)
    ensures RunOk(w, cfg, url, Fetched(w, cfg, url))
  {
    if w.entry.None? {
      RetryIsOk(w, cfg, url, 1, FRESH, None, [], []);
    }
  }
}
