/** Why a fetch failed, as far as its warnings tell: which failing runs end with a warning
    that names their error, and the one kind that does not. */
module FetchWarnings {
  import opened Options
  import opened FetchModel
  import opened FetchFacts
  import opened FetchRuns
  import opened FetchTheorems

  /** The warning a pass writes about the error it returns. */
  predicate Explains(w: Warning, e: FetchError) {
    match e
    case ContextError(c) => w == Interrupted(c)
    case InvalidUrl => w.BadUrlAtHop?
    case Unresolvable(_) => w.BlockedAtHop?
    case UnbuildableRequest => w == RequestNotBuilt
    case Transport(_) => w == RequestFailed
    case BodyRead(_) => w == BodyNotRead
    case BodyTooLarge => w == Oversize
    case RedirectLimit => w.ChainExceeded?
    case InvalidLocation => w == BadLocation
    case Upstream(s) => w == UpstreamStatus(s)
    case UnexpectedStatus(s) => w == StrangeStatus(s)
  }

  predicate LastExplains(ws: seq<Warning>, e: FetchError) {
    ws != [] && Explains(ws[|ws| - 1], e)
  }

  /** The requests ended on a 3xx reply that names no Location. */
  predicate EndsNowhere(sent: seq<Exchange>) {
    sent != [] && !Redirecting(sent[|sent| - 1].answer)
  }

  predicate NoLimitWarning(ws: seq<Warning>) { forall x :: x in ws ==> !x.ChainExceeded? }

  /** The redirect budget ran out on a reply without Location: the loop falls off its end. */
  predicate Silent(v: Visit) { v.err == Some(RedirectLimit) && EndsNowhere(v.sent) }

  /** What one pass leaves in the warnings. */
  predicate PassWarned(v: Visit) {
    && (v.err.Some? && !Silent(v) ==> LastExplains(v.rec.warnings, v.err.value))
    && (v.err != Some(RedirectLimit) || Silent(v) ==> NoLimitWarning(v.rec.warnings))
  }

  lemma {:induction false} WalkWarns(w: World, cfg: Limits, attempt: nat, hop: nat, current: string,
                                     rec: Record, sent: seq<Exchange>)
    requires NoLimitWarning(rec.warnings)
    requires hop > cfg.maxRedirects ==> EndsNowhere(sent)
    ensures PassWarned(Walk(w, cfg, attempt, hop, current, rec, sent))
    decreases cfg.maxRedirects + 1 - hop
  {
    var a := w.hop(attempt, hop);
    if GoesOn(w, cfg, hop, current, a) {
      var e := Exchange(current, a);
      var got := Received(rec, a.status, a.closeFails);
      var next, rec' := current, got;
      if a.location != "" {
        next := ResolveRedirect(w, current, a.location).value;
        rec' := got.(chain := got.chain + [current]);
      }
      SnocFacts(sent, e);
      WalkWarns(w, cfg, attempt, hop + 1, next, rec', sent + [e]);
      WalkGoesOn(w, cfg, attempt, hop, current, next, rec, rec', sent);
    } else {
      StopWarns(w, cfg, attempt, hop, current, rec, sent);
    }
  }

  lemma StopWarns(w: World, cfg: Limits, attempt: nat, hop: nat, current: string, rec: Record, sent: seq<Exchange>)
    requires NoLimitWarning(rec.warnings) && !GoesOn(w, cfg, hop, current, w.hop(attempt, hop))
    requires hop > cfg.maxRedirects ==> EndsNowhere(sent)
    ensures PassWarned(Walk(w, cfg, attempt, hop, current, rec, sent))
  {
    SnocFacts(sent, Exchange(current, w.hop(attempt, hop)));
  }

  /** What a whole run leaves: a failure is explained by its last warning, unless the run
      ended silently. Giving up on a transient failure adds one warning to the explained
      failure of the last pass, naming that failure and the attempts made. */
  predicate RunWarned(cfg: Limits, r: Run) {
    r.err.Some? ==>
      if r.rec.outcome == RetriedExhausted then
        var n := |r.rec.warnings|;
        && n >= 2 && r.rec.warnings[n - 1] == Exhausted(cfg.maxAttempts, r.err)
        && LastExplains(r.rec.warnings[..n - 1], r.err.value)
      else
        LastExplains(r.rec.warnings, r.err.value) <==>
          !(r.err == Some(RedirectLimit) && r.visits != [] && Silent(r.visits[|r.visits| - 1]))
  }

  lemma {:induction false} RetryWarns(w: World, cfg: Limits, url: string, attempt: nat, rec: Record,
                                      last: Option<FetchError>, visits: seq<Visit>, slept: seq<int>)
    requires attempt >= 1 && NoLimitWarning(rec.warnings)
    requires attempt > 1 ==> last.Some? && last != Some(RedirectLimit) && LastExplains(rec.warnings, last.value)
    ensures RunWarned(cfg, Retry(w, cfg, url, attempt, rec, last, visits, slept))
    decreases cfg.maxAttempts + 1 - attempt, 1
  {
    if PassHappens(w, cfg, attempt) {
      var numbered := rec.(attempts := attempt);
      var v := Walk(w, cfg, attempt, 0, url, numbered, []);
      WalkWarns(w, cfg, attempt, 0, url, numbered, []);
      RetryMakesPass(w, cfg, url, attempt, rec, last, visits, slept);
      PassNeverExhausts(w, cfg, attempt, url, numbered);
      AfterPassWarns(w, cfg, url, attempt, visits + [v], SleptBy(cfg, attempt, slept));
    }
  }

  lemma PassNeverExhausts(w: World, cfg: Limits, attempt: nat, url: string, rec: Record)
    ensures var v := Walk(w, cfg, attempt, 0, url, rec, []);
            && (v.err.Some? ==> v.rec.outcome == OutcomeOf(v.err.value) && v.rec.outcome != RetriedExhausted)
            && (v.err == Some(RedirectLimit) ==> !ShouldRetry(v.rec.status, v.err.value))
  {
    assert rec.chain + Redirects([]) == rec.chain;
    WalkIsOk(w, cfg, attempt, 0, url, rec, [], url, rec);
  }

  lemma {:induction false} AfterPassWarns(w: World, cfg: Limits, url: string, attempt: nat,
                                          visits: seq<Visit>, slept: seq<int>)
    requires 1 <= attempt <= cfg.maxAttempts && visits != []
    requires var v := visits[|visits| - 1];
             && PassWarned(v)
             && (v.err.Some? ==> v.rec.outcome == OutcomeOf(v.err.value) && v.rec.outcome != RetriedExhausted)
             && (v.err == Some(RedirectLimit) ==> !ShouldRetry(v.rec.status, v.err.value))
    ensures RunWarned(cfg, AfterPass(w, cfg, url, attempt, visits, slept))
    decreases cfg.maxAttempts + 1 - attempt, 0
  {
    var v := visits[|visits| - 1];
    if w.after(attempt) != Some(Canceled) && v.err.Some? && ShouldRetry(v.rec.status, v.err.value) {
      RetryWarns(w, cfg, url, attempt + 1, v.rec, v.err, visits, slept);
    } else if v.err.Some? && Silent(v) && v.rec.warnings != [] {
      assert v.rec.warnings[|v.rec.warnings| - 1] in v.rec.warnings;
    }
  }

  /** Every failing fetch says why in its last warning, except exactly those that used up
      their redirects on a reply without Location. */
  lemma FailuresAreExplainedUnlessSilent(w: World, cfg: Limits, url: string)
    ensures RunWarned(cfg, Fetched(w, cfg, url))
  {
    if w.entry.None? {
      RetryWarns(w, cfg, url, 1, FRESH, None, [], []);
    }
  }

  /** Such a fetch exists, and fails with no warning at all. */
  lemma SilentFailureExists(url: string)
    ensures var r := Fetched(QuietWorld((n: nat, h: nat) => Replies(302, "", "", false)), ONE_REDIRECT, url);
            r.rec.outcome == TooManyRedirects && r.rec.warnings == []
  {
    var w := QuietWorld((n: nat, h: nat) => Replies(302, "", "", false));
    RetryMakesPass(w, ONE_REDIRECT, url, 1, FRESH, None, [], []);
    var e := Exchange(url, Replies(302, "", "", false));
    var rec := FRESH.(attempts := 1);
    assert Walk(w, ONE_REDIRECT, 1, 1, url, rec.(status := 302), [e])
        == Walk(w, ONE_REDIRECT, 1, 2, url, rec.(status := 302), [e] + [e]);
    assert Walk(w, ONE_REDIRECT, 1, 0, url, rec, []) == Walk(w, ONE_REDIRECT, 1, 1, url, rec.(status := 302), [] + [e]);
  }

  const ONE_REDIRECT: Limits := Config(30000, 1, 3, 200_000_000)
}
