/** The fetcher as it runs: loops that update one shared response object, and a slot taken
    for the length of the call. Each method is proved against the functions of FetchModel. */
module FetchEngine {
  import opened Options
  import opened FetchModel
  import Backoff

  const MAX_CONCURRENT: nat := 8

  class FetchResponse {
    const url: string
    var status: int
    var outcome: Outcome
    var attempts: nat
    var redirectChain: seq<string>
    var warnings: seq<Warning>
    var content: string

    constructor (url: string)
      ensures View() == FRESH && this.url == url
    {
      this.url := url;
      status, outcome, attempts := 0, Unset, 0;
      redirectChain, warnings, content := [], [], "";
    }

    function View(): Record
      reads this
    {
      Record(status, outcome, attempts, redirectChain, warnings, content)
    }

    method Fail(o: Outcome, w: Warning)
      modifies this
      ensures View() == old(View()).Ends(o).Warn(w)
    {
      outcome := o;
      warnings := warnings + [w];
    }
  }

  class FetcherService {
    const cfg: Limits
    var slots: nat   // slots in use, out of MAX_CONCURRENT

    /** Zero and negative settings resolve to the defaults. */
    constructor (c: Config)
      requires c.baseBackoff < Backoff.TWO63
      ensures slots == 0
      ensures cfg.timeoutMs == (if c.timeoutMs <= 0 then 30000 else c.timeoutMs)
      ensures cfg.maxRedirects == (if c.maxRedirects <= 0 then 5 else c.maxRedirects)
      ensures cfg.maxAttempts == (if c.maxAttempts <= 0 then 3 else c.maxAttempts)
      ensures cfg.baseBackoff == (if c.baseBackoff <= 0 then 200_000_000 else c.baseBackoff)
    {
      cfg := Config(
        if c.timeoutMs <= 0 then 30000 else c.timeoutMs,
        if c.maxRedirects <= 0 then 5 else c.maxRedirects,
        if c.maxAttempts <= 0 then 3 else c.maxAttempts,
        if c.baseBackoff <= 0 then 200_000_000 else c.baseBackoff);
      slots := 0;
    }

    /** Runs the redirect loop on the shared response. */
    method ManualRedirectFetch(w: World, attempt: nat, rawURL: string, fr: FetchResponse)
      returns (err: Option<FetchError>, ghost sent: seq<Exchange>)
      modifies fr
      ensures Visit(fr.View(), err, sent) == old(Walk(w, cfg, attempt, 0, rawURL, fr.View(), []))
    {
      var current := rawURL;
      sent := [];
      var hop := 0;
      ghost var whole := Walk(w, cfg, attempt, 0, rawURL, fr.View(), []);
      while hop <= cfg.maxRedirects
        invariant 0 <= hop <= cfg.maxRedirects + 1
        invariant Walk(w, cfg, attempt, hop, current, fr.View(), sent) == whole
        decreases cfg.maxRedirects + 1 - hop
      {
        if !w.parses(current) {
          fr.Fail(NonTransientFailure, BadUrlAtHop(hop));
          return Some(InvalidUrl), sent;
        }
        var answer := w.hop(attempt, hop);
        if answer.LookupFails? {
          fr.Fail(BlockedTarget, BlockedAtHop(hop, current));
          return Some(Unresolvable(answer.timedOut)), sent;
        }
        if answer.BuildFails? {
          fr.Fail(NonTransientFailure, RequestNotBuilt);
          return Some(UnbuildableRequest), sent;
        }
        sent := sent + [Exchange(current, answer)];
        if answer.SendFails? {
          fr.Fail(if answer.timedOut then Timeout else TransportError, RequestFailed);
          return Some(Transport(answer.timedOut)), sent;
        }
        fr.status := answer.status;
        if answer.ReadFails? {
          fr.Fail(if answer.timedOut then Timeout else TransportError, BodyNotRead);
          return Some(BodyRead(answer.timedOut)), sent;
        }
        if answer.closeFails {
          fr.warnings := fr.warnings + [BodyNotClosed];
        }
        if |answer.body| > MAX_BODY {
          fr.Fail(NonTransientFailure, Oversize);
          return Some(BodyTooLarge), sent;
        }
        if IsRedirect(answer) {
          fr.redirectChain := fr.redirectChain + [current];
          if hop == cfg.maxRedirects {
            fr.Fail(TooManyRedirects, ChainExceeded(cfg.maxRedirects));
            return Some(RedirectLimit), sent;
          }
          var next := ResolveRedirect(w, current, answer.location);
          if next.None? {
            fr.Fail(NonTransientFailure, BadLocation);
            return Some(InvalidLocation), sent;
          }
          current := next.value;
          hop := hop + 1;
          continue;
        }
        if 200 <= answer.status < 300 {
          fr.outcome := Success;
          fr.content := answer.body;
          return None, sent;
        }
        if answer.status == 429 {
          fr.Fail(HttpError, UpstreamStatus(429));
          return Some(Upstream(429)), sent;
        }
        if answer.status >= 500 {
          fr.Fail(HttpError, UpstreamStatus(answer.status));
          return Some(Upstream(answer.status)), sent;
        }
        if answer.status >= 400 {
          fr.Fail(HttpError, UpstreamStatus(answer.status));
          return Some(Upstream(answer.status)), sent;
        }
        if answer.status < 200 {
          fr.Fail(NonTransientFailure, StrangeStatus(answer.status));
          return Some(UnexpectedStatus(answer.status)), sent;
        }
        hop := hop + 1;   // a 3xx without Location: ask the same URL again
      }
      fr.outcome := TooManyRedirects;
      err := Some(RedirectLimit);
    }

    /** Runs the retry loop on the shared response while holding one slot. The caller's
        select can only take the slot branch when a slot is free. */
    method DoFetchWithRetries(w: World, rawURL: string, fr: FetchResponse)
      returns (err: Option<FetchError>, ghost visits: seq<Visit>, ghost slept: seq<int>)
      requires slots <= MAX_CONCURRENT
      requires w.entry.None? ==> slots < MAX_CONCURRENT
      requires fr.View() == FRESH
      modifies fr, this
      ensures slots == old(slots)
      ensures Run(fr.View(), err, visits, slept) == Fetched(w, cfg, rawURL)
    {
      visits, slept := [], [];
      if w.entry.Some? {
        fr.Fail(Timeout, Interrupted(w.entry.value));
        return Some(ContextError(w.entry.value)), visits, slept;
      }
      slots := slots + 1;
      err, visits, slept := RetryLoop(w, rawURL, fr);
      slots := slots - 1;
    }

    method RetryLoop(w: World, rawURL: string, fr: FetchResponse)
      returns (err: Option<FetchError>, ghost visits: seq<Visit>, ghost slept: seq<int>)
      modifies fr
      ensures Run(fr.View(), err, visits, slept) == old(Retry(w, cfg, rawURL, 1, fr.View(), None, [], []))
    {
      var lastErr: Option<FetchError> := None;
      visits, slept := [], [];
      var attempt := 1;
      ghost var whole := Retry(w, cfg, rawURL, 1, fr.View(), None, [], []);
      while attempt <= cfg.maxAttempts
        invariant 1 <= attempt <= cfg.maxAttempts + 1
        invariant Retry(w, cfg, rawURL, attempt, fr.View(), lastErr, visits, slept) == whole
      {
        fr.attempts := attempt;
        var ctx := w.before(attempt);
        if ctx.Some? {
          fr.Fail(Timeout, Interrupted(ctx.value));
          return Some(ContextError(ctx.value)), visits, slept;
        }
        if attempt > 1 {
          var delay := Backoff.BackoffDelay(cfg.baseBackoff, attempt);
          ctx := w.wait(attempt);
          if ctx.Some? {
            fr.Fail(Timeout, Interrupted(ctx.value));
            return Some(ContextError(ctx.value)), visits, slept;
          }
          slept := slept + [delay];
        }
        ghost var sent;
        err, sent := ManualRedirectFetch(w, attempt, rawURL, fr);
        visits := visits + [Visit(fr.View(), err, sent)];
        if w.after(attempt) == Some(Canceled) {
          fr.Fail(Timeout, Interrupted(Canceled));
          return Some(ContextError(Canceled)), visits, slept;
        }
        if err.None? {
          return None, visits, slept;
        }
        lastErr := err;
        if !ShouldRetry(fr.status, err.value) {
          if fr.outcome == Unset {
            fr.outcome := OutcomeFromErr(err.value);
          }
          return err, visits, slept;
        }
        attempt := attempt + 1;
      }
      err := lastErr;
      if lastErr.Some? && IsTimeoutErr(lastErr.value) {
        fr.outcome := Timeout;
        return;
      }
      fr.Fail(RetriedExhausted, Exhausted(cfg.maxAttempts, lastErr));
    }

    /** The public entry: URL text is screened before any slot or network is used. */
    method Fetch(w: World, allowed: bool, rawURL: string)
      returns (fr: FetchResponse, err: Option<FetchError>, ghost visits: seq<Visit>, ghost slept: seq<int>)
      requires slots <= MAX_CONCURRENT
      requires w.entry.None? ==> slots < MAX_CONCURRENT
      modifies this
      ensures fresh(fr) && slots == old(slots)
      ensures allowed ==> Run(fr.View(), err, visits, slept) == Fetched(w, cfg, rawURL)
      ensures !allowed ==>
                && fr.View() == FRESH.Ends(BlockedTarget).Warn(UrlTextRejected)
                && err == Some(InvalidUrl) && visits == [] && slept == []
    {
      fr := new FetchResponse(rawURL);
      if !allowed {
        fr.Fail(BlockedTarget, UrlTextRejected);
        return fr, Some(InvalidUrl), [], [];
      }
      err, visits, slept := DoFetchWithRetries(w, rawURL, fr);
    }
  }
}
