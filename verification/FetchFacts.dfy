/** What holds of every pass of the redirect loop, whatever the network does. */
module FetchFacts {
  import opened Options
  import opened FetchModel

  // ---- one pass of the redirect loop ---------------------------------------------------

  predicate GotStatus(a: Answer) { a.ReadFails? || a.Replies? }

  /** The status after some exchanges: the last one received, else the one before them. */
  function LastStatus(before: int, sent: seq<Exchange>): int {
    if sent == [] then before
    else if GotStatus(sent[|sent| - 1].answer) then sent[|sent| - 1].answer.status
    else LastStatus(before, sent[..|sent| - 1])
  }

  /** A redirect the loop records: an oversize body is refused before Location is looked at. */
  predicate Redirecting(a: Answer) { IsRedirect(a) && |a.body| <= MAX_BODY }

  /** The URLs that answered with a recorded redirect, in order. */
  function Redirects(sent: seq<Exchange>): (urls: seq<string>)
    ensures |urls| <= |sent|
  {
    if sent == [] then []
    else Redirects(sent[..|sent| - 1]) +
         (if Redirecting(sent[|sent| - 1].answer) then [sent[|sent| - 1].url] else [])
  }

  /** `next` is where the loop goes after exchange `e`: the resolved Location of a redirect,
      or the same URL again after a 3xx that names none. */
  predicate Follows(w: World, e: Exchange, next: string) {
    && e.answer.Replies? && 300 <= e.answer.status < 400 && |e.answer.body| <= MAX_BODY
    && if e.answer.location != "" then ResolveRedirect(w, e.url, e.answer.location) == Some(next)
       else next == e.url
  }

  /** A legal path of requests from `url`, with `current` the next URL to ask. */
  predicate Path(w: World, url: string, sent: seq<Exchange>, current: string) {
    if sent == [] then current == url
    else
      var e := sent[|sent| - 1];
      Path(w, url, sent[..|sent| - 1], e.url) && Follows(w, e, current)
  }

  /** The requests of one pass: a legal path whose last exchange may be anything. */
  predicate Walked(w: World, url: string, sent: seq<Exchange>) {
    sent != [] ==> Path(w, url, sent[..|sent| - 1], sent[|sent| - 1].url)
  }

  /** The outcome each way of failing is filed under. */
  function OutcomeOf(e: FetchError): Outcome {
    match e
    case Unresolvable(_) => BlockedTarget
    case Transport(t) => if t then Timeout else TransportError
    case BodyRead(t) => if t then Timeout else TransportError
    case RedirectLimit => TooManyRedirects
    case Upstream(_) => HttpError
    case _ => NonTransientFailure
  }

  /** What one pass does to the record, told from the exchanges it made. */
  predicate VisitOk(w: World, cfg: Limits, url: string, before: Record, v: Visit) {
    && |v.sent| <= cfg.maxRedirects + 1
    && Walked(w, url, v.sent)
    && v.rec.status == LastStatus(before.status, v.sent)
    && v.rec.chain == before.chain + Redirects(v.sent)
    && v.rec.attempts == before.attempts
    && (v.err.None? ==>
          && v.rec.outcome == Success
          && v.sent != []
          && var a := v.sent[|v.sent| - 1].answer;
             a.Replies? && 200 <= a.status < 300 && v.rec.content == a.body && |a.body| <= MAX_BODY)
    && (v.err.Some? ==>
          && !v.err.value.ContextError?
          && v.rec.outcome == OutcomeOf(v.err.value)
          && v.rec.content == before.content)
    && (v.err == Some(RedirectLimit) ==>
          |v.sent| == cfg.maxRedirects + 1 && 300 <= v.rec.status < 400)
    && (v.err.Some? && v.err.value.Upstream? ==> v.rec.status == v.err.value.status >= 400)
    && (v.err.Some? && v.err.value.Unresolvable? && v.sent != [] ==> 300 <= v.rec.status < 400)
    && (v.err != Some(RedirectLimit) ==> |Redirects(v.sent)| <= cfg.maxRedirects)
  }

  lemma SnocFacts(sent: seq<Exchange>, e: Exchange)
    ensures (sent + [e])[..|sent|] == sent && (sent + [e])[|sent|] == e
  {
  }

  /** Where the loop stands: `sent` is a legal path to `current`, and the record reflects it. */
  predicate Underway(w: World, cfg: Limits, hop: nat, current: string, rec: Record,
                     sent: seq<Exchange>, url: string, before: Record)
  {
    && |sent| == hop <= cfg.maxRedirects + 1
    && Path(w, url, sent, current)
    && rec.status == LastStatus(before.status, sent)
    && rec.chain == before.chain + Redirects(sent)
    && rec.attempts == before.attempts && rec.content == before.content
    && |Redirects(sent)| <= cfg.maxRedirects
  }

  predicate GoesOn(w: World, cfg: Limits, hop: nat, current: string, a: Answer) {
    && hop <= cfg.maxRedirects && w.parses(current)
    && a.Replies? && |a.body| <= MAX_BODY && 300 <= a.status < 400
    && (a.location != "" ==> hop < cfg.maxRedirects && ResolveRedirect(w, current, a.location).Some?)
  }

  lemma ChainGrows(base: seq<string>, sent: seq<Exchange>, e: Exchange)
    ensures base + Redirects(sent + [e])
         == if Redirecting(e.answer) then base + Redirects(sent) + [e.url] else base + Redirects(sent)
  {
    SnocFacts(sent, e);
  }

  lemma SnocWalk(w: World, url: string, sent: seq<Exchange>, e: Exchange, before: int)
    requires Path(w, url, sent, e.url)
    ensures Walked(w, url, sent) && Walked(w, url, sent + [e])
    ensures LastStatus(before, sent + [e])
         == if GotStatus(e.answer) then e.answer.status else LastStatus(before, sent)
  {
    SnocFacts(sent, e);
    if sent != [] {
      LastIsRedirection(w, url, sent, e.url, before);
    }
  }

  /** Leaving the loop on a redirect: the limit is reached or the Location is malformed. */
  lemma RedirectStop(w: World, cfg: Limits, attempt: nat, hop: nat, current: string,
                     rec: Record, sent: seq<Exchange>)
    requires hop <= cfg.maxRedirects && w.parses(current) && Redirecting(w.hop(attempt, hop))
    requires !GoesOn(w, cfg, hop, current, w.hop(attempt, hop))
    ensures var v := Walk(w, cfg, attempt, hop, current, rec, sent);
            var a := w.hop(attempt, hop);
            && v.sent == sent + [Exchange(current, a)]
            && v.rec.status == a.status && v.rec.attempts == rec.attempts && v.rec.content == rec.content
            && v.rec.chain == rec.chain + [current]
            && (v.err == Some(RedirectLimit) || v.err == Some(InvalidLocation))
            && v.rec.outcome == OutcomeOf(v.err.value)
            && (v.err == Some(RedirectLimit) <==> hop == cfg.maxRedirects)
  {
  }

  lemma RedirectStopIsOk(w: World, cfg: Limits, attempt: nat, hop: nat, current: string,
                         rec: Record, sent: seq<Exchange>, url: string, before: Record)
    requires Underway(w, cfg, hop, current, rec, sent, url, before)
    requires hop <= cfg.maxRedirects && w.parses(current)
    requires Redirecting(w.hop(attempt, hop))
    requires !GoesOn(w, cfg, hop, current, w.hop(attempt, hop))
    ensures VisitOk(w, cfg, url, before, Walk(w, cfg, attempt, hop, current, rec, sent))
  {
    var e := Exchange(current, w.hop(attempt, hop));
    SnocWalk(w, url, sent, e, before.status);
    ChainGrows(before.chain, sent, e);
    RedirectStop(w, cfg, attempt, hop, current, rec, sent);
  }

  /** Leaving the loop without a request: the limit has passed, the URL does not parse,
      the name is not resolved to public addresses, or no request can be built. */
  lemma UnsentStopIsOk(w: World, cfg: Limits, attempt: nat, hop: nat, current: string,
                       rec: Record, sent: seq<Exchange>, url: string, before: Record)
    requires Underway(w, cfg, hop, current, rec, sent, url, before)
    requires hop > cfg.maxRedirects || !w.parses(current)
          || w.hop(attempt, hop).LookupFails? || w.hop(attempt, hop).BuildFails?
    ensures VisitOk(w, cfg, url, before, Walk(w, cfg, attempt, hop, current, rec, sent))
  {
    if sent != [] {
      LastIsRedirection(w, url, sent, current, before.status);
    }
    assert Walk(w, cfg, attempt, hop, current, rec, sent).sent == sent;
  }

  /** Leaving the loop after a request that did not redirect. */
  lemma SentStopIsOk(w: World, cfg: Limits, attempt: nat, hop: nat, current: string,
                     rec: Record, sent: seq<Exchange>, url: string, before: Record)
    requires Underway(w, cfg, hop, current, rec, sent, url, before)
    requires hop <= cfg.maxRedirects && w.parses(current)
    requires var a := w.hop(attempt, hop);
             && !a.LookupFails? && !a.BuildFails?
             && !Redirecting(a)
    requires !GoesOn(w, cfg, hop, current, w.hop(attempt, hop))
    ensures var v := Walk(w, cfg, attempt, hop, current, rec, sent);
            var a := w.hop(attempt, hop);
            && v.sent == sent + [Exchange(current, a)]
            && v.rec.chain == rec.chain && v.rec.attempts == rec.attempts
            && v.rec.status == (if GotStatus(a) then a.status else rec.status)
            && v.err != Some(RedirectLimit) && !(v.err.Some? && v.err.value.Unresolvable?)
            && (v.err.None? ==> v.rec.outcome == Success && a.Replies? && 200 <= a.status < 300
                                && v.rec.content == a.body && |a.body| <= MAX_BODY)
            && (v.err.Some? ==> !v.err.value.ContextError? && v.rec.outcome == OutcomeOf(v.err.value)
                                && v.rec.content == rec.content
                                && (v.err.value.Upstream? ==> a.Replies? && a.status == v.err.value.status >= 400))
  {
  }

  lemma StopIsOk(w: World, cfg: Limits, attempt: nat, hop: nat, current: string,
                 rec: Record, sent: seq<Exchange>, url: string, before: Record)
    requires Underway(w, cfg, hop, current, rec, sent, url, before)
    requires !GoesOn(w, cfg, hop, current, w.hop(attempt, hop))
    ensures VisitOk(w, cfg, url, before, Walk(w, cfg, attempt, hop, current, rec, sent))
  {
    var a := w.hop(attempt, hop);
    if hop > cfg.maxRedirects || !w.parses(current) || a.LookupFails? || a.BuildFails? {
      UnsentStopIsOk(w, cfg, attempt, hop, current, rec, sent, url, before);
    } else if Redirecting(a) {
      RedirectStopIsOk(w, cfg, attempt, hop, current, rec, sent, url, before);
    } else {
      SentStopIsOk(w, cfg, attempt, hop, current, rec, sent, url, before);
      var e := Exchange(current, a);
      SnocFacts(sent, e);
      SnocWalk(w, url, sent, e, before.status);
      var v := Walk(w, cfg, attempt, hop, current, rec, sent);
      SnocVisitOk(w, cfg, url, before, sent, e, v);
    }
  }

  lemma SnocVisitOk(w: World, cfg: Limits, url: string, before: Record,
                    sent: seq<Exchange>, e: Exchange, v: Visit)
    requires v.sent == sent + [e] && |sent| <= cfg.maxRedirects && Walked(w, url, v.sent)
    requires |Redirects(sent)| <= cfg.maxRedirects
    requires v.rec.status == LastStatus(before.status, v.sent)
    requires v.rec.chain == before.chain + Redirects(sent)
    requires !Redirecting(e.answer)
    requires v.rec.attempts == before.attempts
    requires v.err != Some(RedirectLimit) && !(v.err.Some? && v.err.value.Unresolvable?)
    requires v.err.None? ==>
               && v.rec.outcome == Success && e.answer.Replies? && 200 <= e.answer.status < 300
               && v.rec.content == e.answer.body && |e.answer.body| <= MAX_BODY
    requires v.err.Some? ==>
               && !v.err.value.ContextError? && v.rec.outcome == OutcomeOf(v.err.value)
               && v.rec.content == before.content
               && (v.err.value.Upstream? ==> v.rec.status == v.err.value.status >= 400)
    ensures VisitOk(w, cfg, url, before, v)
  {
    SnocFacts(sent, e);
    ChainGrows(before.chain, sent, e);
  }

  /** Going on leaves the loop underway one hop later. */
  lemma StepKeepsUnderway(w: World, cfg: Limits, hop: nat, current: string, next: string, rec: Record, rec': Record,
                          sent: seq<Exchange>, e: Exchange, url: string, before: Record)
    requires Underway(w, cfg, hop, current, rec, sent, url, before)
    requires GoesOn(w, cfg, hop, current, e.answer) && e.url == current && Follows(w, e, next)
    requires rec'.status == e.answer.status && rec'.attempts == rec.attempts && rec'.content == rec.content
    requires rec'.chain == if IsRedirect(e.answer) then rec.chain + [current] else rec.chain
    ensures Underway(w, cfg, hop + 1, next, rec', sent + [e], url, before)
  {
    SnocFacts(sent, e);
    ChainGrows(before.chain, sent, e);
  }

  /** Every pass is as VisitOk says, by following the loop hop by hop. */
  lemma {:induction false} WalkIsOk(w: World, cfg: Limits, attempt: nat, hop: nat, current: string,
                                    rec: Record, sent: seq<Exchange>, url: string, before: Record)
    requires Underway(w, cfg, hop, current, rec, sent, url, before)
    ensures VisitOk(w, cfg, url, before, Walk(w, cfg, attempt, hop, current, rec, sent))
    decreases cfg.maxRedirects + 1 - hop
  {
    var a := w.hop(attempt, hop);
    if GoesOn(w, cfg, hop, current, a) {
      var e := Exchange(current, a);
      var got := Received(rec, a.status, a.closeFails);
      var next, rec' := current, got;
      if a.location != "" {
        next := ResolveRedirect(w, current, a.location).value;
        rec' := got.(chain := got.chain + [current]);
      }
      StepKeepsUnderway(w, cfg, hop, current, next, rec, rec', sent, e, url, before);
      WalkIsOk(w, cfg, attempt, hop + 1, next, rec', sent + [e], url, before);
      WalkGoesOn(w, cfg, attempt, hop, current, next, rec, rec', sent);
    } else {
      StopIsOk(w, cfg, attempt, hop, current, rec, sent, url, before);
    }
  }

  lemma WalkGoesOn(w: World, cfg: Limits, attempt: nat, hop: nat, current: string, next: string,
                   rec: Record, rec': Record, sent: seq<Exchange>)
    requires GoesOn(w, cfg, hop, current, w.hop(attempt, hop)) && Follows(w, Exchange(current, w.hop(attempt, hop)), next)
    requires var a := w.hop(attempt, hop);
             var got := Received(rec, a.status, a.closeFails);
             rec' == if a.location != "" then got.(chain := got.chain + [current]) else got
    ensures Walk(w, cfg, attempt, hop, current, rec, sent)
         == Walk(w, cfg, attempt, hop + 1, next, rec', sent + [Exchange(current, w.hop(attempt, hop))])
  {
  }

  lemma LastIsRedirection(w: World, url: string, sent: seq<Exchange>, current: string, before: int)
    requires sent != [] && Path(w, url, sent, current)
    ensures 300 <= LastStatus(before, sent) < 400
    ensures Walked(w, url, sent)
  {
  }
}
