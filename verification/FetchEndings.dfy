/** How a pass, and a whole run, ends: told from the answers of the network and the context
    alone, with every status and size written out. */
module FetchEndings {
  import opened Options
  import opened FetchModel
  import opened FetchFacts
  import opened FetchRuns
  import opened FetchTheorems
  import opened FetchRetries

  // ---- one pass, from its answers --------------------------------------------------------

  /** A reply that keeps the loop going: 3xx, with a body of at most 4 MiB. */
  predicate Continues(a: Answer) { a.Replies? && |a.body| <= 4_194_304 && 300 <= a.status < 400 }

  /** Where a reply sends the loop: an absolute HTTP Location as it stands, another one
      resolved, and without one the same URL again. */
  function NextUrl(w: World, e: Exchange): Option<string>
    requires e.answer.Replies?
  {
    var loc := e.answer.location;
    if loc == "" then Some(e.url)
    else if "http://" <= loc || "https://" <= loc then Some(loc)
    else w.resolves(e.url, loc)
  }

  /** The exchanges are the world's answers, in order, to the URLs the replies led to. */
  predicate Asked(w: World, url: string, attempt: nat, sent: seq<Exchange>) {
    && (sent != [] ==> sent[0].url == url)
    && (forall h :: 0 <= h < |sent| ==>
          sent[h].answer == w.hop(attempt, h) && !sent[h].answer.LookupFails? && !sent[h].answer.BuildFails?)
    && (forall h :: 0 <= h < |sent| - 1 ==>
          Continues(sent[h].answer) && NextUrl(w, sent[h]) == Some(sent[h + 1].url))
  }

  /** What a pass reports. */
  datatype End = End(err: Option<FetchError>, outcome: Outcome, warnings: seq<Warning>)

  /** The end of a pass that stopped on an answer. */
  function AnswerEnd(a: Answer): End
    requires !a.LookupFails? && !a.BuildFails? && !Continues(a)
  {
    match a
    case SendFails(t) => End(Some(Transport(t)), if t then Timeout else TransportError, [RequestFailed])
    case ReadFails(_, t) => End(Some(BodyRead(t)), if t then Timeout else TransportError, [BodyNotRead])
    case Replies(s, _, body, _) =>
      if |body| > 4_194_304 then End(Some(BodyTooLarge), NonTransientFailure, [Oversize])
      else if s >= 400 then End(Some(Upstream(s)), HttpError, [UpstreamStatus(s)])
      else if s >= 200 then End(None, Success, [])
      else End(Some(UnexpectedStatus(s)), NonTransientFailure, [StrangeStatus(s)])
  }

  /** The end of a pass that stopped before asking for `next`, after `sent`. */
  function UnsentEnd(w: World, cfg: Limits, attempt: nat, sent: seq<Exchange>, next: Option<string>): Option<End> {
    var n := |sent|;
    if n > cfg.maxRedirects then
      Some(End(Some(RedirectLimit), TooManyRedirects,
               if sent[n - 1].answer.Replies? && sent[n - 1].answer.location != "" then [ChainExceeded(cfg.maxRedirects)]
               else []))
    else
      match next
      case None => Some(End(Some(InvalidLocation), NonTransientFailure, [BadLocation]))
      case Some(u) =>
        if !w.parses(u) then Some(End(Some(InvalidUrl), NonTransientFailure, [BadUrlAtHop(n)]))
        else
          match w.hop(attempt, n)
          case LookupFails(t) => Some(End(Some(Unresolvable(t)), BlockedTarget, [BlockedAtHop(n, u)]))
          case BuildFails => Some(End(Some(UnbuildableRequest), NonTransientFailure, [RequestNotBuilt]))
          case _ => None   // there would have been another request
  }

  function PassEnd(w: World, cfg: Limits, url: string, attempt: nat, sent: seq<Exchange>): Option<End>
    requires Asked(w, url, attempt, sent)
  {
    if sent == [] then UnsentEnd(w, cfg, attempt, sent, Some(url))
    else
      var last := sent[|sent| - 1];
      if Continues(last.answer) then UnsentEnd(w, cfg, attempt, sent, NextUrl(w, last))
      else Some(AnswerEnd(last.answer))
  }

  /** One warning for each reply whose body did not close. */
  function CloseWarnings(sent: seq<Exchange>): seq<Warning> {
    if sent == [] then []
    else
      var a := sent[|sent| - 1].answer;
      CloseWarnings(sent[..|sent| - 1]) + (if a.Replies? && a.closeFails then [BodyNotClosed] else [])
  }

  /** A pass is all its answers say it is. */
  predicate Told(w: World, cfg: Limits, url: string, attempt: nat, before: Record, v: Visit) {
    && Asked(w, url, attempt, v.sent)
    && var end := PassEnd(w, cfg, url, attempt, v.sent);
       && end.Some? && v.err == end.value.err && v.rec.outcome == end.value.outcome
       && v.rec.warnings == before.warnings + CloseWarnings(v.sent) + end.value.warnings
       && v.rec.content == (if v.err.None? && v.sent != [] && v.sent[|v.sent| - 1].answer.Replies?
                            then v.sent[|v.sent| - 1].answer.body else before.content)
  }

  /** The loop before its next request. */
  predicate Midway(w: World, cfg: Limits, url: string, attempt: nat, before: Record,
                   hop: nat, current: string, rec: Record, sent: seq<Exchange>)
  {
    && |sent| == hop <= cfg.maxRedirects + 1
    && Asked(w, url, attempt, sent)
    && (if sent == [] then current == url
        else Continues(sent[hop - 1].answer) && NextUrl(w, sent[hop - 1]) == Some(current))
    && rec.warnings == before.warnings + CloseWarnings(sent) && rec.content == before.content
  }

  lemma AskedSnoc(w: World, cfg: Limits, url: string, attempt: nat, before: Record,
                  hop: nat, current: string, rec: Record, sent: seq<Exchange>)
    requires Midway(w, cfg, url, attempt, before, hop, current, rec, sent)
    requires var a := w.hop(attempt, hop); !a.LookupFails? && !a.BuildFails?
    ensures Asked(w, url, attempt, sent + [Exchange(current, w.hop(attempt, hop))])
    ensures var a := w.hop(attempt, hop);
            CloseWarnings(sent + [Exchange(current, a)])
              == CloseWarnings(sent) + (if a.Replies? && a.closeFails then [BodyNotClosed] else [])
  {
    var e := Exchange(current, w.hop(attempt, hop));
    SnocFacts(sent, e);
    var more := sent + [e];
    forall h | 0 <= h < |more| - 1
      ensures Continues(more[h].answer) && NextUrl(w, more[h]) == Some(more[h + 1].url)
    {
      if h + 1 < |sent| {
        assert Continues(sent[h].answer) && NextUrl(w, sent[h]) == Some(sent[h + 1].url);
      }
    }
  }

  /** Stopping without a request. */
  lemma UnsentIsTold(w: World, cfg: Limits, url: string, attempt: nat, before: Record,
                     hop: nat, current: string, rec: Record, sent: seq<Exchange>)
    requires Midway(w, cfg, url, attempt, before, hop, current, rec, sent)
    requires hop > cfg.maxRedirects ==> sent[hop - 1].answer.location == ""
    requires hop > cfg.maxRedirects || !w.parses(current)
          || w.hop(attempt, hop).LookupFails? || w.hop(attempt, hop).BuildFails?
    ensures Told(w, cfg, url, attempt, before, Walk(w, cfg, attempt, hop, current, rec, sent))
  {
    var ws := before.warnings + CloseWarnings(sent);
    assert ws + [] == ws;
  }

  /** What the loop does with a redirect it does not follow. */
  lemma RedirectReport(w: World, cfg: Limits, attempt: nat, hop: nat, current: string, rec: Record, sent: seq<Exchange>)
    requires hop <= cfg.maxRedirects && w.parses(current)
    requires var a := w.hop(attempt, hop);
             Continues(a) && a.location != "" && !GoesOn(w, cfg, hop, current, a)
    ensures var v := Walk(w, cfg, attempt, hop, current, rec, sent);
            var a := w.hop(attempt, hop);
            var closed: seq<Warning> := if a.closeFails then [BodyNotClosed] else [];
            && v.sent == sent + [Exchange(current, a)] && v.rec.content == rec.content
            && (if hop == cfg.maxRedirects then
                  && v.err == Some(RedirectLimit) && v.rec.outcome == TooManyRedirects
                  && v.rec.warnings == rec.warnings + closed + [ChainExceeded(cfg.maxRedirects)]
                else
                  && v.err == Some(InvalidLocation) && v.rec.outcome == NonTransientFailure
                  && v.rec.warnings == rec.warnings + closed + [BadLocation]
                  && NextUrl(w, Exchange(current, a)).None?)
  {
    assert rec.warnings + [] == rec.warnings;
  }

  lemma RedirectIsTold(w: World, cfg: Limits, url: string, attempt: nat, before: Record,
                       hop: nat, current: string, rec: Record, sent: seq<Exchange>)
    requires Midway(w, cfg, url, attempt, before, hop, current, rec, sent)
    requires hop <= cfg.maxRedirects && w.parses(current)
    requires var a := w.hop(attempt, hop);
             Continues(a) && a.location != "" && !GoesOn(w, cfg, hop, current, a)
    ensures Told(w, cfg, url, attempt, before, Walk(w, cfg, attempt, hop, current, rec, sent))
  {
    AskedSnoc(w, cfg, url, attempt, before, hop, current, rec, sent);
    RedirectReport(w, cfg, attempt, hop, current, rec, sent);
    var a := w.hop(attempt, hop);
    var closed: seq<Warning> := if a.closeFails then [BodyNotClosed] else [];
    assert before.warnings + (CloseWarnings(sent) + closed) == before.warnings + CloseWarnings(sent) + closed;
    TellsRedirect(w, cfg, url, attempt, before, sent, Exchange(current, w.hop(attempt, hop)),
                  Walk(w, cfg, attempt, hop, current, rec, sent));
  }

  lemma TellsRedirect(w: World, cfg: Limits, url: string, attempt: nat, before: Record,
                      sent: seq<Exchange>, e: Exchange, v: Visit)
    requires v.sent == sent + [e] && |sent| <= cfg.maxRedirects && Asked(w, url, attempt, v.sent)
    requires Continues(e.answer) && e.answer.location != "" && v.rec.content == before.content
    requires if |sent| == cfg.maxRedirects then
               && v.err == Some(RedirectLimit) && v.rec.outcome == TooManyRedirects
               && v.rec.warnings == before.warnings + CloseWarnings(v.sent) + [ChainExceeded(cfg.maxRedirects)]
             else
               && v.err == Some(InvalidLocation) && v.rec.outcome == NonTransientFailure
               && v.rec.warnings == before.warnings + CloseWarnings(v.sent) + [BadLocation]
               && NextUrl(w, e).None?
    ensures Told(w, cfg, url, attempt, before, v)
  {
    SnocFacts(sent, e);
  }

  /** What the loop does with any other answer. */
  lemma AnswerStop(w: World, cfg: Limits, attempt: nat, hop: nat, current: string, rec: Record, sent: seq<Exchange>)
    requires hop <= cfg.maxRedirects && w.parses(current)
    requires var a := w.hop(attempt, hop); !a.LookupFails? && !a.BuildFails? && !Continues(a)
    ensures var v := Walk(w, cfg, attempt, hop, current, rec, sent);
            var a := w.hop(attempt, hop);
            var end := AnswerEnd(a);
            && v.sent == sent + [Exchange(current, a)] && v.err == end.err && v.rec.outcome == end.outcome
            && v.rec.warnings == rec.warnings + (if a.Replies? && a.closeFails then [BodyNotClosed] else []) + end.warnings
            && (v.err.None? ==> a.Replies?)
            && v.rec.content == if v.err.None? then a.body else rec.content
  {
    assert rec.warnings + [] == rec.warnings;
    var a := w.hop(attempt, hop);
    if a.Replies? {
      var got := Received(rec, a.status, a.closeFails);
      assert got.warnings + [] == got.warnings;
    }
  }

  lemma AnswerIsTold(w: World, cfg: Limits, url: string, attempt: nat, before: Record,
                     hop: nat, current: string, rec: Record, sent: seq<Exchange>)
    requires Midway(w, cfg, url, attempt, before, hop, current, rec, sent)
    requires hop <= cfg.maxRedirects && w.parses(current)
    requires var a := w.hop(attempt, hop); !a.LookupFails? && !a.BuildFails? && !Continues(a)
    ensures Told(w, cfg, url, attempt, before, Walk(w, cfg, attempt, hop, current, rec, sent))
  {
    var e := Exchange(current, w.hop(attempt, hop));
    AskedSnoc(w, cfg, url, attempt, before, hop, current, rec, sent);
    SnocFacts(sent, e);
    AnswerStop(w, cfg, attempt, hop, current, rec, sent);
    var v := Walk(w, cfg, attempt, hop, current, rec, sent);
    TellsAnswer(w, cfg, url, attempt, before, sent, e, v);
  }

  lemma TellsAnswer(w: World, cfg: Limits, url: string, attempt: nat, before: Record,
                    sent: seq<Exchange>, e: Exchange, v: Visit)
    requires v.sent == sent + [e] && Asked(w, url, attempt, v.sent)
    requires !e.answer.LookupFails? && !e.answer.BuildFails? && !Continues(e.answer)
    requires var end := AnswerEnd(e.answer);
             && v.err == end.err && v.rec.outcome == end.outcome
             && v.rec.warnings == before.warnings + CloseWarnings(v.sent) + end.warnings
    requires v.err.None? ==> e.answer.Replies?
    requires v.rec.content == if v.err.None? then e.answer.body else before.content
    ensures Told(w, cfg, url, attempt, before, v)
  {
    SnocFacts(sent, e);
  }

  /** Going on leaves the loop midway, one hop later. */
  lemma StaysMidway(w: World, cfg: Limits, url: string, attempt: nat, before: Record, hop: nat, current: string,
                    next: string, rec: Record, rec': Record, sent: seq<Exchange>)
    requires Midway(w, cfg, url, attempt, before, hop, current, rec, sent) && hop <= cfg.maxRedirects
    requires var a := w.hop(attempt, hop);
             && Continues(a) && NextUrl(w, Exchange(current, a)) == Some(next)
             && rec'.warnings == rec.warnings + (if a.closeFails then [BodyNotClosed] else [])
             && rec'.content == rec.content
    ensures Midway(w, cfg, url, attempt, before, hop + 1, next, rec', sent + [Exchange(current, w.hop(attempt, hop))])
  {
    var a := w.hop(attempt, hop);
    var closed: seq<Warning> := if a.closeFails then [BodyNotClosed] else [];
    AskedSnoc(w, cfg, url, attempt, before, hop, current, rec, sent);
    assert before.warnings + (CloseWarnings(sent) + closed) == before.warnings + CloseWarnings(sent) + closed;
    MidwayAfter(w, cfg, url, attempt, before, hop + 1, next, rec', sent, Exchange(current, a));
  }

  lemma MidwayAfter(w: World, cfg: Limits, url: string, attempt: nat, before: Record,
                    hop: nat, current: string, rec: Record, init: seq<Exchange>, e: Exchange)
    requires |init| + 1 == hop <= cfg.maxRedirects + 1 && Asked(w, url, attempt, init + [e])
    requires Continues(e.answer) && NextUrl(w, e) == Some(current)
    requires rec.warnings == before.warnings + CloseWarnings(init + [e]) && rec.content == before.content
    ensures Midway(w, cfg, url, attempt, before, hop, current, rec, init + [e])
  {
    SnocFacts(init, e);
  }

  lemma GoingOnIsTold(w: World, cfg: Limits, url: string, attempt: nat, before: Record,
                      hop: nat, current: string, rec: Record, sent: seq<Exchange>)
    returns (next: string, rec': Record)
    requires Midway(w, cfg, url, attempt, before, hop, current, rec, sent)
    requires GoesOn(w, cfg, hop, current, w.hop(attempt, hop))
    ensures var a := w.hop(attempt, hop);
            && Midway(w, cfg, url, attempt, before, hop + 1, next, rec', sent + [Exchange(current, a)])
            && Walk(w, cfg, attempt, hop, current, rec, sent)
                 == Walk(w, cfg, attempt, hop + 1, next, rec', sent + [Exchange(current, a)])
            && (hop + 1 > cfg.maxRedirects ==> a.location == "")
  {
    var a := w.hop(attempt, hop);
    var got := Received(rec, a.status, a.closeFails);
    next, rec' := current, got;
    if a.location != "" {
      next := ResolveRedirect(w, current, a.location).value;
      rec' := got.(chain := got.chain + [current]);
    }
    assert rec.warnings + [] == rec.warnings;
    StaysMidway(w, cfg, url, attempt, before, hop, current, next, rec, rec', sent);
    WalkGoesOn(w, cfg, attempt, hop, current, next, rec, rec', sent);
  }

  /** Every pass is told by its answers, followed hop by hop. */
  lemma {:induction false} WalkIsTold(w: World, cfg: Limits, url: string, attempt: nat, before: Record,
                                      hop: nat, current: string, rec: Record, sent: seq<Exchange>)
    requires Midway(w, cfg, url, attempt, before, hop, current, rec, sent)
    requires hop > cfg.maxRedirects ==> sent[hop - 1].answer.location == ""
    ensures Told(w, cfg, url, attempt, before, Walk(w, cfg, attempt, hop, current, rec, sent))
    decreases cfg.maxRedirects + 1 - hop
  {
    var a := w.hop(attempt, hop);
    if hop > cfg.maxRedirects || !w.parses(current) || a.LookupFails? || a.BuildFails? {
      UnsentIsTold(w, cfg, url, attempt, before, hop, current, rec, sent);
    } else if GoesOn(w, cfg, hop, current, a) {
      var next, rec' := GoingOnIsTold(w, cfg, url, attempt, before, hop, current, rec, sent);
      SnocFacts(sent, Exchange(current, a));
      WalkIsTold(w, cfg, url, attempt, before, hop + 1, next, rec', sent + [Exchange(current, a)]);
    } else if Continues(a) {
      RedirectIsTold(w, cfg, url, attempt, before, hop, current, rec, sent);
    } else {
      AnswerIsTold(w, cfg, url, attempt, before, hop, current, rec, sent);
    }
  }

  // ---- the passes of a run ---------------------------------------------------------------

  /** Each pass is the one its attempt makes from what the passes before it left. */
  predicate InTurn(w: World, cfg: Limits, url: string, visits: seq<Visit>) {
    forall i :: 0 <= i < |visits| ==> PassInTurn(w, cfg, url, visits, i)
  }

  predicate PassInTurn(w: World, cfg: Limits, url: string, visits: seq<Visit>, i: nat)
    requires i < |visits|
  {
    visits[i] == Walk(w, cfg, i + 1, 0, url, RecordAfter(visits[..i]).(attempts := i + 1), [])
  }

  lemma InTurnSnoc(w: World, cfg: Limits, url: string, visits: seq<Visit>, v: Visit)
    requires InTurn(w, cfg, url, visits)
    requires v == Walk(w, cfg, |visits| + 1, 0, url, RecordAfter(visits).(attempts := |visits| + 1), [])
    ensures InTurn(w, cfg, url, visits + [v])
  {
    var more := visits + [v];
    forall i | 0 <= i < |more|
      ensures PassInTurn(w, cfg, url, more, i)
    {
      if i < |visits| {
        assert PassInTurn(w, cfg, url, visits, i) && more[..i] == visits[..i];
      } else {
        assert more[..i] == visits;
      }
    }
  }

  lemma {:induction false} RetryInTurn(w: World, cfg: Limits, url: string, attempt: nat, rec: Record,
                                       last: Option<FetchError>, visits: seq<Visit>, slept: seq<int>)
    requires attempt == |visits| + 1 && rec == RecordAfter(visits) && InTurn(w, cfg, url, visits)
    ensures InTurn(w, cfg, url, Retry(w, cfg, url, attempt, rec, last, visits, slept).visits)
    decreases cfg.maxAttempts + 1 - attempt, 1
  {
    if PassHappens(w, cfg, attempt) {
      var v := Walk(w, cfg, attempt, 0, url, rec.(attempts := attempt), []);
      InTurnSnoc(w, cfg, url, visits, v);
      RetryMakesPass(w, cfg, url, attempt, rec, last, visits, slept);
      AfterPassInTurn(w, cfg, url, attempt, visits + [v], SleptBy(cfg, attempt, slept));
    } else {
      RetryEnds(w, cfg, url, attempt, rec, last, visits, slept);
    }
  }

  lemma {:induction false} AfterPassInTurn(w: World, cfg: Limits, url: string, attempt: nat,
                                           visits: seq<Visit>, slept: seq<int>)
    requires attempt == |visits| && 1 <= attempt <= cfg.maxAttempts && InTurn(w, cfg, url, visits)
    ensures InTurn(w, cfg, url, AfterPass(w, cfg, url, attempt, visits, slept).visits)
    decreases cfg.maxAttempts + 1 - attempt, 0
  {
    var v := visits[attempt - 1];
    if w.after(attempt) != Some(Canceled) && Retried(v) {
      RetryInTurn(w, cfg, url, attempt + 1, v.rec, v.err, visits, slept);
    }
  }

  /** In every run, every pass is told by the answers it got. */
  lemma PassIsTold(w: World, cfg: Limits, url: string, i: nat)
    requires i < |Fetched(w, cfg, url).visits|
    ensures var vs := Fetched(w, cfg, url).visits;
            Told(w, cfg, url, i + 1, RecordAfter(vs[..i]), vs[i])
  {
    var vs := Fetched(w, cfg, url).visits;
    RetryInTurn(w, cfg, url, 1, FRESH, None, [], []);
    assert PassInTurn(w, cfg, url, vs, i);
    var before := RecordAfter(vs[..i]);
    var numbered := before.(attempts := i + 1);
    assert before.warnings + CloseWarnings([]) == before.warnings;
    WalkIsTold(w, cfg, url, i + 1, before, 0, url, numbered, []);
  }

  /** The same, case by case, for a pass whose last answer settles it: success exactly on a
      2xx reply of at most 4 MiB, with its body. */
  lemma PassEndsAsAnswered(w: World, cfg: Limits, url: string, i: nat)
    requires i < |Fetched(w, cfg, url).visits| && Fetched(w, cfg, url).visits[i].sent != []
    ensures var v := Fetched(w, cfg, url).visits[i];
            var a := v.sent[|v.sent| - 1].answer;
            && (v.err.None? <==> a.Replies? && |a.body| <= 4_194_304 && 200 <= a.status < 300)
            && (v.err.None? ==> v.rec.outcome == Success && v.rec.content == a.body)
            && (a.Replies? && |a.body| <= 4_194_304 ==>
                  && (v.err == Some(Upstream(a.status)) <==> a.status >= 400)
                  && (v.err == Some(UnexpectedStatus(a.status)) <==> a.status < 200))
            && (v.err == Some(BodyTooLarge) <==> a.Replies? && |a.body| > 4_194_304)
            && (forall t :: v.err == Some(Transport(t)) <==> a == SendFails(t))
            && (forall t :: v.err == Some(BodyRead(t)) <==> a.ReadFails? && a.timedOut == t)
  {
    PassIsTold(w, cfg, url, i);
  }

  // ---- when a pass is retried, from its answers ------------------------------------------

  /** 429, 502, 503 and 504. */
  predicate AsksAgain(status: int) { status == 429 || status == 502 || status == 503 || status == 504 }

  /** The pass ended on a timeout: of a send or a read, or of the lookup it needed next. */
  predicate EndsOnTimeout(w: World, cfg: Limits, url: string, attempt: nat, sent: seq<Exchange>)
    requires Asked(w, url, attempt, sent)
  {
    if sent != [] && !Continues(sent[|sent| - 1].answer) then
      var a := sent[|sent| - 1].answer;
      a == SendFails(true) || (a.ReadFails? && a.timedOut)
    else
      var next := if sent == [] then Some(url) else NextUrl(w, sent[|sent| - 1]);
      && |sent| <= cfg.maxRedirects && next.Some? && w.parses(next.value)
      && w.hop(attempt, |sent|) == LookupFails(true)
  }

  /** Timeouts among the errors a pass can return are exactly those. */
  lemma TimeoutIsTold(w: World, cfg: Limits, url: string, attempt: nat, before: Record, v: Visit)
    requires Told(w, cfg, url, attempt, before, v)
    ensures v.err.Some? && IsTimeoutErr(v.err.value) <==> EndsOnTimeout(w, cfg, url, attempt, v.sent)
    ensures v.err.None? ==> v.sent != [] && 200 <= v.sent[|v.sent| - 1].answer.status < 300
  {
  }

  /** The retry rule, from answers: a pass is followed by another exactly when attempts remain,
      the context lets it, and the pass ended on a timeout or the last status received in the
      run, in this pass or an earlier one, is 429, 502, 503 or 504. */
  lemma RetriedByAnswers(w: World, cfg: Limits, url: string, i: nat)
    requires i < |Fetched(w, cfg, url).visits|
    ensures var vs := Fetched(w, cfg, url).visits;
            && Asked(w, url, i + 1, vs[i].sent)
            && (i + 1 < |vs| <==>
                  && i + 1 < cfg.maxAttempts && QuietAfter(w, cfg, i + 1)
                  && (EndsOnTimeout(w, cfg, url, i + 1, vs[i].sent)
                      || AsksAgain(LastStatus(0, AllSent(vs[..i + 1])))))
  {
    RetriedExactlyWhenDue(w, cfg, url, i);
    PassIsTold(w, cfg, url, i);
    PassFacts(w, cfg, url, i);
    var vs := Fetched(w, cfg, url).visits;
    TimeoutIsTold(w, cfg, url, i + 1, RecordAfter(vs[..i]), vs[i]);
    if vs[i].err.None? {
      assert vs[i].rec.status == vs[i].sent[|vs[i].sent| - 1].answer.status;
    }
  }

  // ---- how a run ends --------------------------------------------------------------------

  predicate Due(v: Visit) {
    v.err.Some? && (TimedOut(v.err.value) || AsksAgain(v.rec.status))
  }

  predicate TimedOut(e: FetchError) { e == Unresolvable(true) || e == Transport(true) || e == BodyRead(true) }

  /** The context stops attempt n + 1, and how. */
  function Stop(w: World, n: nat): Option<CtxErr> {
    if w.before(n + 1).Some? then w.before(n + 1) else if n > 0 then w.wait(n + 1) else None
  }

  function Interrupt(rec: Record, attempts: nat, c: CtxErr): Record {
    rec.(attempts := attempts, outcome := Timeout, warnings := rec.warnings + [Interrupted(c)])
  }

  /** The report of a run, from its passes and the context. */
  function Report(w: World, cfg: Limits, visits: seq<Visit>): (Record, Option<FetchError>) {
    var n, left := |visits|, RecordAfter(visits);
    if n > 0 && w.after(n) == Some(Canceled) then (Interrupt(left, n, Canceled), Some(ContextError(Canceled)))
    else if n > 0 && !Due(visits[n - 1]) then (left, visits[n - 1].err)
    else if n < cfg.maxAttempts && Stop(w, n).Some? then
      (Interrupt(left, n + 1, Stop(w, n).value), Some(ContextError(Stop(w, n).value)))
    else if n > 0 && TimedOut(visits[n - 1].err.value) then (left.(outcome := Timeout), visits[n - 1].err)
    else if n > 0 then
      (left.(outcome := RetriedExhausted, warnings := left.warnings + [Exhausted(cfg.maxAttempts, visits[n - 1].err)]),
       visits[n - 1].err)
    else (left, None)
  }

  predicate Reported(w: World, cfg: Limits, r: Run) { (r.rec, r.err) == Report(w, cfg, r.visits) }

  lemma DueIsRetried(v: Visit)
    requires !IsContext(v.err)
    ensures Due(v) <==> Retried(v)
  {
  }

  lemma PassHasNumber(w: World, cfg: Limits, attempt: nat, url: string, rec: Record)
    ensures var v := Walk(w, cfg, attempt, 0, url, rec, []);
            v.rec.attempts == rec.attempts && !IsContext(v.err) && v.rec.outcome != Unset
  {
    assert rec.chain + Redirects([]) == rec.chain;
    WalkIsOk(w, cfg, attempt, 0, url, rec, [], url, rec);
  }

  lemma {:induction false} RetryReports(w: World, cfg: Limits, url: string, attempt: nat, rec: Record,
                                        last: Option<FetchError>, visits: seq<Visit>, slept: seq<int>)
    requires attempt == |visits| + 1 && |visits| <= cfg.maxAttempts && rec == RecordAfter(visits)
    requires rec.attempts == |visits|
    requires visits != [] ==>
               var v := visits[|visits| - 1];
               w.after(|visits|) != Some(Canceled) && Due(v) && last == v.err && !IsContext(v.err)
    ensures Reported(w, cfg, Retry(w, cfg, url, attempt, rec, last, visits, slept))
    decreases cfg.maxAttempts + 1 - attempt, 1
  {
    if PassHappens(w, cfg, attempt) {
      var numbered := rec.(attempts := attempt);
      var v := Walk(w, cfg, attempt, 0, url, numbered, []);
      PassHasNumber(w, cfg, attempt, url, numbered);
      RetryMakesPass(w, cfg, url, attempt, rec, last, visits, slept);
      AfterPassReports(w, cfg, url, attempt, visits + [v], SleptBy(cfg, attempt, slept));
    } else {
      NoPassReports(w, cfg, url, attempt, rec, last, visits, slept);
    }
  }

  lemma NoPassReports(w: World, cfg: Limits, url: string, attempt: nat, rec: Record,
                      last: Option<FetchError>, visits: seq<Visit>, slept: seq<int>)
    requires attempt == |visits| + 1 && |visits| <= cfg.maxAttempts && rec == RecordAfter(visits)
    requires !PassHappens(w, cfg, attempt)
    requires visits != [] ==>
               var v := visits[|visits| - 1];
               w.after(|visits|) != Some(Canceled) && Due(v) && last == v.err && !IsContext(v.err)
    ensures Reported(w, cfg, Retry(w, cfg, url, attempt, rec, last, visits, slept))
  {
  }

  lemma {:induction false} AfterPassReports(w: World, cfg: Limits, url: string, attempt: nat,
                                            visits: seq<Visit>, slept: seq<int>)
    requires attempt == |visits| && 1 <= attempt <= cfg.maxAttempts
    requires var v := visits[attempt - 1]; v.rec.attempts == attempt && !IsContext(v.err) && v.rec.outcome != Unset
    ensures Reported(w, cfg, AfterPass(w, cfg, url, attempt, visits, slept))
    decreases cfg.maxAttempts + 1 - attempt, 0
  {
    var v := visits[attempt - 1];
    DueIsRetried(v);
    if w.after(attempt) != Some(Canceled) && Due(v) {
      RetryReports(w, cfg, url, attempt + 1, v.rec, v.err, visits, slept);
    }
  }

  /** Record, error and warnings of every run, from its passes: the context's word if it spoke
      after the last pass or stopped a due attempt, else the last pass's own report, except
      that a timeout is filed as one and any other used-up budget as exhausted. A run that
      found no slot in time reports that alone. */
  lemma RunIsReported(w: World, cfg: Limits, url: string)
    ensures var r := Fetched(w, cfg, url);
            if w.entry.Some? then
              r == Run(Interrupt(FRESH, 0, w.entry.value), Some(ContextError(w.entry.value)), [], [])
            else (r.rec, r.err) == Report(w, cfg, r.visits)
    ensures FRESH == Record(0, Unset, 0, [], [], "")
    ensures w.entry.None? ==> (Fetched(w, cfg, url).visits != [] <==> Stop(w, 0).None?)
  {
    if w.entry.None? {
      RetryReports(w, cfg, url, 1, FRESH, None, [], []);
      FirstPass(w, cfg, url);
    }
  }

  /** The first pass is made unless the context stops it. */
  lemma FirstPass(w: World, cfg: Limits, url: string)
    requires w.entry.None?
    ensures Fetched(w, cfg, url).visits != [] <==> Stop(w, 0).None?
  {
    if PassHappens(w, cfg, 1) {
      var v := Walk(w, cfg, 1, 0, url, FRESH.(attempts := 1), []);
      RetryMakesPass(w, cfg, url, 1, FRESH, None, [], []);
      PassesStay(w, cfg, url, 1, [] + [v], []);
    } else {
      RetryEnds(w, cfg, url, 1, FRESH, None, [], []);
    }
  }

  lemma {:induction false} PassesStay(w: World, cfg: Limits, url: string, attempt: nat, visits: seq<Visit>, slept: seq<int>)
    requires 1 <= attempt <= cfg.maxAttempts && visits != []
    ensures AfterPass(w, cfg, url, attempt, visits, slept).visits != []
    decreases cfg.maxAttempts + 1 - attempt, 0
  {
    var v := visits[|visits| - 1];
    if w.after(attempt) != Some(Canceled) && Retried(v) {
      RetryPassesStay(w, cfg, url, attempt + 1, v.rec, v.err, visits, slept);
    }
  }

  lemma {:induction false} RetryPassesStay(w: World, cfg: Limits, url: string, attempt: nat, rec: Record,
                                           last: Option<FetchError>, visits: seq<Visit>, slept: seq<int>)
    requires attempt >= 1 && visits != []
    ensures Retry(w, cfg, url, attempt, rec, last, visits, slept).visits != []
    decreases cfg.maxAttempts + 1 - attempt, 1
  {
    if PassHappens(w, cfg, attempt) {
      var v := Walk(w, cfg, attempt, 0, url, rec.(attempts := attempt), []);
      RetryMakesPass(w, cfg, url, attempt, rec, last, visits, slept);
      PassesStay(w, cfg, url, attempt, visits + [v], SleptBy(cfg, attempt, slept));
    } else {
      RetryEnds(w, cfg, url, attempt, rec, last, visits, slept);
    }
  }

  /** So a run succeeds exactly when its last pass ended on a 2xx reply of at most 4 MiB and
      the context was not canceled right then; it reports that reply's status and body. */
  lemma RunSucceedsIff(w: World, cfg: Limits, url: string)
    ensures var r := Fetched(w, cfg, url);
            var n := |r.visits|;
            r.err.None? <==>
              && n > 0 && w.after(n) != Some(Canceled)
              && var sent := r.visits[n - 1].sent;
                 && sent != []
                 && var a := sent[|sent| - 1].answer;
                    a.Replies? && |a.body| <= 4_194_304 && 200 <= a.status < 300
    ensures var r := Fetched(w, cfg, url);
            r.err.None? ==>
              && r.rec.outcome == Success
              && var sent := r.visits[|r.visits| - 1].sent;
                 r.rec.content == sent[|sent| - 1].answer.body && r.rec.status == sent[|sent| - 1].answer.status
  {
    SuccessMeansBody(w, cfg, url);
    RunIsReported(w, cfg, url);
    if Fetched(w, cfg, url).visits != [] {
      LastPassSettles(w, cfg, url);
    }
  }

  lemma LastPassSettles(w: World, cfg: Limits, url: string)
    requires Fetched(w, cfg, url).visits != []
    ensures var vs := Fetched(w, cfg, url).visits;
            var sent := vs[|vs| - 1].sent;
            vs[|vs| - 1].err.None? <==>
              && sent != []
              && var a := sent[|sent| - 1].answer;
                 a.Replies? && |a.body| <= 4_194_304 && 200 <= a.status < 300
  {
    var vs := Fetched(w, cfg, url).visits;
    var n := |vs|;
    if vs[n - 1].sent != [] {
      PassEndsAsAnswered(w, cfg, url, n - 1);
    } else {
      PassIsTold(w, cfg, url, n - 1);
    }
  }

  /** A lookup that times out, then a good reply. */
  function LookupTimesOut(): World {
    QuietWorld((n: nat, h: nat) => if n == 1 then LookupFails(true) else Replies(200, "", "hello", false))
  }

  /** A target whose lookup timed out is filed as blocked, and still tried again. */
  lemma LookupTimeoutIsRetried(url: string)
    ensures var r := Fetched(LookupTimesOut(), DEFAULTS, url);
            && |r.visits| == 2 && r.visits[0].rec.outcome == BlockedTarget
            && r.rec.outcome == Success && r.rec.content == "hello" && r.rec.attempts == 2
  {
    var w := LookupTimesOut();
    var v1 := Walk(w, DEFAULTS, 1, 0, url, FRESH.(attempts := 1), []);
    assert v1.err == Some(Unresolvable(true));
    RetryMakesPass(w, DEFAULTS, url, 1, FRESH, None, [], []);
    var v2 := Walk(w, DEFAULTS, 2, 0, url, v1.rec.(attempts := 2), []);
    assert v2.err.None?;
    RetryMakesPass(w, DEFAULTS, url, 2, v1.rec, v1.err, [] + [v1], []);
  }
}
