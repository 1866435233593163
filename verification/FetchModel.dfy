/** The fetch engine as a function of the world it meets: what the network answers at every
    (attempt, hop), and what the caller's context says at every point where it is consulted. */
module FetchModel {
  import opened Options
  import Backoff

  const MAX_BODY: int := 4 * 1024 * 1024   // bytes; a body is one character per byte

  datatype CtxErr = Canceled | DeadlineExceeded

  datatype FetchError =
    | ContextError(ctx: CtxErr)
    | InvalidUrl
    | Unresolvable(timedOut: bool)   // failed lookup, or a non-public address in the answer
    | UnbuildableRequest
    | Transport(timedOut: bool)
    | BodyRead(timedOut: bool)
    | BodyTooLarge
    | RedirectLimit
    | InvalidLocation
    | Upstream(status: int)
    | UnexpectedStatus(status: int)

  datatype Outcome =
    | Unset | Success | BlockedTarget | BlockedRedirect | TooManyRedirects | Timeout
    | TransportError | HttpError | NonTransientFailure | RetriedExhausted

  datatype Warning =
    | Interrupted(ctx: CtxErr)
    | BadUrlAtHop(hop: nat)
    | BlockedAtHop(hop: nat, url: string)
    | RequestNotBuilt
    | RequestFailed
    | BodyNotRead
    | BodyNotClosed
    | Oversize
    | ChainExceeded(hops: int)
    | BadLocation
    | UpstreamStatus(status: int)
    | StrangeStatus(status: int)
    | Exhausted(attempts: int, last: Option<FetchError>)
    | UrlTextRejected

  /** What one trip to the network yields. The last two happen after the request was sent
      and a status line came back. */
  datatype Answer =
    | LookupFails(timedOut: bool)
    | BuildFails
    | SendFails(timedOut: bool)
    | ReadFails(status: int, timedOut: bool)
    | Replies(status: int, location: string, body: string, closeFails: bool)

  /** Everything outside the engine. The context may be consulted with any outcome at each
      point, so cancellation can fall between any two steps and either side of a race can win. */
  datatype World = World(
    parses: string -> bool,
    resolves: (string, string) -> Option<string>,
    entry: Option<CtxErr>,
    before: nat -> Option<CtxErr>,
    wait: nat -> Option<CtxErr>,
    after: nat -> Option<CtxErr>,
    hop: (nat, nat) -> Answer)

  datatype Config = Config(timeoutMs: int, maxRedirects: int, maxAttempts: int, baseBackoff: int)
  {
    predicate Resolved() {
      timeoutMs > 0 && maxRedirects > 0 && maxAttempts > 0 && 0 < baseBackoff < Backoff.TWO63
    }
  }

  type Limits = c: Config | c.Resolved() witness Config(30000, 5, 3, 200_000_000)

  /** The part of `FetchResponse` the engine writes. */
  datatype Record = Record(status: int, outcome: Outcome, attempts: nat,
                           chain: seq<string>, warnings: seq<Warning>, content: string)
  {
    function Warn(w: Warning): Record { this.(warnings := warnings + [w]) }
    function Ends(o: Outcome): Record { this.(outcome := o) }
  }

  const FRESH := Record(0, Unset, 0, [], [], "")

  /** A request that was sent, and what came of it. */
  datatype Exchange = Exchange(url: string, answer: Answer)

  /** One pass of the redirect loop. */
  datatype Visit = Visit(rec: Record, err: Option<FetchError>, sent: seq<Exchange>)

  /** One call of the retry loop: final record and error, the passes made, the sleeps completed. */
  datatype Run = Run(rec: Record, err: Option<FetchError>, visits: seq<Visit>, slept: seq<int>)

  predicate IsTimeoutErr(e: FetchError) {
    match e
    case ContextError(c) => c == DeadlineExceeded
    case Unresolvable(t) => t
    case Transport(t) => t
    case BodyRead(t) => t
    case _ => false
  }

  predicate Transient(status: int) { status == 429 || 502 <= status <= 504 }

  predicate ShouldRetry(status: int, e: FetchError) {
    IsTimeoutErr(e) || Transient(status)
  }

  function OutcomeFromErr(e: FetchError): Outcome {
    if IsTimeoutErr(e) then Timeout else NonTransientFailure
  }

  function ResolveRedirect(w: World, prev: string, loc: string): Option<string> {
    if "http://" <= loc || "https://" <= loc then Some(loc) else w.resolves(prev, loc)
  }

  predicate IsRedirect(a: Answer) {
    a.Replies? && 300 <= a.status < 400 && a.location != ""
  }

  /** The redirect loop from the given hop on, with the requests already sent in this pass. */
  function Walk(w: World, cfg: Limits, attempt: nat, hop: nat, current: string, rec: Record,
                sent: seq<Exchange>): Visit
    decreases cfg.maxRedirects + 1 - hop
  {
    if hop > cfg.maxRedirects then
      Visit(rec.Ends(TooManyRedirects), Some(RedirectLimit), sent)
    else if !w.parses(current) then
      Visit(rec.Ends(NonTransientFailure).Warn(BadUrlAtHop(hop)), Some(InvalidUrl), sent)
    else
      var answer := w.hop(attempt, hop);
      var sent' := sent + [Exchange(current, answer)];
      match answer
      case LookupFails(t) =>
        Visit(rec.Ends(BlockedTarget).Warn(BlockedAtHop(hop, current)), Some(Unresolvable(t)), sent)
      case BuildFails =>
        Visit(rec.Ends(NonTransientFailure).Warn(RequestNotBuilt), Some(UnbuildableRequest), sent)
      case SendFails(t) =>
        Visit(rec.Ends(if t then Timeout else TransportError).Warn(RequestFailed), Some(Transport(t)), sent')
      case ReadFails(status, t) =>
        Visit(rec.(status := status).Ends(if t then Timeout else TransportError).Warn(BodyNotRead),
              Some(BodyRead(t)), sent')
      case Replies(status, loc, body, closeFails) =>
        var got := Received(rec, status, closeFails);
        if |body| > MAX_BODY then
          Visit(got.Ends(NonTransientFailure).Warn(Oversize), Some(BodyTooLarge), sent')
        else if IsRedirect(answer) then
          var chained := got.(chain := got.chain + [current]);
          if hop == cfg.maxRedirects then
            Visit(chained.Ends(TooManyRedirects).Warn(ChainExceeded(cfg.maxRedirects)), Some(RedirectLimit), sent')
          else (
            match ResolveRedirect(w, current, loc)
            case None => Visit(chained.Ends(NonTransientFailure).Warn(BadLocation), Some(InvalidLocation), sent')
            case Some(next) => Walk(w, cfg, attempt, hop + 1, next, chained, sent'))
        else if 200 <= status < 300 then
          Visit(got.Ends(Success).(content := body), None, sent')
        else if status >= 400 then
          Visit(got.Ends(HttpError).Warn(UpstreamStatus(status)), Some(Upstream(status)), sent')
        else if status < 200 then
          Visit(got.Ends(NonTransientFailure).Warn(StrangeStatus(status)), Some(UnexpectedStatus(status)), sent')
        else
          Walk(w, cfg, attempt, hop + 1, current, got, sent')
  }

  function Received(rec: Record, status: int, closeFails: bool): Record {
    var got := rec.(status := status);
    if closeFails then got.Warn(BodyNotClosed) else got
  }

  function Stopped(rec: Record, c: CtxErr, visits: seq<Visit>, slept: seq<int>): Run {
    Run(rec.Ends(Timeout).Warn(Interrupted(c)), Some(ContextError(c)), visits, slept)
  }

  /** The retry loop from the given attempt on. */
  function Retry(w: World, cfg: Limits, url: string, attempt: nat, rec: Record,
                 last: Option<FetchError>, visits: seq<Visit>, slept: seq<int>): Run
    requires attempt >= 1
    decreases cfg.maxAttempts + 1 - attempt
  {
    if attempt > cfg.maxAttempts then
      if last.Some? && IsTimeoutErr(last.value) then
        Run(rec.Ends(Timeout), last, visits, slept)
      else
        Run(rec.Ends(RetriedExhausted).Warn(Exhausted(cfg.maxAttempts, last)), last, visits, slept)
    else
      var numbered := rec.(attempts := attempt);
      if w.before(attempt).Some? then
        Stopped(numbered, w.before(attempt).value, visits, slept)
      else if attempt > 1 && w.wait(attempt).Some? then
        Stopped(numbered, w.wait(attempt).value, visits, slept)
      else
        var slept' := if attempt > 1 then slept + [Backoff.Delay64(cfg.baseBackoff, attempt)] else slept;
        var v := Walk(w, cfg, attempt, 0, url, numbered, []);
        var visits' := visits + [v];
        if w.after(attempt) == Some(Canceled) then
          Stopped(v.rec, Canceled, visits', slept')
        else if v.err.None? then
          Run(v.rec, None, visits', slept')
        else if !ShouldRetry(v.rec.status, v.err.value) then
          Run(if v.rec.outcome == Unset then v.rec.Ends(OutcomeFromErr(v.err.value)) else v.rec,
              v.err, visits', slept')
        else
          Retry(w, cfg, url, attempt + 1, v.rec, v.err, visits', slept')
  }

  /** A whole call on a fresh response: the slot wait, then the retry loop. */
  function Fetched(w: World, cfg: Limits, url: string): Run {
    match w.entry
    case Some(c) => Stopped(FRESH, c, [], [])
    case None => Retry(w, cfg, url, 1, FRESH, None, [], [])
  }
}
