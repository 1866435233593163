/** Link checking as a step system: a producer, up to eight workers on an unbuffered job
    channel, a pacing ticker, the fetcher's slots, and everyone else who uses them. Each
    label is one atomic step; any enabled label may fire next. */
module LinkPool {
  import opened Options
  import opened FetchModel
  import opened FetchTheorems

  const MAX_URLS: nat := 100
  const MAX_SLOTS: nat := 8

  /** One entry of the answer. `failed` is the presence of the "error" key. */
  datatype LinkResult = LinkResult(url: string, valid: bool, status: int, failed: bool)

  /** `begun` is what the context was when the slot was taken; done contexts stay done. */
  datatype Worker =
    | Idle                                // receiving from the job channel
    | Choosing(job: nat)                  // select: cancellation or the next tick
    | Queued(job: nat)                    // select: a fetch slot or cancellation
    | Fetching(job: nat, begun: Option<CtxErr>)   // inside the retry loop, holding a slot
    | Storing(job: nat, result: LinkResult)
    | Gone
  {
    predicate Busy() { !Idle? && !Gone? }
  }

  datatype Pool = Pool(
    urls: seq<string>,
    next: nat,                            // jobs handed out so far
    closed: bool,
    workers: seq<Worker>,
    results: seq<Option<LinkResult>>,
    slots: nat,                           // slots in use, by anyone
    others: nat,                          // slots held outside this call
    canceled: Option<CtxErr>,
    tick: bool,                           // a tick waits in the ticker's channel
    ticks: nat,                           // ticks emitted so far
    paced: nat,                           // ticks consumed so far
    returned: bool)

  datatype Label =
    | Send(k: nat) | Close | Leave(k: nat) | Return
    | TakeTick(k: nat, allowed: bool) | SeeCancel(k: nat)
    | Acquire(k: nat) | Abandon(k: nat) | Finish(k: nat, world: World) | Store(k: nat)
    | Tick | Cancel(c: CtxErr) | OtherAcquire | OtherRelease
  {
    /** A step of this call, as opposed to one of its environment. */
    predicate Ours() { !Tick? && !Cancel? && !OtherAcquire? && !OtherRelease? }
  }

  /** What a worker stores after its fetch. */
  function FetchedLink(url: string, r: Run): LinkResult {
    LinkResult(url, r.err.None? && r.rec.status < 400, r.rec.status, r.rec.outcome != Success)
  }

  function Unfetched(url: string): LinkResult { LinkResult(url, false, 0, true) }

  predicate Enabled(cfg: Limits, s: Pool, l: Label) {
    match l
    case Send(k) => k < |s.workers| && s.workers[k].Idle? && s.next < |s.urls|
    case Close => !s.closed && s.next == |s.urls|
    case Leave(k) => k < |s.workers| && s.workers[k].Idle? && s.closed
    case Return => !s.returned && s.closed && forall k :: 0 <= k < |s.workers| ==> s.workers[k].Gone?
    case TakeTick(k, _) => k < |s.workers| && s.workers[k].Choosing? && s.tick
    case SeeCancel(k) => k < |s.workers| && s.workers[k].Choosing? && s.canceled.Some?
    case Acquire(k) => k < |s.workers| && s.workers[k].Queued? && s.slots < MAX_SLOTS
    case Abandon(k) => k < |s.workers| && s.workers[k].Queued? && s.canceled.Some?
    case Finish(k, world) =>
      && k < |s.workers| && s.workers[k].Fetching? && s.slots > 0
      && world.entry.None? && (s.workers[k].begun.Some? ==> world.before(1) == s.workers[k].begun)
    case Store(k) => k < |s.workers| && s.workers[k].Storing?
    case Tick => true
    case Cancel(_) => s.canceled.None?
    case OtherAcquire => s.slots < MAX_SLOTS
    case OtherRelease => s.others > 0 && s.slots > 0
  }

  /** Indices in play are in range, so every step below is defined. */
  predicate InRange(s: Pool) {
    && |s.results| == |s.urls|
    && s.next <= |s.urls|
    && forall k :: 0 <= k < |s.workers| && s.workers[k].Busy() ==> s.workers[k].job < |s.urls|
  }

  function Put(s: Pool, k: nat, w: Worker): Pool
    requires k < |s.workers|
  {
    s.(workers := s.workers[k := w])
  }

  function Apply(cfg: Limits, s: Pool, l: Label): Pool
    requires InRange(s) && Enabled(cfg, s, l)
  {
    match l
    case Send(k) => Put(s, k, Choosing(s.next)).(next := s.next + 1)
    case Close => s.(closed := true)
    case Leave(k) => Put(s, k, Gone)
    case Return => s.(returned := true)
    case TakeTick(k, allowed) =>
      var i := s.workers[k].job;
      Put(s, k, if allowed then Queued(i) else Storing(i, Unfetched(s.urls[i]))).(tick := false, paced := s.paced + 1)
    case SeeCancel(k) =>
      var i := s.workers[k].job;
      Put(s, k, Storing(i, Unfetched(s.urls[i])))
    case Acquire(k) =>
      Put(s, k, Fetching(s.workers[k].job, s.canceled)).(slots := s.slots + 1)
    case Abandon(k) =>
      var i := s.workers[k].job;
      Put(s, k, Storing(i, FetchedLink(s.urls[i], Stopped(FRESH, s.canceled.value, [], []))))
    case Finish(k, world) =>
      var i := s.workers[k].job;
      Put(s, k, Storing(i, FetchedLink(s.urls[i], Fetched(world, cfg, s.urls[i])))).(slots := s.slots - 1)
    case Store(k) =>
      var w := s.workers[k];
      Put(s, k, Idle).(results := s.results[w.job := Some(w.result)])
    case Tick => s.(tick := true, ticks := s.ticks + 1)
    case Cancel(c) => s.(canceled := Some(c))
    case OtherAcquire => s.(slots := s.slots + 1, others := s.others + 1)
    case OtherRelease => s.(slots := s.slots - 1, others := s.others - 1)
  }

  // ---- counting over workers -------------------------------------------------------------

  function Total(ws: seq<Worker>, f: Worker -> nat): nat {
    if ws == [] then 0 else Total(ws[..|ws| - 1], f) + f(ws[|ws| - 1])
  }

  lemma {:induction false} TotalUpdate(ws: seq<Worker>, k: nat, w: Worker, f: Worker -> nat)
    requires k < |ws|
    ensures Total(ws[k := w], f) + f(ws[k]) == Total(ws, f) + f(w)
    ensures f(ws[k]) <= Total(ws, f)
  {
    var last := |ws| - 1;
    if k == last {
      assert ws[k := w][..last] == ws[..last];
    } else {
      TotalUpdate(ws[..last], k, w, f);
      assert ws[k := w][..last] == ws[..last][k := w];
    }
  }

  lemma {:induction false} TotalZero(ws: seq<Worker>, f: Worker -> nat)
    requires forall k :: 0 <= k < |ws| ==> f(ws[k]) == 0
    ensures Total(ws, f) == 0
  {
    if ws != [] {
      TotalZero(ws[..|ws| - 1], f);
    }
  }

  lemma {:induction false} TotalPositive(ws: seq<Worker>, f: Worker -> nat) returns (k: nat)
    requires Total(ws, f) > 0
    ensures k < |ws| && f(ws[k]) > 0
  {
    if f(ws[|ws| - 1]) > 0 {
      k := |ws| - 1;
    } else {
      k := TotalPositive(ws[..|ws| - 1], f);
    }
  }

  function InFetch(w: Worker): nat { if w.Fetching? then 1 else 0 }

  /** Steps a worker still has to take before it is gone, one job at a time. */
  function Left(w: Worker): nat {
    match w
    case Gone => 0
    case Idle => 1
    case Storing(_, _) => 2
    case Fetching(_, _) => 3
    case Queued(_) => 4
    case Choosing(_) => 5
  }

  // ---- the invariant ---------------------------------------------------------------------

  ghost predicate HeldBy(s: Pool, k: nat, i: nat) {
    k < |s.workers| && s.workers[k].Busy() && s.workers[k].job == i
  }

  ghost predicate Held(s: Pool, i: nat) {
    exists k :: HeldBy(s, k, i)
  }

  /** A stored answer names its URL, and is valid exactly when no error is attached. */
  predicate Sound(s: Pool, i: nat, r: LinkResult) {
    && i < |s.urls| && r.url == s.urls[i]
    && r.valid == !r.failed
    && (r.valid ==> 200 <= r.status < 300)
  }

  /** Every index is unsent, held by exactly one worker, or stored. */
  ghost predicate Partitioned(s: Pool)
    requires InRange(s)
  {
    && (forall i :: s.next <= i < |s.urls| ==> s.results[i].None?)
    && (forall i :: 0 <= i < s.next ==> (s.results[i].Some? <==> !Held(s, i)))
    && (forall k :: 0 <= k < |s.workers| && s.workers[k].Busy() ==> s.workers[k].job < s.next)
    && (forall k, m | 0 <= k < m < |s.workers| && s.workers[k].Busy() && s.workers[m].Busy() ::
          s.workers[k].job != s.workers[m].job)
  }

  /** Every answer, stored or about to be, is a sound one. */
  ghost predicate AllSound(s: Pool)
    requires InRange(s)
  {
    && (forall i :: 0 <= i < |s.results| && s.results[i].Some? ==> Sound(s, i, s.results[i].value))
    && (forall k :: 0 <= k < |s.workers| && s.workers[k].Storing? ==> Sound(s, s.workers[k].job, s.workers[k].result))
  }

  /** Workers leave only once the channel is closed, which is after the last job; the call
      returns only once they have all left. */
  predicate Orderly(s: Pool) {
    && (s.urls != [] ==> s.workers != []) && |s.workers| <= MAX_SLOTS
    && (s.closed ==> s.next == |s.urls|)
    && (forall k :: 0 <= k < |s.workers| && s.workers[k].Gone? ==> s.closed)
    && (s.returned ==> s.closed && forall k :: 0 <= k < |s.workers| ==> s.workers[k].Gone?)
  }

  /** Every slot in use is a fetching worker's or an outsider's, and never more than eight
      are; and no more fetches were let through than ticks came. */
  predicate Accounted(s: Pool) {
    && s.slots == Total(s.workers, InFetch) + s.others <= MAX_SLOTS
    && s.paced + (if s.tick then 1 else 0) <= s.ticks
  }

  ghost predicate Inv(s: Pool) {
    InRange(s) && Partitioned(s) && AllSound(s) && Orderly(s) && Accounted(s)
  }

  /** The call's first lines: too many URLs are refused, else at most eight workers start. */
  ghost function Start(urls: seq<string>, others: nat): (s: Option<Pool>)
    requires others <= MAX_SLOTS
    ensures s.None? <==> |urls| > 100
    ensures s.Some? ==>
              && Inv(s.value) && s.value.urls == urls && !s.value.returned && s.value.canceled.None?
              && |s.value.workers| == (if |urls| < 8 then |urls| else 8)
              && s.value.slots == s.value.others == others
  {
    if |urls| > MAX_URLS then None
    else
      var workers := seq(if |urls| < MAX_SLOTS then |urls| else MAX_SLOTS, _ => Idle);
      TotalZero(workers, InFetch);
      Some(Pool(urls, 0, false, workers, seq(|urls|, _ => None), others, others, None, false, 0, 0, false))
  }

  /** Moving one worker to a state that holds the same job leaves the partition alone. */
  lemma KeepsJob(s: Pool, k: nat, w: Worker)
    requires InRange(s) && Partitioned(s) && k < |s.workers|
    requires s.workers[k].Busy() && w.Busy() && w.job == s.workers[k].job
    ensures InRange(Put(s, k, w)) && Partitioned(Put(s, k, w))
  {
    var t := Put(s, k, w);
    forall i | 0 <= i < s.next
      ensures Held(t, i) <==> Held(s, i)
    {
      forall m | HeldBy(s, m, i) || HeldBy(t, m, i)
        ensures HeldBy(s, m, i) && HeldBy(t, m, i)
      {
      }
    }
  }

  lemma SendKeepsPartition(s: Pool, k: nat)
    requires InRange(s) && Partitioned(s) && k < |s.workers| && s.workers[k].Idle? && s.next < |s.urls|
    ensures var t := Put(s, k, Choosing(s.next)).(next := s.next + 1); InRange(t) && Partitioned(t)
  {
    var t := Put(s, k, Choosing(s.next)).(next := s.next + 1);
    assert HeldBy(t, k, s.next);
    forall i | 0 <= i < s.next
      ensures Held(t, i) <==> Held(s, i)
    {
      forall m | HeldBy(s, m, i) || HeldBy(t, m, i)
        ensures HeldBy(s, m, i) && HeldBy(t, m, i)
      {
      }
    }
  }

  lemma StoreKeepsPartition(s: Pool, k: nat)
    requires InRange(s) && Partitioned(s) && k < |s.workers| && s.workers[k].Storing?
    ensures var w := s.workers[k];
            var t := Put(s, k, Idle).(results := s.results[w.job := Some(w.result)]);
            && InRange(t) && Partitioned(t) && s.results[w.job].None?
  {
    var w := s.workers[k];
    var t := Put(s, k, Idle).(results := s.results[w.job := Some(w.result)]);
    assert HeldBy(s, k, w.job);
    forall i | 0 <= i < s.next && i != w.job
      ensures Held(t, i) <==> Held(s, i)
    {
      forall m | HeldBy(s, m, i) || HeldBy(t, m, i)
        ensures HeldBy(s, m, i) && HeldBy(t, m, i)
      {
      }
    }
  }

  lemma EnvironmentKeepsPartition(s: Pool, t: Pool)
    requires InRange(s) && Partitioned(s)
    requires t.workers == s.workers && t.results == s.results && t.next == s.next && t.urls == s.urls
    ensures InRange(t) && Partitioned(t)
  {
    forall i, k
      ensures HeldBy(t, k, i) <==> HeldBy(s, k, i)
    {
    }
  }

  lemma LeaveKeepsPartition(s: Pool, k: nat)
    requires InRange(s) && Partitioned(s) && k < |s.workers| && s.workers[k].Idle?
    ensures InRange(Put(s, k, Gone)) && Partitioned(Put(s, k, Gone))
  {
    forall i, m
      ensures HeldBy(Put(s, k, Gone), m, i) <==> HeldBy(s, m, i)
    {
    }
  }

  predicate Moves(l: Label) { l.TakeTick? || l.SeeCancel? || l.Acquire? || l.Abandon? || l.Finish? }

  predicate ByWorker(l: Label) { Moves(l) || l.Send? || l.Leave? || l.Store? }

  lemma MoveKeepsJob(cfg: Limits, s: Pool, l: Label)
    requires InRange(s) && Enabled(cfg, s, l) && Moves(l)
    ensures var t := Apply(cfg, s, l);
            && l.k < |s.workers| == |t.workers|
            && s.workers[l.k].Busy() && t.workers[l.k].Busy() && t.workers[l.k].job == s.workers[l.k].job
            && t.workers == s.workers[l.k := t.workers[l.k]]
            && t.results == s.results && t.next == s.next && t.urls == s.urls
  {
  }

  lemma StepKeepsPartition(cfg: Limits, s: Pool, l: Label)
    requires InRange(s) && Partitioned(s) && Enabled(cfg, s, l)
    ensures InRange(Apply(cfg, s, l)) && Partitioned(Apply(cfg, s, l))
  {
    if l.Send? {
      SendKeepsPartition(s, l.k);
    } else if l.Leave? {
      LeaveKeepsPartition(s, l.k);
    } else if l.Store? {
      StoreKeepsPartition(s, l.k);
    } else if Moves(l) {
      MoveKeepsPartition(cfg, s, l);
    } else {
      EnvironmentKeepsPartition(s, Apply(cfg, s, l));
    }
  }

  lemma MoveKeepsPartition(cfg: Limits, s: Pool, l: Label)
    requires InRange(s) && Partitioned(s) && Enabled(cfg, s, l) && Moves(l)
    ensures InRange(Apply(cfg, s, l)) && Partitioned(Apply(cfg, s, l))
  {
    var t := Apply(cfg, s, l);
    MoveKeepsJob(cfg, s, l);
    KeepsJob(s, l.k, t.workers[l.k]);
    EnvironmentKeepsPartition(Put(s, l.k, t.workers[l.k]), t);
  }

  /** The answer a worker is left holding is a sound one. */
  lemma NewAnswerIsSound(cfg: Limits, s: Pool, l: Label)
    requires InRange(s) && Enabled(cfg, s, l) && Moves(l) && Apply(cfg, s, l).workers[l.k].Storing?
    ensures var w := Apply(cfg, s, l).workers[l.k]; w.job == s.workers[l.k].job && Sound(s, w.job, w.result)
  {
    if l.Finish? {
      SuccessMeansBody(l.world, cfg, s.urls[s.workers[l.k].job]);
    }
  }

  /** One worker changed, to something whose answer, if any, is sound. */
  lemma SoundAfterMove(s: Pool, t: Pool, k: nat)
    requires InRange(s) && AllSound(s) && k < |s.workers| == |t.workers|
    requires t.urls == s.urls && t.results == s.results && InRange(t)
    requires forall m :: 0 <= m < |s.workers| && m != k ==> t.workers[m] == s.workers[m]
    requires t.workers[k].Storing? ==> Sound(s, t.workers[k].job, t.workers[k].result)
    ensures AllSound(t)
  {
  }

  lemma SoundAfterStore(s: Pool, t: Pool, k: nat)
    requires InRange(s) && AllSound(s) && k < |s.workers| && s.workers[k].Storing?
    requires t.urls == s.urls && t.workers == s.workers[k := Idle]
    requires t.results == s.results[s.workers[k].job := Some(s.workers[k].result)]
    ensures InRange(t.(next := s.next)) && AllSound(t.(next := s.next))
  {
  }

  /** What each step does outside the worker that takes it. */
  lemma Frame(cfg: Limits, s: Pool, l: Label)
    requires InRange(s) && Enabled(cfg, s, l)
    ensures var t := Apply(cfg, s, l);
            && t.urls == s.urls && |t.workers| == |s.workers|
            && (ByWorker(l) ==> l.k < |s.workers| && t.workers == s.workers[l.k := t.workers[l.k]])
            && (!ByWorker(l) ==> t.workers == s.workers)
            && (!l.Store? ==> t.results == s.results)
  {
  }

  lemma StepKeepsSound(cfg: Limits, s: Pool, l: Label)
    requires InRange(s) && AllSound(s) && Enabled(cfg, s, l) && InRange(Apply(cfg, s, l))
    ensures AllSound(Apply(cfg, s, l))
  {
    Frame(cfg, s, l);
    var t := Apply(cfg, s, l);
    if l.Store? {
      SoundAfterStore(s, t, l.k);
    } else if ByWorker(l) {
      if Moves(l) && t.workers[l.k].Storing? {
        NewAnswerIsSound(cfg, s, l);
      }
      SoundAfterMove(s, t, l.k);
    }
  }

  lemma StepKeepsOrder(cfg: Limits, s: Pool, l: Label)
    requires InRange(s) && Orderly(s) && Enabled(cfg, s, l)
    ensures Orderly(Apply(cfg, s, l))
  {
    var t := Apply(cfg, s, l);
    if ByWorker(l) {
      assert forall k :: 0 <= k < |s.workers| && k != l.k ==> t.workers[k] == s.workers[k];
    }
  }

  /** A worker's step moves the slot count by exactly what it moves that worker's fetching. */
  lemma SlotsFollowWorker(cfg: Limits, s: Pool, l: Label)
    requires InRange(s) && Enabled(cfg, s, l) && ByWorker(l)
    ensures var t := Apply(cfg, s, l);
            && l.k < |s.workers| == |t.workers|
            && t.slots + InFetch(s.workers[l.k]) == s.slots + InFetch(t.workers[l.k])
            && t.others == s.others && (t.slots > s.slots ==> s.slots < MAX_SLOTS)
            && t.ticks == s.ticks
            && t.paced + (if t.tick then 1 else 0) == s.paced + (if s.tick then 1 else 0)
  {
  }

  lemma StepKeepsAccounts(cfg: Limits, s: Pool, l: Label)
    requires InRange(s) && Accounted(s) && Enabled(cfg, s, l)
    ensures Accounted(Apply(cfg, s, l))
  {
    Frame(cfg, s, l);
    if ByWorker(l) {
      SlotsFollowWorker(cfg, s, l);
      TotalUpdate(s.workers, l.k, Apply(cfg, s, l).workers[l.k], InFetch);
    }
  }

  /** Every step keeps the invariant. */
  lemma StepKeepsInv(cfg: Limits, s: Pool, l: Label)
    requires Inv(s) && Enabled(cfg, s, l)
    ensures Inv(Apply(cfg, s, l))
    ensures Apply(cfg, s, l).slots <= 8 && |Apply(cfg, s, l).workers| <= 8
  {
    StepKeepsPartition(cfg, s, l);
    StepKeepsSound(cfg, s, l);
    StepKeepsOrder(cfg, s, l);
    StepKeepsAccounts(cfg, s, l);
  }

  // ---- whole runs ------------------------------------------------------------------------

  /** The state after a sequence of steps, if each was enabled in turn. */
  ghost function Exec(cfg: Limits, s: Pool, ls: seq<Label>): Option<Pool>
    requires Inv(s)
    ensures Exec(cfg, s, ls).Some? ==> Inv(Exec(cfg, s, ls).value)
    decreases |ls|
  {
    if ls == [] then Some(s)
    else if !Enabled(cfg, s, ls[0]) then None
    else
      StepKeepsInv(cfg, s, ls[0]);
      Exec(cfg, Apply(cfg, s, ls[0]), ls[1..])
  }

  ghost function OursIn(ls: seq<Label>): nat {
    if ls == [] then 0 else (if ls[0].Ours() then 1 else 0) + OursIn(ls[1..])
  }

  ghost function StoresIn(ls: seq<Label>): nat {
    if ls == [] then 0 else (if ls[0].Store? then 1 else 0) + StoresIn(ls[1..])
  }

  /** Steps of our own still to come, whatever the environment does. */
  ghost function Measure(s: Pool): nat
    requires InRange(s)
  {
    5 * (|s.urls| - s.next) + Total(s.workers, Left) + (if s.closed then 0 else 1) + (if s.returned then 0 else 1)
  }

  /** A worker's step leaves it, with the jobs not yet sent, less to do. */
  lemma WorkerHasLess(cfg: Limits, s: Pool, l: Label)
    requires InRange(s) && Enabled(cfg, s, l) && ByWorker(l)
    ensures var t := Apply(cfg, s, l);
            && l.k < |s.workers| == |t.workers|
            && s.next <= t.next && t.closed == s.closed && t.returned == s.returned
            && Left(t.workers[l.k]) + 1 <= Left(s.workers[l.k]) + 5 * (t.next - s.next)
  {
  }

  lemma WorkerStepLowersMeasure(cfg: Limits, s: Pool, l: Label)
    requires InRange(s) && Enabled(cfg, s, l) && ByWorker(l) && InRange(Apply(cfg, s, l))
    ensures Measure(Apply(cfg, s, l)) + 1 <= Measure(s)
  {
    Frame(cfg, s, l);
    WorkerHasLess(cfg, s, l);
    TotalUpdate(s.workers, l.k, Apply(cfg, s, l).workers[l.k], Left);
  }

  /** Each of our steps lowers the measure; the environment's never raise it. */
  lemma StepLowersMeasure(cfg: Limits, s: Pool, l: Label)
    requires InRange(s) && Enabled(cfg, s, l)
    requires InRange(Apply(cfg, s, l))
    ensures Measure(Apply(cfg, s, l)) + (if l.Ours() then 1 else 0) <= Measure(s)
  {
    if ByWorker(l) {
      WorkerStepLowersMeasure(cfg, s, l);
    }
  }

  function Filled(rs: seq<Option<LinkResult>>): nat {
    if rs == [] then 0 else Filled(rs[..|rs| - 1]) + (if rs[|rs| - 1].Some? then 1 else 0)
  }

  lemma {:induction false} FilledUpdate(rs: seq<Option<LinkResult>>, i: nat, r: LinkResult)
    requires i < |rs| && rs[i].None?
    ensures Filled(rs[i := Some(r)]) == Filled(rs) + 1
  {
    var last := |rs| - 1;
    if i == last {
      assert rs[i := Some(r)][..last] == rs[..last];
    } else {
      FilledUpdate(rs[..last], i, r);
      assert rs[i := Some(r)][..last] == rs[..last][i := Some(r)];
    }
  }

  lemma {:induction false} AllFilled(rs: seq<Option<LinkResult>>)
    requires forall i :: 0 <= i < |rs| ==> rs[i].Some?
    ensures Filled(rs) == |rs|
  {
    if rs != [] {
      AllFilled(rs[..|rs| - 1]);
    }
  }

  /** A step writes at most one answer, only where there was none, and only in Store. */
  lemma StepWritesOnce(cfg: Limits, s: Pool, l: Label)
    requires Inv(s) && Enabled(cfg, s, l)
    ensures var t := Apply(cfg, s, l);
            && t.urls == s.urls && |t.results| == |s.results|
            && (forall i :: 0 <= i < |s.results| && s.results[i].Some? ==> t.results[i] == s.results[i])
            && Filled(t.results) == Filled(s.results) + (if l.Store? then 1 else 0)
  {
    if l.Store? {
      StoreKeepsPartition(s, l.k);
      var w := s.workers[l.k];
      FilledUpdate(s.results, w.job, w.result);
    }
  }

  /** Over any run: our steps are paid for by the measure, answers once written stay, and
      each Store accounts for exactly one of them. */
  lemma {:induction false} RunFacts(cfg: Limits, s: Pool, ls: seq<Label>)
    requires Inv(s) && Exec(cfg, s, ls).Some?
    ensures var t := Exec(cfg, s, ls).value;
            && Measure(t) + OursIn(ls) <= Measure(s)
            && t.urls == s.urls && |t.results| == |s.results|
            && (forall i :: 0 <= i < |s.results| && s.results[i].Some? ==> t.results[i] == s.results[i])
            && Filled(t.results) == Filled(s.results) + StoresIn(ls)
    decreases |ls|
  {
    if ls != [] {
      StepKeepsInv(cfg, s, ls[0]);
      StepLowersMeasure(cfg, s, ls[0]);
      StepWritesOnce(cfg, s, ls[0]);
      RunFacts(cfg, Apply(cfg, s, ls[0]), ls[1..]);
    }
  }

  /** When the call returns, every slot it took is back, every answer is stored, exactly one
      Store was made per URL, and the answer for each URL is a sound one. */
  lemma ReturnedIsComplete(cfg: Limits, urls: seq<string>, others: nat, ls: seq<Label>)
    requires others <= MAX_SLOTS && |urls| <= MAX_URLS
    requires var e := Exec(cfg, Start(urls, others).value, ls); e.Some? && e.value.returned
    ensures var t := Exec(cfg, Start(urls, others).value, ls).value;
            && t.slots == t.others
            && |t.results| == |urls| == StoresIn(ls)
            && OursIn(ls) <= 5 * |urls| + 10
            && forall i :: 0 <= i < |urls| ==>
                 && t.results[i].Some? && t.results[i].value.url == urls[i]
                 && t.results[i].value.valid == !t.results[i].value.failed
                 && (t.results[i].value.valid ==> 200 <= t.results[i].value.status < 300)
  {
    var s := Start(urls, others).value;
    var t := Exec(cfg, s, ls).value;
    RunFacts(cfg, s, ls);
    TotalZero(t.workers, InFetch);
    forall i | 0 <= i < |urls|
      ensures t.results[i].Some?
    {
      assert !Held(t, i);
    }
    AllFilled(t.results);
    NoneFilled(s.results);
    IdleTotal(s.workers);
  }

  lemma {:induction false} NoneFilled(rs: seq<Option<LinkResult>>)
    requires forall i :: 0 <= i < |rs| ==> rs[i].None?
    ensures Filled(rs) == 0
  {
    if rs != [] {
      NoneFilled(rs[..|rs| - 1]);
    }
  }

  lemma {:induction false} IdleTotal(ws: seq<Worker>)
    requires forall k :: 0 <= k < |ws| ==> ws[k].Idle?
    ensures Total(ws, Left) == |ws|
  {
    if ws != [] {
      IdleTotal(ws[..|ws| - 1]);
    }
  }

  // ---- what cancellation buys ------------------------------------------------------------

  /** Index i can only get an error: the call is canceled, and no fetch of it begun before
      that, nor an answer other than an error, is anywhere. */
  predicate Doomed(s: Pool, i: nat)
    requires InRange(s) && i < |s.urls|
  {
    && s.canceled.Some?
    && (s.results[i].Some? ==> s.results[i].value.failed)
    && forall k :: 0 <= k < |s.workers| ==> DoomedWorker(s.workers[k], i)
  }

  predicate DoomedWorker(w: Worker, i: nat) {
    && (w.Storing? && w.job == i ==> w.result.failed)
    && (w.Fetching? && w.job == i ==> w.begun.Some?)
  }

  /** A fetch begun under a done context makes no request and fails. */
  lemma CanceledFetchFails(cfg: Limits, world: World, url: string, c: CtxErr)
    requires world.entry.None? && world.before(1) == Some(c)
    ensures var r := Fetched(world, cfg, url);
            r.visits == [] && r.err == Some(ContextError(c)) && FetchedLink(url, r).failed
  {
  }

  /** The one worker a step moves stays doomed. */
  lemma DoomedWorkerStays(cfg: Limits, s: Pool, l: Label, i: nat)
    requires Inv(s) && Enabled(cfg, s, l) && ByWorker(l) && i < |s.urls| && Doomed(s, i)
    ensures DoomedWorker(Apply(cfg, s, l).workers[l.k], i)
  {
    if l.Finish? && s.workers[l.k].job == i {
      CanceledFetchFails(cfg, l.world, s.urls[i], s.workers[l.k].begun.value);
    }
  }

  lemma StepKeepsDoomed(cfg: Limits, s: Pool, l: Label, i: nat)
    requires Inv(s) && Enabled(cfg, s, l) && i < |s.urls| && Doomed(s, i)
    ensures Inv(Apply(cfg, s, l)) && Apply(cfg, s, l).urls == s.urls && Doomed(Apply(cfg, s, l), i)
  {
    StepKeepsInv(cfg, s, l);
    Frame(cfg, s, l);
    var t := Apply(cfg, s, l);
    if ByWorker(l) {
      DoomedWorkerStays(cfg, s, l, i);
    }
    if l.Store? {
      assert DoomedWorker(s.workers[l.k], i);
    }
    forall k | 0 <= k < |t.workers|
      ensures DoomedWorker(t.workers[k], i)
    {
      if !ByWorker(l) || k != l.k {
        assert t.workers[k] == s.workers[k];
      }
    }
  }

  /** Once the call is canceled, whatever happens then, an index not yet sent gets an error,
      and so does any other no fetch of which had begun. */
  lemma {:induction false} NothingNewSucceedsAfterCancel(cfg: Limits, s: Pool, ls: seq<Label>, i: nat)
    requires Inv(s) && i < |s.urls| && Exec(cfg, s, ls).Some?
    requires s.canceled.Some? && (s.next <= i || Doomed(s, i))
    ensures var u := Exec(cfg, s, ls).value;
            u.urls == s.urls && Doomed(u, i) && (u.results[i].Some? ==> u.results[i].value.failed)
    decreases |ls|
  {
    if s.next <= i {
      forall k | 0 <= k < |s.workers|
        ensures DoomedWorker(s.workers[k], i)
      {
      }
    }
    if ls != [] {
      StepKeepsDoomed(cfg, s, ls[0], i);
      NothingNewSucceedsAfterCancel(cfg, Apply(cfg, s, ls[0]), ls[1..], i);
    }
  }

  // ---- no deadlock -----------------------------------------------------------------------

  ghost predicate CanMove(cfg: Limits, s: Pool) {
    exists l: Label :: l.Ours() && Enabled(cfg, s, l)
  }

  /** A step of ours can be taken now, or right after a tick, or right after another slot
      user lets go; those two events need nothing from this call. */
  ghost predicate Live(cfg: Limits, s: Pool)
    requires InRange(s)
  {
    || CanMove(cfg, s)
    || CanMove(cfg, Apply(cfg, s, Tick))
    || (Enabled(cfg, s, OtherRelease) && CanMove(cfg, Apply(cfg, s, OtherRelease)))
  }

  /** Until it returns, the call can always move. */
  lemma NeverStuck(cfg: Limits, s: Pool)
    requires Inv(s) && !s.returned
    ensures Live(cfg, s)
  {
    if busy :| 0 <= busy < |s.workers| && s.workers[busy].Busy() {
      match s.workers[busy]
      case Storing(_, _) => assert Enabled(cfg, s, Store(busy));
      case Fetching(_, _) => FetchingCanFinish(cfg, s, busy);
      case Choosing(_) => assert Enabled(cfg, Apply(cfg, s, Tick), TakeTick(busy, true));
      case Queued(_) =>
        if s.slots < MAX_SLOTS {
          assert Enabled(cfg, s, Acquire(busy));
        } else if s.others > 0 {
          assert Enabled(cfg, Apply(cfg, s, OtherRelease), Acquire(busy));
        } else {
          var k := TotalPositive(s.workers, InFetch);
          FetchingCanFinish(cfg, s, k);
        }
    } else {
      NobodyBusyCanMove(cfg, s);
    }
  }

  lemma NobodyBusyCanMove(cfg: Limits, s: Pool)
    requires Inv(s) && !s.returned && forall k :: 0 <= k < |s.workers| ==> !s.workers[k].Busy()
    ensures CanMove(cfg, s)
  {
    if s.next < |s.urls| {
      assert s.workers[0].Idle?;
      assert Enabled(cfg, s, Send(0));
    } else if !s.closed {
      assert Enabled(cfg, s, Close);
    } else if idle :| 0 <= idle < |s.workers| && s.workers[idle].Idle? {
      assert Enabled(cfg, s, Leave(idle));
    } else {
      assert Enabled(cfg, s, Return);
    }
  }

  /** Once canceled, the call needs no tick and nobody else's slot. */
  lemma CanceledNeverWaits(cfg: Limits, s: Pool)
    requires Inv(s) && !s.returned && s.canceled.Some?
    ensures CanMove(cfg, s)
  {
    if busy :| 0 <= busy < |s.workers| && s.workers[busy].Busy() {
      match s.workers[busy]
      case Storing(_, _) => assert Enabled(cfg, s, Store(busy));
      case Fetching(_, _) => FetchingCanFinish(cfg, s, busy);
      case Choosing(_) => assert Enabled(cfg, s, SeeCancel(busy));
      case Queued(_) => assert Enabled(cfg, s, Abandon(busy));
    } else {
      NobodyBusyCanMove(cfg, s);
    }
  }

  lemma FetchingCanFinish(cfg: Limits, s: Pool, k: nat)
    requires Inv(s) && k < |s.workers| && s.workers[k].Fetching?
    ensures CanMove(cfg, s)
  {
    TotalUpdate(s.workers, k, Gone, InFetch);
    var hop: (nat, nat) -> Answer := (n: nat, h: nat) => BuildFails;
    var begun := s.workers[k].begun;
    assert Enabled(cfg, s, Finish(k, QuietWorld(hop).(before := (n: nat) => begun)));
  }

  /** Each worker goes on by itself: when idle as soon as a job is left, choosing on a tick or a
      cancel, queued on a free slot or a cancel, fetching whatever the network answered, and
      storing at once. */
  lemma EachWorkerGoesOn(cfg: Limits, s: Pool, k: nat, allowed: bool, world: World)
    requires Inv(s) && k < |s.workers| && world.entry.None?
    ensures match s.workers[k]
            case Idle =>
              && (Enabled(cfg, s, Send(k)) <==> s.next < |s.urls|) && (Enabled(cfg, s, Leave(k)) <==> s.closed)
            case Choosing(_) =>
              && (Enabled(cfg, s, TakeTick(k, allowed)) <==> s.tick)
              && (Enabled(cfg, s, SeeCancel(k)) <==> s.canceled.Some?)
            case Queued(_) =>
              && (Enabled(cfg, s, Acquire(k)) <==> s.slots < 8) && (Enabled(cfg, s, Abandon(k)) <==> s.canceled.Some?)
            case Fetching(_, begun) =>
              Enabled(cfg, s, Finish(k, world)) <==> (begun.Some? ==> world.before(1) == begun)
            case Storing(_, _) => Enabled(cfg, s, Store(k))
            case Gone => true
  {
    TotalUpdate(s.workers, k, Gone, InFetch);
  }

  /** The next step of ours, and the environment's step it may have to wait for. */
  lemma NextStep(cfg: Limits, s: Pool) returns (pre: seq<Label>, mid: Pool, l: Label)
    requires Inv(s) && !s.returned
    ensures |pre| <= 1 && (pre == [] ==> mid == s)
    ensures pre != [] ==> Enabled(cfg, s, pre[0]) && mid == Apply(cfg, s, pre[0])
    ensures Inv(mid) && Measure(mid) <= Measure(s) && l.Ours() && Enabled(cfg, mid, l)
  {
    NeverStuck(cfg, s);
    pre, mid := [], s;
    if !CanMove(cfg, s) {
      var wait := if CanMove(cfg, Apply(cfg, s, Tick)) then Tick else OtherRelease;
      StepKeepsInv(cfg, s, wait);
      StepLowersMeasure(cfg, s, wait);
      pre, mid := [wait], Apply(cfg, s, wait);
    }
    l :| l.Ours() && Enabled(cfg, mid, l);
  }

  lemma ExecCons(cfg: Limits, s: Pool, l: Label, rest: seq<Label>)
    requires Inv(s) && Enabled(cfg, s, l)
    ensures Inv(Apply(cfg, s, l)) && Exec(cfg, s, [l] + rest) == Exec(cfg, Apply(cfg, s, l), rest)
  {
    StepKeepsInv(cfg, s, l);
    assert ([l] + rest)[1..] == rest;
  }

  /** From every reachable state some schedule of at most twice the measure returns. */
  lemma CanAlwaysReturn(cfg: Limits, s: Pool) returns (ls: seq<Label>)
    requires Inv(s)
    ensures Exec(cfg, s, ls).Some? && Exec(cfg, s, ls).value.returned
    ensures |ls| <= 2 * Measure(s)
    decreases Measure(s)
  {
    if s.returned {
      ls := [];
    } else {
      var pre, mid, l := NextStep(cfg, s);
      StepKeepsInv(cfg, mid, l);
      StepLowersMeasure(cfg, mid, l);
      var rest := CanAlwaysReturn(cfg, Apply(cfg, mid, l));
      ExecCons(cfg, mid, l, rest);
      ls := [l] + rest;
      if pre != [] {
        ExecCons(cfg, s, pre[0], ls);
        ls := [pre[0]] + ls;
      }
    }
  }
}
