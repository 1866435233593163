/** Ending event streams on shutdown: a channel made once on first use, closed once, and
    watched by every stream. Threads are streams and closers (Stop, or the server's
    on-shutdown callback); each label is one atomic step. */
module Sse {
  import opened Options

  /** Go's sync.Once: callers that arrive while the first one runs must wait for it. */
  datatype Once = NotRun | Running(runner: nat) | Done

  datatype Kind = Stream | Closer

  datatype Pc =
    | Signal(kind: Kind)        // entering the lazy initialisation
    | Creating(kind: Kind)      // inside it
    | Opening(chan: nat)        // stream: headers and first ping
    | Waiting(chan: nat)        // stream: select on client, shutdown and ticker
    | Pinging(chan: nat)        // stream: writing a periodic ping
    | Closing                   // closer: entering the one-time close
    | ClosingNow                // closer: inside it
    | Finished

  datatype Server = Server(
    chan: Option<nat>,          // the shared shutdown channel
    created: nat,               // channels ever made
    closes: nat,                // close calls ever made on the channel
    initOnce: Once,
    closeOnce: Once,
    panicked: bool,             // a nil or second close would
    threads: seq<Pc>)

  datatype Label =
    | Spawn(kind: Kind)
    | EnterInit(t: nat) | Create(t: nat) | SkipInit(t: nat)
    | WriteOk(t: nat) | WriteFails(t: nat)
    | ClientGone(t: nat) | SeeShutdown(t: nat) | PingDue(t: nat)
    | EnterClose(t: nat) | CloseNow(t: nat) | SkipClose(t: nat)

  const NEW_SERVER := Server(None, 0, 0, NotRun, NotRun, false, [])

  predicate At(s: Server, t: nat, pc: Pc) { t < |s.threads| && s.threads[t] == pc }

  predicate Enabled(s: Server, l: Label) {
    match l
    case Spawn(_) => true
    case EnterInit(t) => t < |s.threads| && s.threads[t].Signal? && s.initOnce.NotRun?
    case SkipInit(t) => t < |s.threads| && s.threads[t].Signal? && s.initOnce.Done?
    case Create(t) => t < |s.threads| && s.threads[t].Creating?
    case WriteOk(t) => t < |s.threads| && (s.threads[t].Opening? || s.threads[t].Pinging?)
    case WriteFails(t) => t < |s.threads| && (s.threads[t].Opening? || s.threads[t].Pinging?)
    case ClientGone(t) => t < |s.threads| && s.threads[t].Waiting?
    case PingDue(t) => t < |s.threads| && s.threads[t].Waiting?
    case SeeShutdown(t) =>
      t < |s.threads| && s.threads[t].Waiting? && s.chan == Some(s.threads[t].chan) && s.closes > 0
    case EnterClose(t) => At(s, t, Closing) && s.closeOnce.NotRun?
    case SkipClose(t) => At(s, t, Closing) && s.closeOnce.Done?
    case CloseNow(t) => At(s, t, ClosingNow)
  }

  /** Where a thread goes once it holds the shared channel. */
  function After(kind: Kind, chan: Option<nat>): Pc {
    if kind == Closer then Closing
    else match chan case None => Finished case Some(c) => Opening(c)
  }

  function Put(s: Server, t: nat, pc: Pc): Server
    requires t < |s.threads|
  {
    s.(threads := s.threads[t := pc])
  }

  function Apply(s: Server, l: Label): Server
    requires Enabled(s, l)
  {
    match l
    case Spawn(kind) => s.(threads := s.threads + [Signal(kind)])
    case EnterInit(t) => Put(s, t, Creating(s.threads[t].kind)).(initOnce := Running(t))
    case Create(t) =>
      var c := Some(s.created);
      Put(s, t, After(s.threads[t].kind, c)).(chan := c, created := s.created + 1, initOnce := Done)
    case SkipInit(t) => Put(s, t, After(s.threads[t].kind, s.chan))
    case WriteOk(t) => Put(s, t, Waiting(s.threads[t].chan))
    case WriteFails(t) => Put(s, t, Finished)
    case ClientGone(t) => Put(s, t, Finished)
    case SeeShutdown(t) => Put(s, t, Finished)
    case PingDue(t) => Put(s, t, Pinging(s.threads[t].chan))
    case EnterClose(t) => Put(s, t, ClosingNow).(closeOnce := Running(t))
    case SkipClose(t) => Put(s, t, Finished)
    case CloseNow(t) =>
      Put(s, t, Finished).(closes := s.closes + 1, closeOnce := Done,
                           panicked := s.panicked || s.chan.None? || s.closes > 0)
  }

  predicate OnStream(pc: Pc) { pc.Opening? || pc.Waiting? || pc.Pinging? }

  /** One channel at most, one close at most, one runner in each Once, and every stream on
      the one channel. */
  predicate Inv(s: Server) {
    && !s.panicked
    && (s.initOnce.Done? ==> s.created == 1 && s.chan == Some(0))
    && (!s.initOnce.Done? ==> s.created == 0 && s.chan.None? && s.closeOnce.NotRun?)
    && (s.initOnce.Running? ==> s.initOnce.runner < |s.threads| && s.threads[s.initOnce.runner].Creating?)
    && s.closes == (if s.closeOnce.Done? then 1 else 0)
    && (s.closeOnce.Running? ==> At(s, s.closeOnce.runner, ClosingNow))
    && forall t :: 0 <= t < |s.threads| ==>
         && (s.threads[t].Creating? ==> s.initOnce == Running(t))
         && (s.threads[t].ClosingNow? ==> s.closeOnce == Running(t))
         && (s.threads[t].Closing? || s.threads[t].ClosingNow? ==> s.initOnce.Done?)
         && (OnStream(s.threads[t]) ==> s.chan == Some(s.threads[t].chan))
  }

  lemma StepKeepsInv(s: Server, l: Label)
    requires Inv(s) && Enabled(s, l)
    ensures Inv(Apply(s, l))
  {
    var u := Apply(s, l);
    if l.Spawn? {
      assert forall t :: 0 <= t < |s.threads| ==> u.threads[t] == s.threads[t];
    } else {
      assert forall t :: 0 <= t < |s.threads| && t != l.t ==> u.threads[t] == s.threads[t];
    }
  }

  function Exec(s: Server, ls: seq<Label>): Option<Server>
    decreases |ls|
  {
    if ls == [] then Some(s)
    else if !Enabled(s, ls[0]) then None
    else Exec(Apply(s, ls[0]), ls[1..])
  }

  /** Along every run: no panic, at most one channel made, at most one close, every
      stream watching that one channel; and nothing undoes a close. */
  lemma {:induction false} ReachableIsSafe(s: Server, ls: seq<Label>)
    requires Inv(s) && Exec(s, ls).Some?
    ensures var u := Exec(s, ls).value;
            && Inv(u) && !u.panicked && u.created <= 1 && s.closes <= u.closes <= 1
            && (s.chan.Some? ==> u.chan == s.chan)
            && forall t :: 0 <= t < |u.threads| && OnStream(u.threads[t]) ==> u.chan == Some(u.threads[t].chan)
    decreases |ls|
  {
    if ls != [] {
      StepKeepsInv(s, ls[0]);
      ReachableIsSafe(Apply(s, ls[0]), ls[1..]);
    }
  }

  /** So from a new server on: whatever streams open and whoever stops it, however often. */
  lemma NewServerIsSafe(ls: seq<Label>)
    requires Exec(NEW_SERVER, ls).Some?
    ensures var u := Exec(NEW_SERVER, ls).value;
            && Inv(u) && !u.panicked && u.created <= 1 && u.closes <= 1
            && (u.chan.Some? <==> u.created == 1)
            && forall t :: 0 <= t < |u.threads| && OnStream(u.threads[t]) ==> u.chan == Some(u.threads[t].chan)
  {
    ReachableIsSafe(NEW_SERVER, ls);
  }

  /** Once the channel is closed, then after any further steps, with streams old and new, every
      stream that waits can leave. */
  lemma ClosedMeansExitsOpen(s: Server, ls: seq<Label>, t: nat)
    requires Inv(s) && s.closes > 0 && Exec(s, ls).Some?
    requires var u := Exec(s, ls).value; t < |u.threads| && u.threads[t].Waiting?
    ensures Enabled(Exec(s, ls).value, SeeShutdown(t))
  {
    ReachableIsSafe(s, ls);
  }

  /** What a step can do to a thread: a stream goes from the shared channel's creation or
      discovery to its headers, and then stays on that channel until its client goes, a write
      fails or the shutdown is seen; a closer goes on to the close. */
  lemma ThreadsGoTheirWay(s: Server, l: Label, t: nat)
    requires Inv(s) && Enabled(s, l) && t < |s.threads|
    ensures |Apply(s, l).threads| >= |s.threads|
    ensures var was, now := s.threads[t], Apply(s, l).threads[t];
            match was
            case Signal(kind) =>
              now == was || now == Creating(kind) || (now == if kind == Stream then Opening(0) else Closing)
            case Creating(kind) => now == was || (now == if kind == Stream then Opening(0) else Closing)
            case Closing => now == was || now == ClosingNow || (now == Finished && s.closes == 1)
            case ClosingNow => now == was || (now == Finished && Apply(s, l).closes == 1)
            case Finished => now == was
            case _ =>
              || (OnStream(now) && now.chan == was.chan)
              || (now == Finished && (l == ClientGone(t) || l == WriteFails(t) || (l == SeeShutdown(t) && s.closes == 1)))
  {
  }

  /** Each thread goes on by itself, except that it may wait for the one running a Once. */
  lemma ThreadsGoOn(s: Server, t: nat, kind: Kind)
    requires Inv(s) && t < |s.threads|
    ensures Enabled(s, Spawn(kind))
    ensures match s.threads[t]
            case Signal(_) =>
              && (Enabled(s, EnterInit(t)) <==> s.created == 0 && !s.initOnce.Running?)
              && (Enabled(s, SkipInit(t)) <==> s.created == 1)
            case Creating(_) => Enabled(s, Create(t))
            case Opening(_) => Enabled(s, WriteOk(t)) && Enabled(s, WriteFails(t))
            case Pinging(_) => Enabled(s, WriteOk(t)) && Enabled(s, WriteFails(t))
            case Waiting(_) => Enabled(s, PingDue(t)) && Enabled(s, ClientGone(t))
            case Closing =>
              && (Enabled(s, EnterClose(t)) <==> s.closes == 0 && !s.closeOnce.Running?)
              && (Enabled(s, SkipClose(t)) <==> s.closes == 1)
            case ClosingNow => Enabled(s, CloseNow(t))
            case Finished => true
  {
  }

  /** And not before: a waiting stream can leave on shutdown exactly when the close happened,
      while it can leave with its client, or be due a ping, at any time. */
  lemma ExitOpensWithClose(s: Server, t: nat)
    requires Inv(s) && t < |s.threads| && s.threads[t].Waiting?
    ensures Enabled(s, SeeShutdown(t)) <==> s.closes == 1
    ensures Enabled(s, ClientGone(t)) && Enabled(s, PingDue(t))
  {
  }

  function CountCloses(ls: seq<Label>): nat {
    if ls == [] then 0 else (if ls[0].CloseNow? then 1 else 0) + CountCloses(ls[1..])
  }

  /** No run closes the channel without a closer's step that does it, nor twice. */
  lemma {:induction false} ClosesAreCounted(s: Server, ls: seq<Label>)
    requires Inv(s) && Exec(s, ls).Some?
    ensures Exec(s, ls).value.closes == s.closes + CountCloses(ls) <= 1
    decreases |ls|
  {
    if ls != [] {
      StepKeepsInv(s, ls[0]);
      ClosesAreCounted(Apply(s, ls[0]), ls[1..]);
    }
  }

  /** A Stop call that has returned has closed the channel, whoever did the closing. */
  lemma FinishedCloserClosed(s: Server, t: nat, l: Label)
    requires Inv(s) && Enabled(s, l) && t < |s.threads|
    requires s.threads[t] == Closing || s.threads[t] == ClosingNow
    ensures t < |Apply(s, l).threads|
    ensures Apply(s, l).threads[t].Finished? ==> Apply(s, l).closes == 1
  {
  }

  // ---- draining --------------------------------------------------------------------------

  /** Steps a thread needs at most, if it takes the exit whenever it can. */
  function Left(pc: Pc): nat {
    match pc
    case Finished => 0
    case Waiting(_) => 1
    case Pinging(_) => 2
    case Opening(_) => 2
    case ClosingNow => 1
    case Closing => 2
    case Creating(_) => 3
    case Signal(_) => 4
  }

  function Total(threads: seq<Pc>): nat {
    if threads == [] then 0 else Total(threads[..|threads| - 1]) + Left(threads[|threads| - 1])
  }

  lemma {:induction false} TotalUpdate(threads: seq<Pc>, t: nat, pc: Pc)
    requires t < |threads|
    ensures Total(threads[t := pc]) + Left(threads[t]) == Total(threads) + Left(pc)
  {
    var last := |threads| - 1;
    if t == last {
      assert threads[t := pc][..last] == threads[..last];
    } else {
      TotalUpdate(threads[..last], t, pc);
      assert threads[t := pc][..last] == threads[..last][t := pc];
    }
  }

  /** A step that brings its thread closer to the end. */
  predicate Advances(s: Server, l: Label) {
    Enabled(s, l) && !l.Spawn? && !l.PingDue?
  }

  /** With the channel closed, an unfinished thread, or the one it waits for, can advance. */
  lemma NeverStuck(s: Server, t: nat) returns (l: Label)
    requires Inv(s) && s.closes > 0 && t < |s.threads| && !s.threads[t].Finished?
    ensures Advances(s, l)
  {
    match s.threads[t]
    case Signal(_) => l := SkipInit(t);
    case Creating(_) => l := Create(t);
    case Opening(_) => l := WriteOk(t);
    case Pinging(_) => l := WriteOk(t);
    case Waiting(_) => l := SeeShutdown(t);
    case Closing => l := SkipClose(t);
    case ClosingNow => l := CloseNow(t);
  }

  lemma AdvanceLowersTotal(s: Server, l: Label)
    requires Inv(s) && Advances(s, l)
    ensures Total(Apply(s, l).threads) < Total(s.threads)
  {
    TotalUpdate(s.threads, l.t, Apply(s, l).threads[l.t]);
  }

  /** After a close the server can always drain: some schedule, no longer than the threads'
      remaining steps, finishes every stream and closer. */
  lemma CanDrain(s: Server) returns (ls: seq<Label>)
    requires Inv(s) && s.closes > 0
    ensures |ls| <= Total(s.threads) && Exec(s, ls).Some?
    ensures forall t :: 0 <= t < |Exec(s, ls).value.threads| ==> Exec(s, ls).value.threads[t].Finished?
    decreases Total(s.threads)
  {
    if t :| 0 <= t < |s.threads| && !s.threads[t].Finished? {
      var l := NeverStuck(s, t);
      StepKeepsInv(s, l);
      AdvanceLowersTotal(s, l);
      var rest := CanDrain(Apply(s, l));
      ls := [l] + rest;
      assert ls[1..] == rest;
    } else {
      ls := [];
    }
  }
}
