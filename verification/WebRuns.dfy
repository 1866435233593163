/** Whole runs of the web connector on a cache it shares: searches that overlap in any way with
    each other and with whatever others do. Everything served from the cache is the most recent
    answer a search computed for that key. */
module WebRuns {
  import opened Options
  import opened CacheLog
  import opened SearchTypes
  import opened ReadThrough

  type Log = seq<Event<Key, Response>>

  /** One critical section on the shared cache. A search looks up; if that missed, it answers
      later, `look` being the position of its lookup. Others do anything in between. */
  datatype Op =
    | Looked(req: Request, hit: Option<Response>, readTime: int)
    | Answered(look: nat, req: Request, resp: Response, storeTime: int)
    | Others

  /** An answer belongs to an earlier lookup of the same request that missed and that nothing
      has answered yet. */
  predicate OwnLook(ops: seq<Op>, n: nat)
    requires n < |ops| && ops[n].Answered?
  {
    var look := ops[n].look;
    && look < n && ops[look].Looked? && ops[look].hit.None? && ops[look].req == ops[n].req
    && forall m :: 0 <= m < n && ops[m].Answered? ==> ops[m].look != look
  }

  ghost predicate Step(before: Log, after: Log, op: Op, ttl: int) {
    match op
    case Looked(req, hit, readTime) => LookStep(before, after, req, hit, readTime)
    case Answered(_, req, resp, storeTime) => AnswerStep(before, after, req, resp, storeTime, ttl)
    case Others => OthersStep(before, after)
  }

  /** A run from a new cache; `logs[n]` is the cache's log after n operations. */
  ghost predicate Trace(ops: seq<Op>, logs: seq<Log>, ttl: int) {
    && |logs| == |ops| + 1 && logs[0] == []
    && (forall n :: 0 <= n < |ops| ==> Step(logs[n], logs[n + 1], ops[n], ttl))
    && (forall n :: 0 <= n < |ops| && ops[n].Answered? ==> OwnLook(ops, n))
  }

  lemma {:induction false} TraceKeepsWebLog(ops: seq<Op>, logs: seq<Log>, ttl: int, n: nat)
    requires Trace(ops, logs, ttl) && n <= |ops|
    ensures WebLog(logs[n], ttl)
  {
    if n > 0 {
      TraceKeepsWebLog(ops, logs, ttl, n - 1);
      assert Step(logs[n - 1], logs[n], ops[n - 1], ttl);
      match ops[n - 1]
      case Looked(_, _, _) => LookupsKeepWebLog(logs[n - 1], logs[n], ttl);
      case Answered(_, req, resp, storeTime) =>
        AnswersKeepWebLog(logs[n - 1], logs[n], req, resp, storeTime, ttl);
      case Others => OthersKeepWebLog(logs[n - 1], logs[n], ttl);
    }
  }

  lemma StepGrowsLog(before: Log, after: Log, op: Op, ttl: int)
    requires Step(before, after, op, ttl)
    ensures before <= after
  {
    if op.Answered? {
      assert after[..|after| - 1] <= after;
    }
  }

  lemma {:induction false} LogsGrow(ops: seq<Op>, logs: seq<Log>, ttl: int, m: nat, n: nat)
    requires Trace(ops, logs, ttl) && m <= n <= |ops|
    ensures logs[m] <= logs[n]
  {
    if m < n {
      LogsGrow(ops, logs, ttl, m, n - 1);
      StepGrowsLog(logs[n - 1], logs[n], ops[n - 1], ttl);
    }
  }

  /** What an answer stored, and that this is the last event it left. */
  lemma AnswerIsLast(ops: seq<Op>, logs: seq<Log>, ttl: int, j: nat)
    requires Trace(ops, logs, ttl) && j < |ops| && ops[j].Answered?
    ensures |logs[j]| < |logs[j + 1]|
    ensures logs[j + 1][|logs[j + 1]| - 1] == Store(ops[j].req, ops[j].resp, ops[j].storeTime, ttl)
  {
    assert Step(logs[j], logs[j + 1], ops[j], ttl);
  }

  /** A store under a web key was written by an answer. */
  lemma {:induction false} StoresComeFromAnswers(ops: seq<Op>, logs: seq<Log>, ttl: int, n: nat, p: nat)
    returns (j: nat)
    requires Trace(ops, logs, ttl) && n <= |ops| && p < |logs[n]|
    requires logs[n][p].Stored? && logs[n][p].key.sources == WEB_SOURCES
    ensures j < n && ops[j].Answered? && p == |logs[j + 1]| - 1
    ensures logs[n][p] == Store(ops[j].req, ops[j].resp, ops[j].storeTime, ttl)
  {
    assert n > 0 && Step(logs[n - 1], logs[n], ops[n - 1], ttl);
    StepGrowsLog(logs[n - 1], logs[n], ops[n - 1], ttl);
    if p < |logs[n - 1]| {
      assert logs[n - 1][p] == logs[n][p];
      j := StoresComeFromAnswers(ops, logs, ttl, n - 1, p);
    } else {
      j := n - 1;
    }
  }

  /** Answer j is what lookup i finds: for the same key, still live when read, and with nothing
      stored under, removed from or cleared of that key in between. */
  ghost predicate Finds(ops: seq<Op>, logs: seq<Log>, ttl: int, j: nat, i: nat)
    requires |logs| == |ops| + 1 && i < |ops| && ops[i].Looked?
  {
    && j < i && ops[j].Answered?
    && WebKey(ops[j].req) == WebKey(ops[i].req)
    && ops[i].readTime - ops[j].storeTime < (if ops[j].resp.partial && 30_000_000_000 < ttl then 30_000_000_000 else ttl)
    && forall p :: |logs[j + 1]| <= p < |logs[i]| ==> !Decides(logs[i][p], WebKey(ops[i].req))
  }

  /** A lookup that finds an answer is served it. */
  lemma FoundIsServed(ops: seq<Op>, logs: seq<Log>, ttl: int, j: nat, i: nat)
    requires Trace(ops, logs, ttl) && i < |ops| && ops[i].Looked? && Finds(ops, logs, ttl, j, i)
    ensures ops[i].hit == Some(ops[j].resp.(cached := true))
  {
    assert Step(logs[i], logs[i + 1], ops[i], ttl);
    AnswerIsLast(ops, logs, ttl, j);
    LogsGrow(ops, logs, ttl, j + 1, i);
    var key, p := WebKey(ops[i].req), |logs[j + 1]| - 1;
    var ev := Store(ops[j].req, ops[j].resp, ops[j].storeTime, ttl);
    assert StoredLast(logs[i], key, ev.entry, p);
    LastSetMeaning(logs[i], key, ev.entry);
  }

  /** A lookup that is served something finds an answer. */
  lemma ServedIsFound(ops: seq<Op>, logs: seq<Log>, ttl: int, i: nat) returns (j: nat)
    requires Trace(ops, logs, ttl) && i < |ops| && ops[i].Looked? && ops[i].hit.Some?
    ensures Finds(ops, logs, ttl, j, i)
    ensures |ops[i].hit.value.results| <= GoodFor(ops[i].req)
    ensures TrimSpace(ops[i].hit.value.query) == TrimSpace(ops[i].req.query)
  {
    assert Step(logs[i], logs[i + 1], ops[i], ttl);
    var key := WebKey(ops[i].req);
    var last := LastSet(logs[i], key);
    TraceKeepsWebLog(ops, logs, ttl, i);
    ServedIsYoungAndSmall(logs[i], key, ttl, ops[i].readTime);
    var p :| StoredLast(logs[i], key, last.value, p);
    j := StoresComeFromAnswers(ops, logs, ttl, i, p);
  }

  /** What an answer is found to be, later: young, and the latest for its key. */
  lemma FoundIsLatest(ops: seq<Op>, logs: seq<Log>, ttl: int, j: nat, i: nat)
    requires Trace(ops, logs, ttl) && i < |ops| && ops[i].Looked? && Finds(ops, logs, ttl, j, i)
    ensures ops[i].readTime - ops[j].storeTime < ttl
    ensures ops[j].resp.partial ==> ops[i].readTime - ops[j].storeTime < 30_000_000_000
    ensures forall m :: j < m < i && ops[m].Answered? ==> WebKey(ops[m].req) != WebKey(ops[i].req)
  {
    forall m | j < m < i && ops[m].Answered?
      ensures WebKey(ops[m].req) != WebKey(ops[i].req)
    {
      AnswerIsLast(ops, logs, ttl, m);
      LogsGrow(ops, logs, ttl, j + 1, m);
      LogsGrow(ops, logs, ttl, m + 1, i);
      assert !Decides(logs[i][|logs[m + 1]| - 1], WebKey(ops[i].req));
    }
  }

  /** In every run, however searches overlap and whatever others do: a lookup is a hit exactly
      when it finds an answer. The response is then that answer, marked cached: the latest for
      its key, less than the lifetime old (thirty seconds if degraded), and within the limit of
      the request it is served to. */
  lemma HitsAreLatestAnswers(ops: seq<Op>, logs: seq<Log>, ttl: int, i: nat)
    requires Trace(ops, logs, ttl) && i < |ops| && ops[i].Looked?
    ensures ops[i].hit.Some? <==> exists j: nat :: Finds(ops, logs, ttl, j, i)
    ensures forall j: nat :: Finds(ops, logs, ttl, j, i) ==>
              && ops[i].hit == Some(ops[j].resp.(cached := true))
              && ops[i].readTime - ops[j].storeTime < ttl
              && (ops[j].resp.partial ==> ops[i].readTime - ops[j].storeTime < 30_000_000_000)
              && forall m :: j < m < i && ops[m].Answered? ==> WebKey(ops[m].req) != WebKey(ops[i].req)
    ensures ops[i].hit.Some? ==>
              && |ops[i].hit.value.results| <= GoodFor(ops[i].req)
              && TrimSpace(ops[i].hit.value.query) == TrimSpace(ops[i].req.query)
  {
    if ops[i].hit.Some? {
      var j := ServedIsFound(ops, logs, ttl, i);
    }
    forall j: nat | Finds(ops, logs, ttl, j, i)
      ensures ops[i].hit == Some(ops[j].resp.(cached := true))
      ensures ops[i].readTime - ops[j].storeTime < ttl
      ensures ops[j].resp.partial ==> ops[i].readTime - ops[j].storeTime < 30_000_000_000
      ensures forall m :: j < m < i && ops[m].Answered? ==> WebKey(ops[m].req) != WebKey(ops[i].req)
    {
      FoundIsServed(ops, logs, ttl, j, i);
      FoundIsLatest(ops, logs, ttl, j, i);
    }
  }

  // ---- searches nobody comes between -----------------------------------------------------

  /** A whole search as one operation, or anything others do. */
  datatype Whole = Searched(req: Request, resp: Response, readTime: int, storeTime: int) | Other

  /** The operations a whole one consists of, the first of them at position `at`. */
  function Parts(w: Whole, at: nat): seq<Op> {
    match w
    case Other => [Others]
    case Searched(req, resp, readTime, storeTime) =>
      if resp.cached then [Looked(req, Some(resp), readTime)]
      else [Looked(req, None, readTime), Answered(at, req, resp, storeTime)]
  }

  function Spread(ws: seq<Whole>): seq<Op> {
    if ws == [] then []
    else var init := Spread(ws[..|ws| - 1]); init + Parts(ws[|ws| - 1], |init|)
  }

  ghost predicate WholeStep(before: Log, after: Log, w: Whole, ttl: int) {
    match w
    case Searched(req, resp, readTime, storeTime) =>
      exists mid :: WebStep(before, mid, after, req, resp, readTime, storeTime, ttl)
    case Other => OthersStep(before, after)
  }

  ghost predicate WholeTrace(ws: seq<Whole>, logs: seq<Log>, ttl: int) {
    && |logs| == |ws| + 1 && logs[0] == []
    && forall n :: 0 <= n < |ws| ==> WholeStep(logs[n], logs[n + 1], ws[n], ttl)
  }

  lemma TraceSnoc(ops: seq<Op>, logs: seq<Log>, ttl: int, op: Op, after: Log)
    requires Trace(ops, logs, ttl) && Step(logs[|ops|], after, op, ttl)
    requires op.Answered? ==> OwnLook(ops + [op], |ops|)
    ensures Trace(ops + [op], logs + [after], ttl)
  {
    var more, longer := ops + [op], logs + [after];
    forall n | 0 <= n < |more|
      ensures Step(longer[n], longer[n + 1], more[n], ttl)
      ensures more[n].Answered? ==> OwnLook(more, n)
    {
      if n < |ops| {
        assert Step(logs[n], logs[n + 1], ops[n], ttl);
        assert ops[n].Answered? ==> OwnLook(ops, n);
      }
    }
  }

  lemma LooksPrecede(ops: seq<Op>, logs: seq<Log>, ttl: int)
    requires Trace(ops, logs, ttl)
    ensures forall m :: 0 <= m < |ops| && ops[m].Answered? ==> ops[m].look < |ops|
  {
    forall m | 0 <= m < |ops| && ops[m].Answered?
      ensures ops[m].look < |ops|
    {
      assert OwnLook(ops, m);
    }
  }

  /** Runs of undivided searches are among the runs above. */
  lemma {:induction false} WholeRunsAreRuns(ws: seq<Whole>, wlogs: seq<Log>, ttl: int) returns (logs: seq<Log>)
    requires WholeTrace(ws, wlogs, ttl)
    ensures Trace(Spread(ws), logs, ttl) && logs[|logs| - 1] == wlogs[|ws|]
  {
    if ws == [] {
      logs := [[]];
    } else {
      var last := |ws| - 1;
      var init, w := Spread(ws[..last]), ws[last];
      logs := WholeRunsAreRuns(ws[..last], wlogs[..|ws|], ttl);
      var before, after := wlogs[last], wlogs[|ws|];
      assert WholeStep(before, after, w, ttl);
      match w
      case Other => TraceSnoc(init, logs, ttl, Others, after); logs := logs + [after];
      case Searched(req, resp, readTime, storeTime) =>
        var mid :| WebStep(before, mid, after, req, resp, readTime, storeTime, ttl);
        if resp.cached {
          TraceSnoc(init, logs, ttl, Looked(req, Some(resp), readTime), after);
          logs := logs + [after];
        } else {
          LooksPrecede(init, logs, ttl);
          var look, answer := Looked(req, None, readTime), Answered(|init|, req, resp, storeTime);
          TraceSnoc(init, logs, ttl, look, mid);
          assert OwnLook(init + [look] + [answer], |init| + 1);
          TraceSnoc(init + [look], logs + [mid], ttl, answer, after);
          assert init + [look] + [answer] == init + [look, answer];
          logs := logs + [mid] + [after];
        }
    }
  }
}
