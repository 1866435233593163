/** The bounded search history, newest first, and the gate that decides what enters it. */
module History {
  import opened Options
  import opened SearchTypes
  import opened Seqs

  datatype Entry = Entry(query: string, source: string, timestamp: int)   // 0 is the unset time

  function Newest<T>(log: seq<T>): (r: seq<T>)
    ensures |r| == |log|
  {
    if log == [] then [] else [log[|log| - 1]] + Newest(log[..|log| - 1])
  }

  /** The entries matching a query, in order; the empty query matches everything. */
  function Matching(entries: seq<Entry>, query: string): (r: seq<Entry>)
    ensures |r| <= |entries|
    ensures forall e :: e in r <==> e in entries && Contains(e.query, query)
  {
    if entries == [] then []
    else
      var rest := Matching(entries[..|entries| - 1], query);
      var e := entries[|entries| - 1];
      if Contains(e.query, query) then rest + [e] else rest
  }

  lemma {:induction false} EmptyQueryMatchesAll(entries: seq<Entry>)
    ensures Matching(entries, "") == entries
  {
    if entries != [] {
      EmptyQueryMatchesAll(entries[..|entries| - 1]);
    }
  }

  lemma MatchingOne(e: Entry, query: string)
    ensures Matching([e], query) == if Contains(e.query, query) then [e] else []
  {
    assert [e][..0] == [];
  }

  lemma MatchingSnoc(entries: seq<Entry>, e: Entry, query: string)
    ensures Matching(entries + [e], query) == Matching(entries, query) + (if Contains(e.query, query) then [e] else [])
  {
    assert (entries + [e])[..|entries|] == entries;
  }

  /** Matching keeps order and repetition: it can be done piece by piece. */
  lemma {:induction false} MatchingConcat(a: seq<Entry>, b: seq<Entry>, query: string)
    ensures Matching(a + b, query) == Matching(a, query) + Matching(b, query)
  {
    if b == [] {
      assert a + b == a;
    } else {
      var init, last := b[..|b| - 1], b[|b| - 1];
      assert a + b == (a + init) + [last] && b == init + [last];
      MatchingConcat(a, init, query);
      MatchingSnoc(a + init, last, query);
      MatchingSnoc(init, last, query);
    }
  }

  /** Newest first: the last appended entry comes first. */
  lemma {:induction false} NewestMeaning<T>(log: seq<T>, i: nat)
    requires i < |log|
    ensures Newest(log)[i] == log[|log| - 1 - i]
  {
    if i > 0 {
      NewestMeaning(log[..|log| - 1], i - 1);
    }
  }

  /** The matches of a shorter history are a prefix of the matches of a longer one, so
      limiting first could only drop matches from the end of what List returns. */
  lemma {:induction false} MatchingPrefix(entries: seq<Entry>, query: string, n: nat)
    requires n <= |entries|
    ensures Matching(entries[..n], query) <= Matching(entries, query)
    ensures n <= |Matching(entries, query)| ==> Matching(entries[..n], query) <= Prefix(Matching(entries, query), n)
  {
    if n < |entries| {
      MatchingPrefix(entries[..|entries| - 1], query, n);
      assert entries[..|entries| - 1][..n] == entries[..n];
    } else {
      assert entries[..n] == entries;
    }
  }

  /** One more entry puts it first and drops the oldest beyond the bound. */
  lemma NewestCut(log: seq<Entry>, e: Entry, bound: nat)
    requires bound >= 1
    ensures var kept := Prefix(Newest(log), bound);
            Prefix(Newest(log + [e]), bound) == [e] + (if |kept| >= bound then kept[..|kept| - 1] else kept)
  {
    assert (log + [e])[..|log|] == log;
    assert Newest(log + [e]) == [e] + Newest(log);
  }

  class HistoryService {
    var entries: seq<Entry>
    const bound: int
    ghost var log: seq<Entry>    // everything ever appended, oldest first

    /** The buffer is the newest-first log, cut at the bound. */
    ghost predicate Valid()
      reads this
    {
      bound >= 1 && entries == Prefix(Newest(log), bound)
    }

    constructor (bound: int)
      ensures Valid() && log == [] && this.bound == if bound <= 0 then 100 else bound
    {
      this.bound := if bound <= 0 then 100 else bound;
      entries, log := [], [];
    }

    /** Drops the oldest entry when full, stamps an unset time, and puts the new one first. */
    method Append(e: Entry, now: int)
      requires Valid()
      modifies this
      ensures Valid()
      ensures log == old(log) + [if e.timestamp == 0 then e.(timestamp := now) else e]
      ensures |entries| == if old(|entries|) < bound then old(|entries|) + 1 else bound
    {
      var stamped := e;
      if stamped.timestamp == 0 {
        stamped := stamped.(timestamp := now);
      }
      if |entries| >= bound {
        entries := entries[..|entries| - 1];
      }
      entries := [stamped] + entries;
      log := log + [stamped];
      NewestCut(old(log), stamped, bound);
    }

    /** The first `limit` of the matching entries; a limit out of range means all of them. */
    method List(limit: int, query: string) returns (out: seq<Entry>)
      requires Valid()
      ensures var found := Matching(entries, query);
              out == if limit <= 0 then found else Prefix(found, limit)
      ensures |out| <= bound
    {
      var src := entries;
      if query != "" {
        src := Narrow(src, query);
      } else {
        EmptyQueryMatchesAll(src);
      }
      var n := limit;
      if n <= 0 || n > |src| {
        n := |src|;
      }
      out := src[..n];
    }
  }

  method Narrow(src: seq<Entry>, query: string) returns (filtered: seq<Entry>)
    ensures filtered == Matching(src, query)
  {
    filtered := [];
    var i := 0;
    while i < |src|
      invariant 0 <= i <= |src|
      invariant filtered == Matching(src[..i], query)
    {
      assert src[..i + 1][..i] == src[..i];
      if Contains(src[i].query, query) {
        filtered := filtered + [src[i]];
      }
      i := i + 1;
    }
    assert src[..|src|] == src;
  }

  // ---- the gate --------------------------------------------------------------------------

  /** What one completed handler call contributes: nothing for an empty query or a degraded
      answer without results. */
  function Recorded(resp: Response): bool {
    resp.query != "" && !(resp.partial && resp.results == [])
  }

  datatype Call = Call(source: string, resp: Option<Response>, at: int)

  /** The history a sequence of calls should leave, oldest first. */
  function ExpectedLog(calls: seq<Call>): seq<Entry> {
    if calls == [] then []
    else
      var c, rest := calls[|calls| - 1], ExpectedLog(calls[..|calls| - 1]);
      if c.resp.Some? && Recorded(c.resp.value) then rest + [Entry(c.resp.value.query, c.source, c.at)] else rest
  }

  /** The expected log holds an entry exactly when some call that passes the gate made it. */
  lemma {:induction false} ExpectedLogHoldsExactlyRecorded(calls: seq<Call>, e: Entry)
    ensures e in ExpectedLog(calls) <==>
              exists i :: 0 <= i < |calls| && calls[i].resp.Some? && Recorded(calls[i].resp.value)
                          && e == Entry(calls[i].resp.value.query, calls[i].source, calls[i].at)
  {
    if calls != [] {
      var init := calls[..|calls| - 1];
      ExpectedLogHoldsExactlyRecorded(init, e);
      assert calls == init + [calls[|calls| - 1]];
    }
  }

  /** The expected log can be told piece by piece, so it keeps the order of the calls. */
  lemma {:induction false} ExpectedLogConcat(a: seq<Call>, b: seq<Call>)
    ensures ExpectedLog(a + b) == ExpectedLog(a) + ExpectedLog(b)
  {
    if b == [] {
      assert a + b == a;
    } else {
      ExpectedLogConcat(a, b[..|b| - 1]);
      assert (a + b)[..|a + b| - 1] == a + b[..|b| - 1];
    }
  }

  /** One call is recorded exactly when it answered a non-empty query with results, or with
      none but undegraded. */
  lemma ExpectedLogOne(c: Call)
    ensures ExpectedLog([c])
         == match c.resp
            case None => []
            case Some(r) =>
              if r.query != "" && (r.results != [] || !r.partial) then [Entry(r.query, c.source, c.at)] else []
  {
    assert [c][..0] == [];
  }

  /** The calls whose response's query contains `query`. */
  function MatchingCalls(calls: seq<Call>, query: string): seq<Call> {
    if calls == [] then []
    else
      var c, rest := calls[|calls| - 1], MatchingCalls(calls[..|calls| - 1], query);
      if c.resp.Some? && Contains(c.resp.value.query, query) then rest + [c] else rest
  }

  /** Filtering commutes with the gate: a query's matches in the history are what the calls
      with matching queries alone would have left, in call order. */
  lemma {:induction false} FilterCommutesWithGate(calls: seq<Call>, query: string)
    ensures Matching(ExpectedLog(calls), query) == ExpectedLog(MatchingCalls(calls, query))
  {
    if calls != [] {
      var init, c := calls[..|calls| - 1], calls[|calls| - 1];
      FilterCommutesWithGate(init, query);
      var kept := MatchingCalls(init, query);
      assert (kept + [c])[..|kept|] == kept;
      var log := ExpectedLog(init);
      if c.resp.Some? && Recorded(c.resp.value) {
        assert (log + [ExpectedLog(calls)[|log|]])[..|log|] == log;
      }
    }
  }

  class Server {
    const history: HistoryService?
    ghost var calls: seq<Call>

    constructor (history: HistoryService?)
      ensures this.history == history && calls == []
    {
      this.history := history;
      calls := [];
    }

    /** Over every sequence of calls the history is the newest recorded ones, up to its bound. */
    ghost predicate Valid()
      reads this, history
    {
      history != null ==> history.Valid() && history.log == ExpectedLog(calls)
    }

    method RecordSearch(source: string, resp: Option<Response>, now: int)
      requires Valid() && now != 0
      modifies this, history
      ensures Valid() && calls == old(calls) + [Call(source, resp, now)]
      ensures history != null ==>
                history.entries == Prefix(Newest(ExpectedLog(calls)), history.bound)
    {
      calls := calls + [Call(source, resp, now)];
      assert calls[..|calls| - 1] == old(calls);
      if history == null {
        return;
      }
      if resp.None? {
        return;
      }
      if resp.value.query == "" {
        return;
      }
      if resp.value.partial && |resp.value.results| == 0 {
        return;
      }
      history.Append(Entry(resp.value.query, source, 0), now);
    }
  }
}
