/** The reference for the TTL cache: a log of what was done to it, and what the log says is
    stored under a key at a time. Nothing in the log is ever purged. */
module CacheLog {
  import opened Options

  /** A cached payload with its lifetime; live strictly before `expires`. */
  datatype Entry<V> = Entry(value: V, created: int, expires: int, sources: seq<string>)

  predicate LiveAt<V>(e: Entry<V>, now: int) { now < e.expires }

  datatype Event<K, V> =
    | Stored(key: K, entry: Entry<V>)
    | Removed(key: K)
    | Cleared
    | Swept(now: int)      // every entry expired at `now` was dropped

  predicate Decides<K(==), V>(ev: Event<K, V>, k: K) {
    (ev.Stored? && ev.key == k) || (ev.Removed? && ev.key == k) || ev.Cleared?
  }

  /** The never-purged timed map: what the last event deciding `k` left there. */
  function LastSet<K(==), V>(log: seq<Event<K, V>>, k: K): Option<Entry<V>> {
    if log == [] then None
    else
      var ev := log[|log| - 1];
      if Decides(ev, k) then (if ev.Stored? then Some(ev.entry) else None)
      else LastSet(log[..|log| - 1], k)
  }

  /** The lazily purged map: sweeps drop what has expired by then. */
  function Remaining<K(==), V>(log: seq<Event<K, V>>, k: K): Option<Entry<V>> {
    if log == [] then None
    else
      var ev, before := log[|log| - 1], Remaining(log[..|log| - 1], k);
      if Decides(ev, k) then (if ev.Stored? then Some(ev.entry) else None)
      else if ev.Swept? && before.Some? && !LiveAt(before.value, ev.now) then None
      else before
  }

  predicate SweptBy<K, V>(log: seq<Event<K, V>>, clock: int) {
    forall i :: 0 <= i < |log| && log[i].Swept? ==> log[i].now <= clock
  }

  /** What LastSet means: some store of `k`, with nothing deciding `k` after it. */
  ghost predicate StoredLast<K, V>(log: seq<Event<K, V>>, k: K, e: Entry<V>, i: int) {
    && 0 <= i < |log| && log[i] == Stored(k, e)
    && forall j :: i < j < |log| ==> !Decides(log[j], k)
  }

  lemma {:induction false} LastSetMeaning<K, V>(log: seq<Event<K, V>>, k: K, e: Entry<V>)
    ensures LastSet(log, k) == Some(e) <==> exists i :: StoredLast(log, k, e, i)
  {
    if log != [] {
      var last := |log| - 1;
      LastSetMeaning(log[..last], k, e);
      if LastSet(log, k) == Some(e) {
        if Decides(log[last], k) {
          assert StoredLast(log, k, e, last);
        } else {
          var i :| StoredLast(log[..last], k, e, i);
          assert StoredLast(log, k, e, i);
        }
      }
      if i :| StoredLast(log, k, e, i) {
        if i < last {
          assert !Decides(log[last], k);
          assert StoredLast(log[..last], k, e, i);
        }
      }
    }
  }

  /** No sweep after position `i` has met `e` expired. */
  ghost predicate UnsweptSince<K, V>(log: seq<Event<K, V>>, e: Entry<V>, i: int)
    requires i >= 0
  {
    forall j :: i < j < |log| && log[j].Swept? ==> LiveAt(e, log[j].now)
  }

  /** What Remaining means: as LastSet, and no sweep since has met the entry expired. */
  lemma {:induction false} RemainingMeaning<K, V>(log: seq<Event<K, V>>, k: K, e: Entry<V>)
    ensures Remaining(log, k) == Some(e) <==> exists i :: StoredLast(log, k, e, i) && UnsweptSince(log, e, i)
  {
    if log != [] {
      var last := |log| - 1;
      var init := log[..last];
      RemainingMeaning(init, k, e);
      if Remaining(log, k) == Some(e) {
        if Decides(log[last], k) {
          assert StoredLast(log, k, e, last) && UnsweptSince(log, e, last);
        } else {
          var i :| StoredLast(init, k, e, i) && UnsweptSince(init, e, i);
          assert forall j :: 0 <= j < last ==> init[j] == log[j];
          assert StoredLast(log, k, e, i) && UnsweptSince(log, e, i);
        }
      }
      if i :| StoredLast(log, k, e, i) && UnsweptSince(log, e, i) {
        if i < last {
          assert !Decides(log[last], k);
          assert forall j :: 0 <= j < last ==> init[j] == log[j];
          assert StoredLast(init, k, e, i) && UnsweptSince(init, e, i);
        }
      }
    }
  }

  /** Refinement: what a sweep takes was dead already. Under a clock no sweep has passed, the
      purged and the never-purged map agree on everything live. */
  lemma {:induction false} SweepsAreInvisible<K, V>(log: seq<Event<K, V>>, k: K, clock: int)
    requires SweptBy(log, clock)
    ensures Remaining(log, k).Some? ==> LastSet(log, k) == Remaining(log, k)
    ensures LastSet(log, k).Some? && LiveAt(LastSet(log, k).value, clock) ==> Remaining(log, k) == LastSet(log, k)
  {
    if log != [] {
      var init := log[..|log| - 1];
      assert forall i :: 0 <= i < |init| ==> init[i] == log[i];
      SweepsAreInvisible(init, k, clock);
    }
  }

  /** Reporting a removal is not observationally that simple: two histories that agree on
      every Get from time 10 on differ in whether an expired entry is still there to remove. */
  lemma ExpiredPresenceDependsOnSweeps()
    ensures exists a: seq<Event<int, int>>, b: seq<Event<int, int>> ::
              && SweptBy(a, 10) && SweptBy(b, 10)
              && (forall k :: LastSet(a, k) == LastSet(b, k))
              && Remaining(a, 0).Some? && Remaining(b, 0).None?
  {
    var e := Entry(7, 0, 5, []);
    var a: seq<Event<int, int>> := [Stored(0, e)];
    var b: seq<Event<int, int>> := [Stored(0, e), Swept(10)];
    assert b[..1] == a && a[..0] == [];
    forall k
      ensures LastSet(a, k) == LastSet(b, k)
    {
    }
    assert Remaining(a, 0) == Some(e);
    assert Remaining(b, 0) == None;
  }
}
