/** What a run of the interleaved cache leaves behind, told from its labels alone: the clock,
    the log, and from them what any read returns. Nothing here applies a step. */
module CacheRuns {
  import opened Options
  import opened CacheLog
  import opened CacheSteps

  /** The clock after some labels: the time that has passed. */
  function TimeOf<K, V>(ls: seq<Label<K, V>>): int {
    if ls == [] then 0
    else
      var l := ls[|ls| - 1];
      TimeOf(ls[..|ls| - 1]) + (if l.Advance? then l.elapsed else 0)
  }

  /** What thread t has stamped and not yet committed. */
  function StampOf<K, V>(ls: seq<Label<K, V>>, t: nat): Option<(K, Entry<V>)> {
    if ls == [] then None
    else
      var init, l := ls[..|ls| - 1], ls[|ls| - 1];
      if l.SetStamp? && l.t == t then
        Some((l.key, Entry(l.value, TimeOf(init), TimeOf(init) + l.life, l.sources)))
      else if l.SetCommit? && l.t == t then None
      else StampOf(init, t)
  }

  /** The log after some labels. */
  function EventsOf<K(==), V>(ls: seq<Label<K, V>>): seq<Event<K, V>> {
    if ls == [] then []
    else
      var init, l := ls[..|ls| - 1], ls[|ls| - 1];
      EventsOf(init) +
      match l
      case Advance(_) => []
      case GetRead(_, _) => []
      case SetStamp(_, _, _, _, _) => []
      case GetSweep(_) => [Swept(TimeOf(init))]
      case Keys => [Swept(TimeOf(init))]
      case SetCommit(t) =>
        (match StampOf(init, t)
         case Some(stamp) => [Swept(stamp.1.created), Stored(stamp.0, stamp.1)]
         case None => [])
      case Delete(key) => [Removed(key)]
      case DeleteIfPresent(key) => if Remaining(EventsOf(init), key).Some? then [Removed(key)] else []
      case Clear => [Cleared]
  }

  /** The state is what the labels say. */
  ghost predicate Tells<K(!new), V>(s: System<K, V>, ls: seq<Label<K, V>>) {
    && s.clock == TimeOf(ls)
    && s.log == EventsOf(ls)
    && forall t: nat :: StampTold(s, ls, t)
  }

  ghost predicate StampTold<K, V>(s: System<K, V>, ls: seq<Label<K, V>>, t: nat) {
    match TaskOf(s, t)
    case Stamped(key, value, life, now, sources) => StampOf(ls, t) == Some((key, Entry(value, now, now + life, sources)))
    case _ => StampOf(ls, t).None?
  }

  lemma {:induction false} ExecSnoc<K(!new), V>(s: System<K, V>, ls: seq<Label<K, V>>, l: Label<K, V>)
    requires Inv(s)
    ensures var before := Exec(s, ls);
            Exec(s, ls + [l]) == if before.Some? && Enabled(before.value, l) then Some(Apply(before.value, l)) else None
    decreases |ls|
  {
    if ls == [] {
      assert [] + [l] == [l] && [l][1..] == [];
      if Enabled(s, l) {
        StepKeepsInv(s, l);
      }
    } else {
      assert (ls + [l])[0] == ls[0] && (ls + [l])[1..] == ls[1..] + [l];
      if Enabled(s, ls[0]) {
        StepKeepsInv(s, ls[0]);
        ExecSnoc(Apply(s, ls[0]), ls[1..], l);
      }
    }
  }

  lemma SnocLabel<K, V>(ls: seq<Label<K, V>>, l: Label<K, V>)
    ensures (ls + [l])[..|ls|] == ls && (ls + [l])[|ls|] == l
  {
  }

  lemma StepIsTold<K(!new), V>(s: System<K, V>, ls: seq<Label<K, V>>, l: Label<K, V>)
    requires Inv(s) && Enabled(s, l) && Tells(s, ls)
    ensures Tells(Apply(s, l), ls + [l])
  {
    SnocLabel(ls, l);
    var u := Apply(s, l);
    forall t: nat
      ensures StampTold(u, ls + [l], t)
    {
      assert StampTold(s, ls, t);
    }
    EventTold(s, ls, l);
  }

  lemma EventTold<K(!new), V>(s: System<K, V>, ls: seq<Label<K, V>>, l: Label<K, V>)
    requires Inv(s) && Enabled(s, l) && Tells(s, ls)
    ensures Apply(s, l).log == EventsOf(ls + [l])
  {
    SnocLabel(ls, l);
    assert s.log + [] == s.log;
    if l.SetCommit? {
      assert StampTold(s, ls, l.t);
    }
  }

  /** The clock, the log and the stamps of every run are what its labels say: each commit stores
      exactly what its own thread stamped, with the time of the stamp. */
  lemma {:induction false} RunsAreTold<K(!new), V>(ls: seq<Label<K, V>>)
    requires Exec(Initial<K, V>(), ls).Some?
    ensures Tells(Exec(Initial<K, V>(), ls).value, ls)
  {
    if ls != [] {
      var init, l := ls[..|ls| - 1], ls[|ls| - 1];
      assert init + [l] == ls;
      ExecSnoc(Initial<K, V>(), init, l);
      RunsAreTold(init);
      StepIsTold(Exec(Initial<K, V>(), init).value, init, l);
    }
  }

  // ---- what a read returns ---------------------------------------------------------------

  /** Label p says what becomes of a key: it commits a store of it, removes it or clears all. */
  predicate DecidesKey<K(==), V>(ls: seq<Label<K, V>>, p: nat, key: K)
    requires p < |ls|
  {
    match ls[p]
    case SetCommit(t) => StampOf(ls[..p], t).Some? && StampOf(ls[..p], t).value.0 == key
    case Delete(k) => k == key
    case DeleteIfPresent(k) => k == key
    case Clear => true
    case _ => false
  }

  /** Label p commits `e` for the key, and no later label decides it. */
  ghost predicate LastCommit<K, V>(ls: seq<Label<K, V>>, p: nat, key: K, e: Entry<V>) {
    && p < |ls| && ls[p].SetCommit?
    && StampOf(ls[..p], ls[p].t) == Some((key, e))
    && forall q :: p < q < |ls| ==> !DecidesKey(ls, q, key)
  }

  /** What the last label deciding the key left. */
  function LastStore<K(==), V>(ls: seq<Label<K, V>>, key: K): Option<Entry<V>> {
    if ls == [] then None
    else
      var p := |ls| - 1;
      if DecidesKey(ls, p, key) then
        (if ls[p].SetCommit? then Some(StampOf(ls[..p], ls[p].t).value.1) else None)
      else LastStore(ls[..p], key)
  }

  lemma DecidesEarlier<K, V>(ls: seq<Label<K, V>>, p: nat, key: K)
    requires p < |ls| - 1
    ensures DecidesKey(ls, p, key) <==> DecidesKey(ls[..|ls| - 1], p, key)
    ensures ls[..|ls| - 1][..p] == ls[..p]
  {
  }

  lemma {:induction false} LastStoreMeaning<K(!new), V>(ls: seq<Label<K, V>>, key: K, e: Entry<V>)
    ensures LastStore(ls, key) == Some(e) <==> exists p: nat :: LastCommit(ls, p, key, e)
  {
    if ls != [] {
      var last := |ls| - 1;
      var init := ls[..last];
      LastStoreMeaning(init, key, e);
      if DecidesKey(ls, last, key) {
        if LastStore(ls, key) == Some(e) {
          assert LastCommit(ls, last, key, e);
        }
      } else {
        if p: nat :| LastCommit(init, p, key, e) {
          LastCommitGrows(ls, p, key, e);
        }
        if p: nat :| LastCommit(ls, p, key, e) {
          LastCommitShrinks(ls, p, key, e);
        }
      }
    }
  }

  lemma LastCommitGrows<K(!new), V>(ls: seq<Label<K, V>>, p: nat, key: K, e: Entry<V>)
    requires ls != [] && !DecidesKey(ls, |ls| - 1, key) && LastCommit(ls[..|ls| - 1], p, key, e)
    ensures LastCommit(ls, p, key, e)
  {
    DecidesEarlier(ls, p, key);
    forall q | p < q < |ls|
      ensures !DecidesKey(ls, q, key)
    {
      if q < |ls| - 1 {
        DecidesEarlier(ls, q, key);
      }
    }
  }

  lemma LastCommitShrinks<K(!new), V>(ls: seq<Label<K, V>>, p: nat, key: K, e: Entry<V>)
    requires ls != [] && !DecidesKey(ls, |ls| - 1, key) && LastCommit(ls, p, key, e)
    ensures LastCommit(ls[..|ls| - 1], p, key, e)
  {
    DecidesEarlier(ls, p, key);
    var init := ls[..|ls| - 1];
    forall q | p < q < |init|
      ensures !DecidesKey(init, q, key)
    {
      DecidesEarlier(ls, q, key);
    }
  }

  /** The log and the labels agree on what is stored, except for an entry that had expired when
      DeleteIfPresent found nothing to remove. */
  ghost predicate AgreeOnLive<V>(inLog: Option<Entry<V>>, inLabels: Option<Entry<V>>, clock: int) {
    inLog == inLabels || (inLabels.None? && inLog.Some? && !LiveAt(inLog.value, clock))
  }

  lemma LogAgreesStep<K(!new), V>(ls: seq<Label<K, V>>, l: Label<K, V>, key: K)
    requires SweptBy(EventsOf(ls), TimeOf(ls)) && AgreeOnLive(LastSet(EventsOf(ls), key), LastStore(ls, key), TimeOf(ls))
    ensures AgreeOnLive(LastSet(EventsOf(ls + [l]), key), LastStore(ls + [l], key), TimeOf(ls + [l]))
  {
    SnocLabel(ls, l);
    var more, log := ls + [l], EventsOf(ls);
    assert log + [] == log;
    SweepsAreInvisible(log, key, TimeOf(ls));
    if l.SetCommit? && StampOf(ls, l.t).Some? {
      var stamp := StampOf(ls, l.t).value;
      var swept := log + [Swept(stamp.1.created)];
      assert EventsOf(more) == swept + [Stored(stamp.0, stamp.1)];
      LastSetSnoc(log, Swept(stamp.1.created), key);
      LastSetSnoc(swept, Stored(stamp.0, stamp.1), key);
    } else if |EventsOf(more)| > |log| {
      assert EventsOf(more) == log + [EventsOf(more)[|log|]];
      LastSetSnoc(log, EventsOf(more)[|log|], key);
    }
  }

  lemma LastSetSnoc<K(!new), V>(log: seq<Event<K, V>>, ev: Event<K, V>, key: K)
    ensures LastSet(log + [ev], key)
         == if Decides(ev, key) then (if ev.Stored? then Some(ev.entry) else None) else LastSet(log, key)
  {
    assert (log + [ev])[..|log|] == log;
  }

  lemma {:induction false} LogAgrees<K(!new), V>(ls: seq<Label<K, V>>, key: K)
    requires Exec(Initial<K, V>(), ls).Some?
    ensures AgreeOnLive(LastSet(EventsOf(ls), key), LastStore(ls, key), TimeOf(ls))
  {
    if ls != [] {
      var init, l := ls[..|ls| - 1], ls[|ls| - 1];
      assert init + [l] == ls;
      ExecSnoc(Initial<K, V>(), init, l);
      LogAgrees(init, key);
      RunsAreTold(init);
      LogAgreesStep(init, l, key);
    }
  }

  /** In every run, a read of a key returns an entry exactly when the last label deciding the
      key is a commit of that entry, and it is still live: it was stamped less than its
      lifetime ago. */
  lemma ReadsAreLastCommits<K(!new), V>(ls: seq<Label<K, V>>, key: K, e: Entry<V>)
    requires Exec(Initial<K, V>(), ls).Some?
    ensures Read(Exec(Initial<K, V>(), ls).value, key) == Some(e)
            <==> TimeOf(ls) < e.expires && exists p: nat :: LastCommit(ls, p, key, e)
  {
    RunsAreTold(ls);
    ReadsAreLinearized(ls, key);
    LogAgrees(ls, key);
    LastStoreMeaning(ls, key, e);
  }

  // ---- nothing above is vacuous ----------------------------------------------------------

  /** In every state a resting thread can begin any read or store, a stamped one can commit,
      one in the gap can sweep, and everyone else can do anything at any time. */
  lemma ThreadsGoOn<K(!new), V>(s: System<K, V>, t: nat, key: K, value: V, life: int, sources: seq<string>, d: nat)
    ensures match TaskOf(s, t)
            case Resting => Enabled(s, GetRead(t, key)) && Enabled(s, SetStamp(t, key, value, life, sources))
            case InGap => Enabled(s, GetSweep(t))
            case Stamped(_, _, _, _, _) => Enabled(s, SetCommit(t))
    ensures Enabled(s, Advance(d)) && Enabled(s, Delete(key)) && Enabled(s, DeleteIfPresent(key))
    ensures Enabled(s, Clear) && Enabled(s, Keys)
  {
  }

  /** A first store can be read back for as long as it lives, and no longer. */
  lemma StoredCanBeRead<K(!new), V>(t: nat, key: K, value: V, life: int, sources: seq<string>, wait: nat)
    ensures var ls := [SetStamp(t, key, value, life, sources), SetCommit(t), Advance(wait)];
            Exec(Initial<K, V>(), ls).Some? &&
            Read(Exec(Initial<K, V>(), ls).value, key) == if wait < life then Some(Entry(value, 0, life, sources)) else None
  {
    var a, b, c := SetStamp(t, key, value, life, sources), SetCommit(t), Advance(wait);
    var s := Initial<K, V>();
    ExecSnoc(s, [], a);
    ExecSnoc(s, [a], b);
    ExecSnoc(s, [a, b], c);
    assert [] + [a] == [a] && [a] + [b] == [a, b] && [a, b] + [c] == [a, b, c];
  }
}
