/** The cache under concurrency: a Get that finds its entry expired gives up the read lock
    before it takes the write lock to sweep, and a Set reads the clock before it takes the
    lock. Each label is one critical section; any order of labels is a run. */
module CacheSteps {
  import opened Options
  import opened CacheLog

  datatype Task<K, V> =
    | Resting
    | InGap                                            // an expired read, about to sweep
    | Stamped(key: K, value: V, life: int, now: int, sources: seq<string>)

  datatype System<K, V> = System(clock: int, entries: map<K, Entry<V>>, tasks: map<nat, Task<K, V>>,
                                 log: seq<Event<K, V>>)

  datatype Label<K, V> =
    | Advance(elapsed: nat)
    | GetRead(t: nat, key: K)
    | GetSweep(t: nat)
    | SetStamp(t: nat, key: K, value: V, life: int, sources: seq<string>)
    | SetCommit(t: nat)
    | Delete(key: K)
    | DeleteIfPresent(key: K)
    | Clear
    | Keys

  const START_CLOCK := 0

  function Initial<K, V>(): System<K, V> { System(START_CLOCK, map[], map[], []) }

  function TaskOf<K, V>(s: System<K, V>, t: nat): Task<K, V> {
    if t in s.tasks then s.tasks[t] else Resting
  }

  predicate Enabled<K, V>(s: System<K, V>, l: Label<K, V>) {
    match l
    case GetRead(t, _) => TaskOf(s, t).Resting?
    case GetSweep(t) => TaskOf(s, t).InGap?
    case SetStamp(t, _, _, _, _) => TaskOf(s, t).Resting?
    case SetCommit(t) => TaskOf(s, t).Stamped?
    case _ => true
  }

  function Sweep<K(==), V>(entries: map<K, Entry<V>>, now: int): map<K, Entry<V>> {
    map k | k in entries && LiveAt(entries[k], now) :: entries[k]
  }

  /** What the read section of a Get returns. */
  function Read<K(==), V>(s: System<K, V>, key: K): Option<Entry<V>> {
    if key in s.entries && LiveAt(s.entries[key], s.clock) then Some(s.entries[key]) else None
  }

  function Apply<K(==), V>(s: System<K, V>, l: Label<K, V>): System<K, V>
    requires Enabled(s, l)
  {
    match l
    case Advance(d) => s.(clock := s.clock + d)
    case GetRead(t, key) =>
      if key in s.entries && !LiveAt(s.entries[key], s.clock) then s.(tasks := s.tasks[t := InGap]) else s
    case GetSweep(t) =>
      s.(entries := Sweep(s.entries, s.clock), tasks := s.tasks[t := Resting], log := s.log + [Swept(s.clock)])
    case SetStamp(t, key, value, life, sources) =>
      s.(tasks := s.tasks[t := Stamped(key, value, life, s.clock, sources)])
    case SetCommit(t) =>
      var w := s.tasks[t];
      var e := Entry(w.value, w.now, w.now + w.life, w.sources);
      s.(entries := Sweep(s.entries, w.now)[w.key := e], tasks := s.tasks[t := Resting],
         log := s.log + [Swept(w.now)] + [Stored(w.key, e)])
    case Delete(key) => s.(entries := s.entries - {key}, log := s.log + [Removed(key)])
    case DeleteIfPresent(key) =>
      if key in s.entries then s.(entries := s.entries - {key}, log := s.log + [Removed(key)]) else s
    case Clear => s.(entries := map[], log := s.log + [Cleared])
    case Keys => s.(entries := Sweep(s.entries, s.clock), log := s.log + [Swept(s.clock)])
  }

  /** The map is what remains by the log, and nobody sweeps with a time still to come. */
  ghost predicate Inv<K(!new), V>(s: System<K, V>) {
    && SweptBy(s.log, s.clock)
    && (forall t :: t in s.tasks && s.tasks[t].Stamped? ==> s.tasks[t].now <= s.clock)
    && forall k :: if k in s.entries then Remaining(s.log, k) == Some(s.entries[k])
                   else Remaining(s.log, k).None?
  }

  lemma SnocLog<K, V>(log: seq<Event<K, V>>, ev: Event<K, V>)
    ensures (log + [ev])[..|log|] == log && (log + [ev])[|log|] == ev
  {
  }

  /** Every critical section keeps the map in step with the log. */
  lemma StepKeepsInv<K(!new), V>(s: System<K, V>, l: Label<K, V>)
    requires Inv(s) && Enabled(s, l)
    ensures Inv(Apply(s, l))
  {
    var log := s.log;
    match l
    case GetSweep(t) => SnocLog(log, Swept(s.clock));
    case Keys => SnocLog(log, Swept(s.clock));
    case SetCommit(t) =>
      var w := s.tasks[t];
      var e := Entry(w.value, w.now, w.now + w.life, w.sources);
      SnocLog(log, Swept(w.now));
      SnocLog(log + [Swept(w.now)], Stored(w.key, e));
    case Delete(key) => SnocLog(log, Removed(key));
    case DeleteIfPresent(key) => SnocLog(log, Removed(key));
    case Clear => SnocLog(log, Cleared);
    case _ =>
  }

  ghost function Exec<K(!new), V>(s: System<K, V>, ls: seq<Label<K, V>>): (t: Option<System<K, V>>)
    requires Inv(s)
    ensures t.Some? ==> Inv(t.value)
    decreases |ls|
  {
    if ls == [] then Some(s)
    else if !Enabled(s, ls[0]) then None
    else
      StepKeepsInv(s, ls[0]);
      Exec(Apply(s, ls[0]), ls[1..])
  }

  /** In every reachable state a Get's read section returns what the never-purged map holds:
      the last store deciding the key, if it is live at that moment. */
  lemma ReadsAreLinearized<K(!new), V>(ls: seq<Label<K, V>>, key: K)
    requires Exec(Initial<K, V>(), ls).Some?
    ensures var s := Exec(Initial<K, V>(), ls).value;
            var e := LastSet(s.log, key);
            Read(s, key) == if e.Some? && LiveAt(e.value, s.clock) then e else None
  {
    var s := Exec(Initial<K, V>(), ls).value;
    SweepsAreInvisible(s.log, key, s.clock);
  }

  /** No step, in any reachable state, takes an entry that is live at the clock unless it
      removes, clears or replaces that very key. */
  lemma LiveEntriesSurvive<K(!new), V>(s: System<K, V>, l: Label<K, V>, key: K)
    requires Inv(s) && Enabled(s, l) && key in s.entries && LiveAt(s.entries[key], s.clock)
    requires !(l.Delete? && l.key == key) && !(l.DeleteIfPresent? && l.key == key) && !l.Clear?
    requires l.SetCommit? ==> s.tasks[l.t].key != key
    ensures key in Apply(s, l).entries && Apply(s, l).entries[key] == s.entries[key]
  {
  }

  /** The gap in Get is harmless: a replacement committed after the expired read and before
      its sweep is still there after the sweep, whatever time the sweep reads, if it is live
      then. */
  lemma ReplacementSurvivesGap<K(!new), V>(s: System<K, V>, reader: nat, writer: nat, key: K, wait: nat)
    requires Inv(s) && reader != writer
    requires TaskOf(s, reader).Resting? && key in s.entries && !LiveAt(s.entries[key], s.clock)
    requires TaskOf(s, writer).Stamped? && s.tasks[writer].key == key
    ensures var ls := [GetRead(reader, key), SetCommit(writer), Advance(wait), GetSweep(reader)];
            Exec(s, ls).Some? &&
            var t := Exec(s, ls).value;
            var w := s.tasks[writer];
            (key in t.entries <==> t.clock < w.now + w.life) && (key in t.entries ==> t.entries[key].value == w.value)
  {
    var l1, l2, l3, l4 := GetRead(reader, key), SetCommit(writer), Advance(wait), GetSweep(reader);
    var s1 := Apply(s, l1);
    StepKeepsInv(s, l1);
    var s2 := Apply(s1, l2);
    StepKeepsInv(s1, l2);
    var s3 := Apply(s2, l3);
    StepKeepsInv(s2, l3);
    var ls := [l1, l2, l3, l4];
    assert ls[1..] == [l2, l3, l4] && [l2, l3, l4][1..] == [l3, l4] && [l3, l4][1..] == [l4] && [l4][1..] == [];
    StepKeepsInv(s3, l4);
    assert Exec(s3, [l4]) == Exec(Apply(s3, l4), []);
    assert Exec(s2, [l3, l4]) == Exec(s3, [l4]);
    assert Exec(s1, [l2, l3, l4]) == Exec(s2, [l3, l4]);
    assert Exec(s, ls) == Exec(s1, [l2, l3, l4]);
  }

  /** How many DeleteIfPresent calls on `key` answered true along a run. */
  ghost function Reported<K(!new), V>(s: System<K, V>, ls: seq<Label<K, V>>, key: K): nat
    requires Inv(s) && Exec(s, ls).Some?
    decreases |ls|
  {
    if ls == [] then 0
    else
      StepKeepsInv(s, ls[0]);
      (if ls[0] == DeleteIfPresent(key) && key in s.entries then 1 else 0) + Reported(Apply(s, ls[0]), ls[1..], key)
  }

  /** How many stores of `key` were committed along a run. */
  ghost function Committed<K(!new), V>(s: System<K, V>, ls: seq<Label<K, V>>, key: K): nat
    requires Inv(s) && Exec(s, ls).Some?
    decreases |ls|
  {
    if ls == [] then 0
    else
      StepKeepsInv(s, ls[0]);
      (if ls[0].SetCommit? && s.tasks[ls[0].t].key == key then 1 else 0) + Committed(Apply(s, ls[0]), ls[1..], key)
  }

  /** Every true answer is paid for by a store: from any reachable state on, removals reported
      for a key never exceed the stores of it since, plus the entry there at the start. With no
      store in between, at most one caller hears true. */
  lemma {:induction false} RemovalsArePaidFor<K(!new), V>(s: System<K, V>, ls: seq<Label<K, V>>, key: K)
    requires Inv(s) && Exec(s, ls).Some?
    ensures Reported(s, ls, key) + (if key in Exec(s, ls).value.entries then 1 else 0)
         <= Committed(s, ls, key) + (if key in s.entries then 1 else 0)
    decreases |ls|
  {
    if ls != [] {
      StepKeepsInv(s, ls[0]);
      RemovalsArePaidFor(Apply(s, ls[0]), ls[1..], key);
    }
  }
}
