/**
 Push debouncing. Two Redis keys, a sorted set of timers and a hash of payloads, are changed by
 two atomic scripts; any number of API processes arm windows while any number of workers list
 the due windows and pop them one by one. Every script or listing is one atomic event.
 */
module LiveScan {
  import opened Wrappers

  type Key = string
  type Payload = string
  type Millis = int

  // ------------------------------------------------------------ the two scripts

  // timers: the sorted set (member -> fire time); data: the hash (member -> newest payload).
  datatype Store = Store(timers: map<Key, Millis>, data: map<Key, Payload>)

  const EMPTY := Store(map[], map[])

  // HSET always; ZADD NX only when no timer is running.
  function Arm(s: Store, k: Key, p: Payload, fireAt: Millis): Store {
    Store(if k in s.timers then s.timers else s.timers[k := fireAt], s.data[k := p])
  }

  // ZREM, and only if that removed a timer HGET and HDEL.
  function Pop(s: Store, k: Key): (Store, Option<Payload>) {
    if k !in s.timers then (s, None)
    else (Store(s.timers - {k}, s.data - {k}), if k in s.data then Some(s.data[k]) else None)
  }

  function Due(s: Store, now: Millis): set<Key> {
    set k | k in s.timers && s.timers[k] <= now
  }

  // ------------------------------------------------------------ histories

  datatype Event =
    | Armed(key: Key, payload: Payload, fireAt: Millis)
    | Popped(worker: nat, key: Key)

  function StoreAfter(trace: seq<Event>): Store {
    if trace == [] then EMPTY
    else
      var before := StoreAfter(trace[..|trace| - 1]);
      match trace[|trace| - 1]
      case Armed(k, p, t) => Arm(before, k, p, t)
      case Popped(_, k) => Pop(before, k).0
  }

  // What the pop at position i of the history returned.
  function Returned(trace: seq<Event>, i: nat): Option<Payload>
    requires i < |trace| && trace[i].Popped?
  {
    Pop(StoreAfter(trace[..i]), trace[i].key).1
  }

  /** The last event on a key: the reference the store is compared with. */
  function LastOn(trace: seq<Event>, k: Key): (r: Option<nat>)
    ensures r.Some? ==> r.value < |trace| && trace[r.value].key == k
    ensures r.Some? ==> forall j | r.value < j < |trace| :: trace[j].key != k
    ensures r.None? ==> forall j | 0 <= j < |trace| :: trace[j].key != k
  {
    if trace == [] then None
    else if trace[|trace| - 1].key == k then Some(|trace| - 1)
    else LastOn(trace[..|trace| - 1], k)
  }

  // A window is open when the last event on its key is an arm.
  predicate Open(trace: seq<Event>, k: Key) {
    var n := LastOn(trace, k);
    n.Some? && trace[n.value].Armed?
  }

  // The arm that opened the window: the first one after the last pop of the key.
  function Opener(trace: seq<Event>, k: Key): (n: nat)
    requires Open(trace, k)
    ensures n < |trace| && trace[n].Armed? && trace[n].key == k
    ensures !Open(trace[..n], k)
    ensures forall j | n <= j < |trace| && trace[j].key == k :: trace[j].Armed?
  {
    var front := trace[..|trace| - 1];
    if Open(front, k) then
      assert forall j | 0 <= j < |front| :: front[j] == trace[j];
      var n := Opener(front, k);
      assert front[..n] == trace[..n];
      n
    else |trace| - 1
  }

  /** The store is the history: both halves hold exactly the open windows. */
  lemma {:induction false} StoreIsHistory(trace: seq<Event>, k: Key)
    ensures k in StoreAfter(trace).timers <==> Open(trace, k)
    ensures k in StoreAfter(trace).data <==> Open(trace, k)
    ensures Open(trace, k) ==>
      && StoreAfter(trace).data[k] == trace[LastOn(trace, k).value].payload
      && StoreAfter(trace).timers[k] == trace[Opener(trace, k)].fireAt
  {
    if trace != [] {
      var front := trace[..|trace| - 1];
      StoreIsHistory(front, k);
    }
  }

  // ------------------------------------------------------------ every armed payload is accounted for

  function NextOn(trace: seq<Event>, i: nat): (r: Option<nat>)
    requires i < |trace|
    ensures r.Some? ==> i < r.value < |trace| && trace[r.value].key == trace[i].key
    ensures r.Some? ==> forall j | i < j < r.value :: trace[j].key != trace[i].key
    ensures r.None? ==> forall j | i < j < |trace| :: trace[j].key != trace[i].key
  {
    NextFrom(trace, trace[i].key, i + 1)
  }

  function NextFrom(trace: seq<Event>, k: Key, from: nat): (r: Option<nat>)
    requires from <= |trace|
    ensures r.Some? ==> from <= r.value < |trace| && trace[r.value].key == k
    ensures r.Some? ==> forall j | from <= j < r.value :: trace[j].key != k
    ensures r.None? ==> forall j | from <= j < |trace| :: trace[j].key != k
    decreases |trace| - from
  {
    if from == |trace| then None
    else if trace[from].key == k then Some(from)
    else NextFrom(trace, k, from + 1)
  }

  datatype Fate = Waiting | Overwritten(next: nat) | Delivered(pop: nat)

  function FateOf(trace: seq<Event>, i: nat): Fate
    requires i < |trace| && trace[i].Armed?
  {
    match NextOn(trace, i)
    case None => Waiting
    case Some(j) => if trace[j].Armed? then Overwritten(j) else Delivered(j)
  }

  lemma LastOnIs(trace: seq<Event>, k: Key, i: nat)
    requires i < |trace| && trace[i].key == k
    requires forall j | i < j < |trace| :: trace[j].key != k
    ensures LastOn(trace, k) == Some(i)
  {
    var n := LastOn(trace, k).value;
    assert trace[n].key == k;
  }

  /** An armed payload is delivered by one pop, still in the store, or overwritten by a later arm of its key. */
  lemma EveryArmIsAccountedFor(trace: seq<Event>, i: nat)
    requires i < |trace| && trace[i].Armed?
    ensures FateOf(trace, i).Waiting? ==>
      trace[i].key in StoreAfter(trace).data && StoreAfter(trace).data[trace[i].key] == trace[i].payload
    ensures FateOf(trace, i).Overwritten? ==>
      var n := FateOf(trace, i).next; i < n < |trace| && trace[n].Armed? && trace[n].key == trace[i].key
    ensures FateOf(trace, i).Delivered? ==>
      var n := FateOf(trace, i).pop;
      && i < n < |trace| && trace[n].Popped? && trace[n].key == trace[i].key
      && Returned(trace, n) == Some(trace[i].payload)
  {
    var k := trace[i].key;
    var n := NextOn(trace, i);
    if n.None? {
      LastOnIs(trace, k, i);
      StoreIsHistory(trace, k);
    } else if trace[n.value].Popped? {
      var before := trace[..n.value];
      assert before[i] == trace[i];
      LastOnIs(before, k, i);
      StoreIsHistory(before, k);
    }
  }

  lemma DeliveredIsLast(trace: seq<Event>, j: nat, i: nat)
    requires i < j < |trace| && trace[i].Armed? && FateOf(trace, i) == Delivered(j)
    ensures trace[i].key == trace[j].key && LastOn(trace[..j], trace[j].key) == Some(i)
  {
    LastOnIs(trace[..j], trace[j].key, i);
  }

  lemma LastIsDelivered(trace: seq<Event>, j: nat, i: nat)
    requires i < j < |trace| && trace[j].Popped? && trace[i].Armed? && LastOn(trace[..j], trace[j].key) == Some(i)
    ensures FateOf(trace, i) == Delivered(j)
  {
    assert forall m | i < m < j :: trace[..j][m].key != trace[j].key;
  }

  /** A pop delivers exactly when one arm has it as its fate, and then the newest arm before it. */
  lemma EveryDeliveryIsOneArm(trace: seq<Event>, j: nat)
    requires j < |trace| && trace[j].Popped?
    ensures Returned(trace, j).Some? <==>
      exists i | 0 <= i < j :: trace[i].Armed? && FateOf(trace, i) == Delivered(j)
    ensures forall i, i' | 0 <= i < j && 0 <= i' < j && trace[i].Armed? && trace[i'].Armed?
      && FateOf(trace, i) == Delivered(j) && FateOf(trace, i') == Delivered(j) :: i == i'
    ensures Returned(trace, j).Some? ==>
      var n := LastOn(trace[..j], trace[j].key);
      n.Some? && trace[n.value].Armed? && Returned(trace, j) == Some(trace[n.value].payload)
  {
    var k := trace[j].key;
    var n := LastOn(trace[..j], k);
    forall i | 0 <= i < j && trace[i].Armed? && FateOf(trace, i) == Delivered(j)
      ensures n == Some(i)
    {
      DeliveredIsLast(trace, j, i);
    }
    if n.Some? && trace[n.value].Armed? {
      LastIsDelivered(trace, j, n.value);
    }
    hide FateOf, LastOn;
    StoreIsHistory(trace[..j], k);
  }

  /** Two pops that both deliver close two different windows. */
  lemma EachWindowIsDeliveredOnce(trace: seq<Event>, j: nat, j': nat)
    requires j < j' < |trace| && trace[j].Popped? && trace[j'].Popped? && trace[j].key == trace[j'].key
    requires Returned(trace, j).Some? && Returned(trace, j').Some?
    ensures Open(trace[..j], trace[j].key) && Open(trace[..j'], trace[j].key)
    ensures Opener(trace[..j], trace[j].key) < j < Opener(trace[..j'], trace[j].key) < j'
  {
    var k := trace[j].key;
    StoreIsHistory(trace[..j], k);
    StoreIsHistory(trace[..j'], k);
    assert trace[..j'][j] == trace[j];
  }

  // ------------------------------------------------------------ workers draining the due windows

  // One PopDuePending call: the time it asked for, how long the history was at its listing, the keys left.
  datatype Drain = Drain(now: Millis, listedAt: nat, todo: seq<Key>)

  datatype System = System(trace: seq<Event>, drains: map<nat, Drain>)

  datatype Step =
    | DoArm(key: Key, payload: Payload, fireAt: Millis)
    | DoList(worker: nat, now: Millis, keys: seq<Key>)
    | DoPop(worker: nat)
    | DoReturn(worker: nat) // every listed key was popped
    | DoFail(worker: nat)   // a Redis error ends the call early

  predicate Distinct(keys: seq<Key>) {
    forall i, j | 0 <= i < j < |keys| :: keys[i] != keys[j]
  }

  // A listing enumerates exactly the due keys, each once.
  ghost predicate Lists(keys: seq<Key>, s: Store, now: Millis) {
    Distinct(keys) && forall k :: k in keys <==> k in Due(s, now)
  }

  ghost predicate Enabled(s: System, step: Step) {
    match step
    case DoArm(_, _, _) => true
    case DoList(w, now, keys) => w !in s.drains && Lists(keys, StoreAfter(s.trace), now)
    case DoPop(w) => w in s.drains && s.drains[w].todo != []
    case DoReturn(w) => w in s.drains && s.drains[w].todo == []
    case DoFail(w) => w in s.drains
  }

  ghost function Apply(s: System, step: Step): System
    requires Enabled(s, step)
  {
    match step
    case DoArm(k, p, t) => s.(trace := s.trace + [Armed(k, p, t)])
    case DoList(w, now, keys) => s.(drains := s.drains[w := Drain(now, |s.trace|, keys)])
    case DoPop(w) =>
      var d := s.drains[w];
      System(s.trace + [Popped(w, d.todo[0])], s.drains[w := d.(todo := d.todo[1..])])
    case DoReturn(w) => s.(drains := s.drains - {w})
    case DoFail(w) => s.(drains := s.drains - {w})
  }

  // Every run of any number of API processes and workers, from an empty store.
  ghost predicate Run(steps: seq<Step>)
    decreases |steps|, 0
  {
    steps == []
    || (Run(steps[..|steps| - 1]) && Enabled(After(steps[..|steps| - 1]), steps[|steps| - 1]))
  }

  ghost function After(steps: seq<Step>): System
    requires Run(steps)
    decreases |steps|, 1
  {
    if steps == [] then System([], map[]) else Apply(After(steps[..|steps| - 1]), steps[|steps| - 1])
  }

  ghost predicate PoppedBy(trace: seq<Event>, w: nat, k: Key, from: nat)
    requires from <= |trace|
  {
    exists j | from <= j < |trace| :: trace[j] == Popped(w, k)
  }

  ghost predicate DrainInv(trace: seq<Event>, w: nat, d: Drain) {
    && d.listedAt <= |trace|
    && Distinct(d.todo)
    && (forall k | k in d.todo ::
          k in Due(StoreAfter(trace[..d.listedAt]), d.now) && !PoppedBy(trace, w, k, d.listedAt))
    && (forall k | k in Due(StoreAfter(trace[..d.listedAt]), d.now) :: k in d.todo || PoppedBy(trace, w, k, d.listedAt))
  }

  ghost predicate Inv(s: System) {
    forall w | w in s.drains :: DrainInv(s.trace, w, s.drains[w])
  }

  lemma PoppedByAppend(trace: seq<Event>, e: Event, w: nat, k: Key, from: nat)
    requires from <= |trace|
    ensures PoppedBy(trace + [e], w, k, from) <==> PoppedBy(trace, w, k, from) || e == Popped(w, k)
  {
    var next := trace + [e];
    assert next[|trace|] == e;
    if PoppedBy(trace, w, k, from) {
      var j :| from <= j < |trace| && trace[j] == Popped(w, k);
      assert next[j] == Popped(w, k);
    }
  }

  lemma DrainSurvives(trace: seq<Event>, e: Event, w: nat, d: Drain)
    requires DrainInv(trace, w, d) && (e.Popped? ==> e.worker != w)
    ensures DrainInv(trace + [e], w, d)
  {
    assert (trace + [e])[..d.listedAt] == trace[..d.listedAt];
    forall k
      ensures PoppedBy(trace + [e], w, k, d.listedAt) == PoppedBy(trace, w, k, d.listedAt)
    {
      PoppedByAppend(trace, e, w, k, d.listedAt);
    }
  }

  lemma DrainAdvances(trace: seq<Event>, w: nat, d: Drain)
    requires DrainInv(trace, w, d) && d.todo != []
    ensures DrainInv(trace + [Popped(w, d.todo[0])], w, d.(todo := d.todo[1..]))
  {
    var e := Popped(w, d.todo[0]);
    assert (trace + [e])[..d.listedAt] == trace[..d.listedAt];
    forall k
      ensures PoppedBy(trace + [e], w, k, d.listedAt) == (PoppedBy(trace, w, k, d.listedAt) || k == d.todo[0])
    {
      PoppedByAppend(trace, e, w, k, d.listedAt);
    }
    assert forall k | k in d.todo :: k == d.todo[0] || k in d.todo[1..];
  }

  lemma StepKeepsInv(s: System, step: Step)
    requires Inv(s) && Enabled(s, step)
    ensures Inv(Apply(s, step))
  {
    var t := Apply(s, step);
    forall w | w in t.drains
      ensures DrainInv(t.trace, w, t.drains[w])
    {
      match step
      case DoArm(k, p, at) => DrainSurvives(s.trace, Armed(k, p, at), w, s.drains[w]);
      case DoList(w', now, keys) => assert s.trace[..|s.trace|] == s.trace;
      case DoPop(w') =>
        if w == w' {
          DrainAdvances(s.trace, w, s.drains[w]);
        } else {
          DrainSurvives(s.trace, Popped(w', s.drains[w'].todo[0]), w, s.drains[w]);
        }
      case DoReturn(_) =>
      case DoFail(_) =>
    }
  }

  lemma {:induction false} InvHolds(steps: seq<Step>)
    requires Run(steps)
    ensures Inv(After(steps))
  {
    if steps != [] {
      InvHolds(steps[..|steps| - 1]);
      StepKeepsInv(After(steps[..|steps| - 1]), steps[|steps| - 1]);
    }
  }

  // ------------------------------------------------------------ what the workers can rely on

  // A window nobody pops stays open, with its first fire time, however often it is armed again.
  lemma {:induction false} WindowIsStable(trace: seq<Event>, n: nat, k: Key)
    requires n <= |trace| && Open(trace[..n], k)
    requires forall j | n <= j < |trace| :: !(trace[j].Popped? && trace[j].key == k)
    ensures Open(trace, k) && Opener(trace, k) == Opener(trace[..n], k)
    ensures k in StoreAfter(trace).timers && k in StoreAfter(trace[..n]).timers
    ensures StoreAfter(trace).timers[k] == StoreAfter(trace[..n]).timers[k]
    decreases |trace|
  {
    StoreIsHistory(trace, k);
    StoreIsHistory(trace[..n], k);
    if n == |trace| {
      assert trace[..n] == trace;
    } else {
      var front := trace[..|trace| - 1];
      assert front[..n] == trace[..n];
      WindowIsStable(front, n, k);
      StoreIsHistory(front, k);
    }
  }

  /**
   What the next pop of a worker meets: the window it listed, due and unchanged, unless another
   worker popped that window since the listing.
   */
  lemma PopMeetsListedWindow(steps: seq<Step>, s: System, w: nat)
    requires Run(steps) && s == After(steps) && w in s.drains && s.drains[w].todo != []
    ensures var d := s.drains[w]; var k := d.todo[0];
      || (&& k in StoreAfter(s.trace).timers && StoreAfter(s.trace).timers[k] <= d.now
          && Open(s.trace, k) && Opener(s.trace, k) < d.listedAt)
      || exists w' | w' != w :: d.listedAt <= |s.trace| && PoppedBy(s.trace, w', k, d.listedAt)
  {
    InvHolds(steps);
    var d := s.drains[w];
    var k := d.todo[0];
    assert DrainInv(s.trace, w, d) && k in d.todo;
    StoreIsHistory(s.trace[..d.listedAt], k);
    if j :| d.listedAt <= j < |s.trace| && s.trace[j].Popped? && s.trace[j].key == k {
      assert s.trace[j] == Popped(s.trace[j].worker, k);
      assert PoppedBy(s.trace, s.trace[j].worker, k, d.listedAt);
    } else {
      WindowIsStable(s.trace, d.listedAt, k);
    }
  }

  /** With one popping worker, whatever is armed meanwhile, every pop delivers and none is early. */
  lemma SoleWorkerIsNeverEarly(steps: seq<Step>, s: System, w: nat)
    requires Run(steps) && s == After(steps) && w in s.drains && s.drains[w].todo != []
    requires forall e | e in s.trace && e.Popped? :: e.worker == w
    ensures var k := s.drains[w].todo[0];
      && k in StoreAfter(s.trace).timers && StoreAfter(s.trace).timers[k] <= s.drains[w].now
      && Pop(StoreAfter(s.trace), k).1.Some?
  {
    PopMeetsListedWindow(steps, s, w);
    StoreIsHistory(s.trace, s.drains[w].todo[0]);
  }

  // The key whose turn it is would be delivered before its fire time.
  ghost predicate IsEarly(s: System, w: nat)
    requires w in s.drains && s.drains[w].todo != []
  {
    var k := s.drains[w].todo[0];
    k in StoreAfter(s.trace).timers && StoreAfter(s.trace).timers[k] > s.drains[w].now
  }

  /** A key fires early only if another worker popped it and it was armed again, both since the listing. */
  lemma EarlyOnlyAfterRearm(steps: seq<Step>, s: System, w: nat)
    requires Run(steps) && s == After(steps) && w in s.drains && s.drains[w].todo != [] && IsEarly(s, w)
    ensures var d := s.drains[w]; var k := d.todo[0];
      && Open(s.trace, k)
      && exists j, w' | d.listedAt <= j < Opener(s.trace, k) :: w' != w && s.trace[j] == Popped(w', k)
  {
    var d := s.drains[w];
    var k := d.todo[0];
    PopMeetsListedWindow(steps, s, w);
    StoreIsHistory(s.trace, k);
    var w' :| w' != w && PoppedBy(s.trace, w', k, d.listedAt);
    var j :| d.listedAt <= j < |s.trace| && s.trace[j] == Popped(w', k);
    assert j < Opener(s.trace, k);
  }

  /**
   In every run, the pop at hand is early exactly when the key's window was opened after the
   listing, by an arm for a time that the listing had not reached.
   */
  lemma EarlyExactlyAfterRearm(steps: seq<Step>, s: System, w: nat)
    requires Run(steps) && s == After(steps) && w in s.drains && s.drains[w].todo != []
    ensures var d := s.drains[w]; var k := d.todo[0];
      IsEarly(s, w) <==>
        Open(s.trace, k) && Opener(s.trace, k) >= d.listedAt && s.trace[Opener(s.trace, k)].fireAt > d.now
  {
    StoreIsHistory(s.trace, s.drains[w].todo[0]);
    if IsEarly(s, w) {
      EarlyOnlyAfterRearm(steps, s, w);
    }
    hide Run, After, StoreAfter;
  }

  /** A call that returns without an error leaves open no window that was due at its listing. */
  lemma ReturnLeavesNothingDue(steps: seq<Step>, s: System, w: nat, k: Key)
    requires Run(steps) && s == After(steps) && w in s.drains && s.drains[w].todo == []
    requires s.drains[w].listedAt <= |s.trace|
    requires var d := s.drains[w]; var listed := s.trace[..d.listedAt];
      Open(listed, k) && listed[Opener(listed, k)].fireAt <= d.now
    ensures !Open(s.trace, k) || Opener(s.trace, k) >= s.drains[w].listedAt
  {
    InvHolds(steps);
    var d := s.drains[w];
    StoreIsHistory(s.trace[..d.listedAt], k);
    assert PoppedBy(s.trace, w, k, d.listedAt);
  }

  lemma Extend(steps: seq<Step>, step: Step)
    requires Run(steps) && Enabled(After(steps), step)
    ensures Run(steps + [step]) && After(steps + [step]) == Apply(After(steps), step)
  {
    assert (steps + [step])[..|steps|] == steps;
  }

  lemma StoreExtends(trace: seq<Event>, e: Event)
    ensures StoreAfter(trace + [e])
         == if e.Armed? then Arm(StoreAfter(trace), e.key, e.payload, e.fireAt) else Pop(StoreAfter(trace), e.key).0
  {
    assert (trace + [e])[..|trace|] == trace;
  }

  /**
   The race is real: whenever two workers are about to pop the same listed key, one pop and one
   later arm in between leave the other worker about to fire a window that is not due yet.
   */
  lemma RearmFiresEarly(steps: seq<Step>, s: System, w: nat, w': nat, p: Payload, fireAt: Millis)
    requires Run(steps) && s == After(steps) && w != w' && w in s.drains && w' in s.drains
    requires s.drains[w].todo != [] && s.drains[w'].todo != [] && s.drains[w].todo[0] == s.drains[w'].todo[0]
    requires fireAt > s.drains[w].now
    ensures var k := s.drains[w].todo[0];
      var race := steps + [DoPop(w')] + [DoArm(k, p, fireAt)];
      && Run(race) && w in After(race).drains && After(race).drains[w] == s.drains[w]
      && Pop(StoreAfter(After(race).trace), k).1 == Some(p)
      && k in StoreAfter(After(race).trace).timers
      && StoreAfter(After(race).trace).timers[k] == fireAt > s.drains[w].now
  {
    var k := s.drains[w].todo[0];
    Extend(steps, DoPop(w'));
    Extend(steps + [DoPop(w')], DoArm(k, p, fireAt));
    StoreExtends(s.trace, Popped(w', k));
    StoreExtends(s.trace + [Popped(w', k)], Armed(k, p, fireAt));
  }

  // One due key, listed by two workers at once.
  function BothList(w: nat, w': nat, k: Key, p: Payload): seq<Step> {
    [DoArm(k, p, 0), DoList(w, 0, [k]), DoList(w', 0, [k])]
  }

  lemma BothWorkersCanList(w: nat, w': nat, k: Key, p: Payload)
    requires w != w'
    ensures Run(BothList(w, w', k, p))
    ensures After(BothList(w, w', k, p)) ==
      System([Armed(k, p, 0)], map[w := Drain(0, 1, [k]), w' := Drain(0, 1, [k])])
  {
    var r: seq<Step> := [];
    Extend(r, DoArm(k, p, 0));
    StoreExtends([], Armed(k, p, 0));
    assert [] + [Armed(k, p, 0)] == [Armed(k, p, 0)] && StoreAfter([]) == EMPTY;
    assert Lists([k], StoreAfter([Armed(k, p, 0)]), 0);
    hide Lists, StoreAfter;
    Extend(r + [DoArm(k, p, 0)], DoList(w, 0, [k]));
    Extend(r + [DoArm(k, p, 0)] + [DoList(w, 0, [k])], DoList(w', 0, [k]));
    assert r + [DoArm(k, p, 0)] + [DoList(w, 0, [k])] + [DoList(w', 0, [k])] == BothList(w, w', k, p);
  }

  /** From an empty store, any two workers, any key and any later fire time: a window can fire early. */
  lemma AnyWindowCanFireEarly(w: nat, w': nat, k: Key, p: Payload, later: Payload, fireAt: Millis)
    requires w != w' && fireAt > 0
    ensures var race := BothList(w, w', k, p) + [DoPop(w')] + [DoArm(k, later, fireAt)];
      && Run(race) && w in After(race).drains && After(race).drains[w].todo == [k] && IsEarly(After(race), w)
      && Pop(StoreAfter(After(race).trace), k).1 == Some(later)
  {
    BothWorkersCanList(w, w', k, p);
    hide Run, After, StoreAfter;
    RearmFiresEarly(BothList(w, w', k, p), After(BothList(w, w', k, p)), w, w', later, fireAt);
  }

  // ------------------------------------------------------------ the store as the process calls it

  predicate EarliestFirst(keys: seq<Key>, timers: map<Key, Millis>) {
    && (forall k | k in keys :: k in timers)
    && forall i, j | 0 <= i < j < |keys| :: timers[keys[i]] <= timers[keys[j]]
  }

  predicate PayloadsOf(out: seq<Payload>, keys: seq<Key>, data: map<Key, Payload>) {
    |out| == |keys| && forall i | 0 <= i < |keys| :: keys[i] in data && out[i] == data[keys[i]]
  }

  class LiveScanStore {
    var timers: map<Key, Millis>
    var data: map<Key, Payload>

    function State(): Store
      reads this
    {
      Store(timers, data)
    }

    // Both halves hold the same keys.
    predicate Valid()
      reads this
    {
      timers.Keys == data.Keys
    }

    constructor ()
      ensures Valid() && State() == EMPTY
    {
      timers := map[];
      data := map[];
    }

    method ArmPending(k: Key, p: Payload, fireAt: Millis)
      requires Valid()
      modifies this
      ensures Valid() && State() == Arm(old(State()), k, p, fireAt)
      ensures data == old(data)[k := p]
      ensures timers == if k in old(timers) then old(timers) else old(timers)[k := fireAt]
    {
      data := data[k := p];
      if k !in timers {
        timers := timers[k := fireAt];
      }
    }

    method PopPending(k: Key) returns (v: Option<Payload>)
      requires Valid()
      modifies this
      ensures Valid() && (State(), v) == Pop(old(State()), k)
      ensures timers == old(timers) - {k} && data == old(data) - {k}
      ensures v == if k in old(timers) then Some(old(data)[k]) else None
    {
      if k !in timers {
        return None;
      }
      timers := timers - {k};
      v := if k in data then Some(data[k]) else None;
      data := data - {k};
    }

    // ZRANGE BYSCORE -inf..now: the due keys, earliest fire time first.
    method ListDue(now: Millis) returns (keys: seq<Key>)
      ensures Lists(keys, State(), now) && EarliestFirst(keys, timers)
      ensures forall k :: k in keys <==> k in timers && timers[k] <= now
      ensures forall i, j | 0 <= i < j < |keys| :: keys[i] != keys[j] && timers[keys[i]] <= timers[keys[j]]
    {
      var left := Due(State(), now);
      keys := [];
      while left != {}
        invariant left <= Due(State(), now) && Distinct(keys)
        invariant forall k :: k in Due(State(), now) <==> k in left || k in keys
        invariant EarliestFirst(keys, timers)
        invariant forall k | k in keys :: k !in left && forall l | l in left :: timers[k] <= timers[l]
        decreases left
      {
        ThereIsAnEarliest(left, timers);
        var k :| k in left && forall l | l in left :: timers[k] <= timers[l];
        keys := keys + [k];
        left := left - {k};
      }
    }

    // The loop over the listed keys; failAt says which pop Redis refuses, if any.
    method PopListed(keys: seq<Key>, failAt: Option<nat>) returns (out: seq<Payload>, ok: bool)
      requires Valid() && Distinct(keys) && forall k | k in keys :: k in timers
      modifies this
      ensures Valid() && (ok <==> failAt.None? || failAt.value >= |keys|)
      ensures var popped := if ok then keys else keys[..failAt.value];
        && PayloadsOf(out, popped, old(data))
        && timers == old(timers) - (set k | k in popped)
        && data == old(data) - (set k | k in popped)
    {
      out, ok := [], false;
      for i := 0 to |keys|
        invariant failAt.Some? ==> i <= failAt.value
        invariant PayloadsOf(out, keys[..i], old(data))
        invariant timers == old(timers) - (set k | k in keys[..i])
        invariant data == old(data) - (set k | k in keys[..i])
        invariant Valid()
      {
        if failAt == Some(i) {
          return;
        }
        var k := keys[i];
        assert k in timers;
        var v := PopPending(k);
        if v.None? {
          continue;
        }
        out := out + [v.value];
        assert keys[..i + 1] == keys[..i] + [k];
      }
      assert keys[..|keys|] == keys;
      ok := true;
    }

    /**
     With nobody else at work: every window whose time has come is delivered, earliest first, and
     the others are kept. listFails says that the listing is refused, failAt which pop is: the
     windows before it are delivered all the same, the rest are kept. keys, the listed keys, is
     there for the contract only.
     */
    method PopDuePending(now: Millis, listFails: bool, failAt: Option<nat>)
      returns (out: seq<Payload>, ok: bool, ghost keys: seq<Key>)
      requires Valid()
      modifies this
      ensures Valid()
      ensures listFails ==> !ok && out == [] && State() == old(State())
      ensures !listFails ==> Lists(keys, old(State()), now) && EarliestFirst(keys, old(timers))
      ensures !listFails ==> forall k :: k in keys <==> k in old(timers) && old(timers)[k] <= now
      ensures !listFails ==> (ok <==> failAt.None? || failAt.value >= |keys|)
      ensures !listFails ==>
        var popped := if ok then keys else keys[..failAt.value];
        && PayloadsOf(out, popped, old(data))
        && timers == old(timers) - (set k | k in popped)
        && data == old(data) - (set k | k in popped)
      ensures ok ==> timers == old(timers) - Due(old(State()), now) && data == old(data) - Due(old(State()), now)
      ensures ok ==> forall k :: k in timers <==> k in old(timers) && old(timers)[k] > now
    {
      out, ok, keys := [], false, [];
      if listFails {
        return;
      }
      var listed := ListDue(now);
      keys := listed;
      hide PayloadsOf, EarliestFirst;
      assert (set k | k in listed) == Due(State(), now);
      out, ok := PopListed(listed, failAt);
    }
  }

  lemma ThereIsAnEarliest(keys: set<Key>, timers: map<Key, Millis>)
    requires keys != {} && keys <= timers.Keys
    ensures exists k | k in keys :: forall l | l in keys :: timers[k] <= timers[l]
  {
    var k :| k in keys;
    if keys != {k} {
      ThereIsAnEarliest(keys - {k}, timers);
      var m :| m in keys - {k} && forall l | l in keys - {k} :: timers[m] <= timers[l];
      var best := if timers[k] <= timers[m] then k else m;
      assert forall l | l in keys :: l == k || l in keys - {k};
      assert forall l | l in keys :: timers[best] <= timers[l];
    }
  }
}
