/**
 Rotation through a pool of API keys. Every call shares one index: it sends with the current key
 and, only when that key is out of quota, advances the index and tries again, at most once per key.
 */
module KeyRotation {
  import opened Counting
  import opened Wrappers

  // How the API answers one request; only Quota (a rate-limited error) makes the pool rotate.
  datatype Outcome = Answered | Quota | OtherError

  datatype CallError = Refused | Unavailable

  // The slot k places after start, in a pool of the given size.
  function Slot(start: nat, k: nat, size: nat): nat
    requires start < size && k <= size
  {
    if start + k < size then start + k else start + k - size
  }

  // How many keys from start on are out of quota before one gives another answer.
  function Exhausted(answers: seq<Outcome>, start: nat, from: nat): (k: nat)
    requires start < |answers| && from <= |answers|
    ensures from <= k <= |answers|
    ensures forall i | from <= i < k :: answers[Slot(start, i, |answers|)] == Quota
    ensures k < |answers| ==> answers[Slot(start, k, |answers|)] != Quota
    decreases |answers| - from
  {
    if from < |answers| && answers[Slot(start, from, |answers|)] == Quota
    then Exhausted(answers, start, from + 1) else from
  }

  // ------------------------------------------------------------ any number of calls at once

  function Wrap(m: nat, size: nat): nat
    requires size > 0
  {
    m % size
  }

  // tried: the slots a call has sent to; marks: how often the index had been advanced at each send.
  datatype Call = Call(attempts: nat, waiting: bool, ended: bool, tried: seq<nat>, marks: seq<nat>)

  datatype State = State(current: nat, advances: nat, calls: map<nat, Call>)

  datatype Step =
    | Begin(id: nat)
    | Send(id: nat)                        // Current, then the request
    | Reply(id: nat, outcome: Outcome)     // with Advance when the key is out of quota
    | GiveUp(id: nat)                      // every attempt used

  predicate Enabled(s: State, size: nat, step: Step) {
    match step
    case Begin(id) => id !in s.calls
    case Send(id) => id in s.calls && !s.calls[id].ended && !s.calls[id].waiting && s.calls[id].attempts < size
    case Reply(id, _) => id in s.calls && s.calls[id].waiting
    case GiveUp(id) => id in s.calls && !s.calls[id].ended && !s.calls[id].waiting && s.calls[id].attempts == size
  }

  function Apply(s: State, size: nat, step: Step): State
    requires size > 0 && Enabled(s, size, step)
  {
    match step
    case Begin(id) => s.(calls := s.calls[id := Call(0, false, false, [], [])])
    case Send(id) =>
      var c := s.calls[id];
      s.(calls := s.calls[id := c.(waiting := true, tried := c.tried + [s.current], marks := c.marks + [s.advances])])
    case Reply(id, outcome) =>
      var c := s.calls[id].(waiting := false);
      if outcome == Quota
      then State(Wrap(s.current + 1, size), s.advances + 1, s.calls[id := c.(attempts := c.attempts + 1)])
      else s.(calls := s.calls[id := c.(ended := true)])
    case GiveUp(id) => s.(calls := s.calls[id := s.calls[id].(ended := true)])
  }

  predicate Run(size: nat, steps: seq<Step>)
    requires size > 0
    decreases |steps|, 0
  {
    steps == []
    || (Run(size, steps[..|steps| - 1]) && Enabled(After(size, steps[..|steps| - 1]), size, steps[|steps| - 1]))
  }

  function After(size: nat, steps: seq<Step>): State
    requires size > 0 && Run(size, steps)
    decreases |steps|, 1
  {
    if steps == [] then State(0, 0, map[])
    else Apply(After(size, steps[..|steps| - 1]), size, steps[|steps| - 1])
  }

  predicate CallInv(c: Call, size: nat, advances: nat)
    requires size > 0
  {
    && |c.tried| == |c.marks|
    && c.attempts <= size && (c.waiting ==> c.attempts < size && !c.ended)
    && (!c.ended ==> |c.tried| == c.attempts + (if c.waiting then 1 else 0))
    && |c.tried| <= size
    && (forall i | 0 <= i < |c.tried| :: c.tried[i] == Wrap(c.marks[i], size))
    && (forall i, j | 0 <= i < j < |c.marks| :: c.marks[i] < c.marks[j])
    && (forall m | m in c.marks :: m < advances || (m == advances && (c.waiting || c.ended)))
  }

  predicate Inv(s: State, size: nat)
    requires size > 0
  {
    s.current == Wrap(s.advances, size) && forall id | id in s.calls :: CallInv(s.calls[id], size, s.advances)
  }

  lemma GapIsLarge(a: nat, b: nat, size: nat)
    requires a > b
    ensures a * size >= b * size + size
  {
    var gap := a - b - 1;
    assert a * size == b * size + size + gap * size;
    assert gap * size >= 0;
  }

  // Quotient and remainder are unique.
  lemma WrapOf(x: nat, q: nat, r: nat, size: nat)
    requires r < size && x == q * size + r
    ensures Wrap(x, size) == r
  {
    var q', r' := x / size, x % size;
    assert x == q' * size + r';
    if q > q' {
      GapIsLarge(q, q', size);
    } else if q < q' {
      GapIsLarge(q', q, size);
    }
  }

  lemma NextWrap(m: nat, size: nat)
    requires size > 0
    ensures Wrap(m, size) < size
    ensures Wrap(m + 1, size) == (if Wrap(m, size) + 1 == size then 0 else Wrap(m, size) + 1)
    ensures Wrap(m + 1, size) == Wrap(Wrap(m, size) + 1, size)
  {
    var q, r := m / size, m % size;
    assert m == q * size + r;
    if r + 1 == size {
      assert (q + 1) * size == q * size + size;
      WrapOf(m + 1, q + 1, 0, size);
      WrapOf(r + 1, 1, 0, size);
    } else {
      WrapOf(m + 1, q, r + 1, size);
      WrapOf(r + 1, 0, r + 1, size);
    }
  }

  lemma OtherAdvance(c: Call, size: nat, advances: nat)
    requires size > 0 && CallInv(c, size, advances)
    ensures CallInv(c, size, advances + 1)
  {
    hide Wrap;
  }

  lemma SendKeepsInv(c: Call, size: nat, current: nat, advances: nat)
    requires size > 0 && CallInv(c, size, advances) && current == Wrap(advances, size)
    requires !c.ended && !c.waiting && c.attempts < size
    ensures CallInv(c.(waiting := true, tried := c.tried + [current], marks := c.marks + [advances]), size, advances)
  {
    hide Wrap;
    var marks := c.marks + [advances];
    forall i, j | 0 <= i < j < |marks|
      ensures marks[i] < marks[j]
    {
      assert i < |c.marks| && c.marks[i] in c.marks;
    }
  }

  lemma ReplyKeepsInv(c: Call, size: nat, advances: nat)
    requires size > 0 && CallInv(c, size, advances) && c.waiting
    ensures CallInv(c.(waiting := false, ended := true), size, advances)
    ensures CallInv(c.(waiting := false, attempts := c.attempts + 1), size, advances + 1)
  {
    hide Wrap;
  }

  lemma StepKeepsInv(s: State, size: nat, step: Step)
    requires size > 0 && Inv(s, size) && Enabled(s, size, step)
    ensures Inv(Apply(s, size, step), size)
  {
    NextWrap(s.advances, size);
    var t := Apply(s, size, step);
    forall id | id in t.calls
      ensures CallInv(t.calls[id], size, t.advances)
    {
      if id == step.id {
        match step
        case Begin(_) =>
        case Send(_) => SendKeepsInv(s.calls[id], size, s.current, s.advances);
        case Reply(_, _) => ReplyKeepsInv(s.calls[id], size, s.advances);
        case GiveUp(_) =>
      } else if t.advances > s.advances {
        OtherAdvance(s.calls[id], size, s.advances);
      }
    }
    hide Wrap, CallInv;
  }

  lemma {:induction false} InvHolds(size: nat, steps: seq<Step>)
    requires size > 0 && Run(size, steps)
    ensures Inv(After(size, steps), size)
  {
    if steps != [] {
      InvHolds(size, steps[..|steps| - 1]);
      StepKeepsInv(After(size, steps[..|steps| - 1]), size, steps[|steps| - 1]);
    } else {
      WrapOf(0, 0, 0, size);
    }
  }

  /**
   In every interleaving the index is the number of advances modulo the pool size, and no call
   sends more requests than there are keys.
   */
  lemma IndexCountsAdvances(size: nat, steps: seq<Step>, s: State)
    requires size > 0 && Run(size, steps) && s == After(size, steps)
    ensures s.current == s.advances % size
    ensures forall id | id in s.calls :: |s.calls[id].tried| <= size
  {
    InvHolds(size, steps);
  }

  lemma {:induction false} AddWrap(m: nat, k: nat, size: nat)
    requires 0 < size && k <= size
    ensures Wrap(m, size) < size && Wrap(m + k, size) == Slot(Wrap(m, size), k, size)
  {
    NextWrap(m, size);
    if k > 0 {
      AddWrap(m, k - 1, size);
      NextWrap(m + k - 1, size);
    }
    hide Wrap;
  }

  /**
   A call tries pairwise different keys as long as nobody else advanced the index between its
   sends; if it then uses up all its attempts it has tried every key of the pool.
   */
  lemma UndisturbedCallTriesEveryKey(size: nat, steps: seq<Step>, s: State, id: nat)
    requires size > 0 && Run(size, steps) && s == After(size, steps) && id in s.calls
    requires var c := s.calls[id]; forall i | 0 <= i < |c.marks| :: c.marks[i] == c.marks[0] + i
    ensures var c := s.calls[id];
      && (forall i, j | 0 <= i < j < |c.tried| :: c.tried[i] != c.tried[j])
      && (|c.tried| == size ==> forall slot | 0 <= slot < size :: slot in c.tried)
  {
    InvHolds(size, steps);
    var c := s.calls[id];
    if c.tried != [] {
      var start := Wrap(c.marks[0], size);
      NextWrap(c.marks[0], size);
      forall i | 0 <= i < |c.tried|
        ensures c.tried[i] == Slot(start, i, size)
      {
        AddWrap(c.marks[0], i, size);
      }
      if |c.tried| == size {
        forall slot | 0 <= slot < size
          ensures slot in c.tried
        {
          var i := if slot >= start then slot - start else slot + size - start;
          assert c.tried[i] == slot;
        }
      }
    }
  }

  lemma Parts(x: nat, size: nat) returns (q: nat)
    requires size > 0
    ensures x == q * size + Wrap(x, size) && Wrap(x, size) < size
  {
    q := x / size;
  }

  lemma MultipleApart(a: nat, b: nat, size: nat)
    requires size > 0 && a <= b && Wrap(a, size) == Wrap(b, size)
    ensures Wrap(b - a, size) == 0
  {
    var q := Parts(a, size);
    var q' := Parts(b, size);
    hide Wrap;
    if q > q' {
      GapIsLarge(q, q', size);
    }
    assert q' * size - q * size == (q' - q) * size;
    WrapOf(b - a, q' - q, 0, size);
  }

  lemma MultipleLater(a: nat, b: nat, size: nat)
    requires size > 0 && a <= b && Wrap(b - a, size) == 0
    ensures Wrap(b, size) == Wrap(a, size)
  {
    var q := Parts(a, size);
    var d := Parts(b - a, size);
    hide Wrap;
    assert q * size + d * size == (q + d) * size;
    WrapOf(b, q + d, Wrap(a, size), size);
  }

  lemma WrapsEqual(a: nat, b: nat, size: nat)
    requires size > 0 && a <= b
    ensures Wrap(a, size) == Wrap(b, size) <==> Wrap(b - a, size) == 0
  {
    hide Wrap;
    if Wrap(a, size) == Wrap(b, size) {
      MultipleApart(a, b, size);
    } else if Wrap(b - a, size) == 0 {
      MultipleLater(a, b, size);
    }
  }

  /** In every run a call sends twice with one key exactly when a multiple of the pool size of advances lies between. */
  lemma SameKeyExactlyWhen(size: nat, steps: seq<Step>, s: State, id: nat, i: nat, j: nat)
    requires size > 0 && Run(size, steps) && s == After(size, steps) && id in s.calls
    requires i < j < |s.calls[id].tried|
    ensures var c := s.calls[id];
      && j < |c.marks| && c.marks[i] < c.marks[j]
      && (c.tried[i] == c.tried[j] <==> Wrap(c.marks[j] - c.marks[i], size) == 0)
  {
    InvHolds(size, steps);
    assert CallInv(s.calls[id], size, s.advances);
    WrapsEqual(s.calls[id].marks[i], s.calls[id].marks[j], size);
    hide Run, After;
  }

  // No two sends of the call lie a multiple of the pool size of advances apart.
  ghost predicate NeverAligned(c: Call, size: nat)
    requires size > 0
  {
    forall i, j | 0 <= i < j < |c.marks| && c.marks[i] <= c.marks[j] :: Wrap(c.marks[j] - c.marks[i], size) != 0
  }

  /**
   A call that used up all its attempts has tried every key of the pool exactly when no two of its
   sends lie a multiple of the pool size of advances apart; so an undisturbed call has.
   */
  lemma TriesEveryKeyExactlyWhen(size: nat, steps: seq<Step>, s: State, id: nat)
    requires size > 0 && Run(size, steps) && s == After(size, steps) && id in s.calls
    requires |s.calls[id].tried| == size
    ensures (forall slot: nat | slot < size :: slot in s.calls[id].tried) <==> NeverAligned(s.calls[id], size)
  {
    InvHolds(size, steps);
    var c := s.calls[id];
    assert CallInv(c, size, s.advances);
    forall x | x in c.tried
      ensures x < size
    {
      var i :| 0 <= i < |c.tried| && c.tried[i] == x;
      NextWrap(c.marks[i], size);
    }
    forall i, j | 0 <= i < j < |c.tried|
      ensures c.marks[i] < c.marks[j]
      ensures c.tried[i] == c.tried[j] <==> Wrap(c.marks[j] - c.marks[i], size) == 0
    {
      SameKeyExactlyWhen(size, steps, s, id, i, j);
    }
    hide Run, After, Wrap, CallInv;
    AllExactlyWhenDistinct(c.tried);
  }

  lemma Extend(size: nat, steps: seq<Step>, step: Step)
    requires size > 0 && Run(size, steps) && Enabled(After(size, steps), size, step)
    ensures Run(size, steps + [step])
    ensures After(size, steps + [step]) == Apply(After(size, steps), size, step)
  {
    assert (steps + [step])[..|steps|] == steps;
  }

  lemma SendExtends(size: nat, steps: seq<Step>, s: State, id: nat)
    requires size > 0 && Run(size, steps) && s == After(size, steps) && id in s.calls
    requires !s.calls[id].waiting && !s.calls[id].ended && s.calls[id].attempts < size
    ensures Run(size, steps + [Send(id)])
    ensures var t, c := After(size, steps + [Send(id)]), s.calls[id];
      t == s.(calls := s.calls[id :=
        c.(waiting := true, tried := c.tried + [s.current], marks := c.marks + [s.advances])])
  {
    Extend(size, steps, Send(id));
  }

  lemma NextSlot(current: nat, size: nat)
    requires current < size
    ensures Wrap(current + 1, size) == Slot(current, 1, size)
  {
    if current + 1 < size {
      WrapOf(current + 1, 0, current + 1, size);
    } else {
      WrapOf(current + 1, 1, 0, size);
    }
  }

  lemma QuotaExtends(size: nat, steps: seq<Step>, s: State, id: nat)
    requires size > 0 && Run(size, steps) && s == After(size, steps) && s.current < size
    requires id in s.calls && s.calls[id].waiting
    ensures Run(size, steps + [Reply(id, Quota)])
    ensures var t, c := After(size, steps + [Reply(id, Quota)]), s.calls[id];
      t == State(Slot(s.current, 1, size), s.advances + 1,
                 s.calls[id := c.(waiting := false, attempts := c.attempts + 1)])
  {
    NextSlot(s.current, size);
    hide Wrap, Slot;
    Extend(size, steps, Reply(id, Quota));
  }

  lemma ReplyExtends(size: nat, steps: seq<Step>, s: State, id: nat, outcome: Outcome)
    requires size > 0 && Run(size, steps) && s == After(size, steps) && outcome != Quota
    requires id in s.calls && s.calls[id].waiting
    ensures Run(size, steps + [Reply(id, outcome)])
    ensures After(size, steps + [Reply(id, outcome)])
         == s.(calls := s.calls[id := s.calls[id].(waiting := false, ended := true)])
  {
    Extend(size, steps, Reply(id, outcome));
  }

  // Two calls find the first key exhausted at the same time and both advance; the first one then
  // goes on alone, n times.
  function Race(n: nat): seq<Step> {
    if n == 0 then [Begin(1), Begin(2), Send(1), Send(2), Reply(1, Quota), Reply(2, Quota)]
    else Race(n - 1) + [Send(1)] + [Reply(1, Quota)]
  }

  ghost predicate Racing(s: State, n: nat) {
    && 1 in s.calls && s.advances == n + 2
    && var c := s.calls[1];
    && c.attempts == |c.tried| == |c.marks| == n + 1 && !c.waiting && !c.ended
    && c.marks[0] == 0 && forall i | 1 <= i <= n :: c.marks[i] == i + 1
  }

  lemma BothAdvance(size: nat)
    requires size >= 2
    ensures Run(size, Race(0)) && Racing(After(size, Race(0)), 0)
  {
    hide Wrap;
    var r: seq<Step> := [];
    Extend(size, r, Begin(1));
    Extend(size, r + [Begin(1)], Begin(2));
    var two := r + [Begin(1)] + [Begin(2)];
    Extend(size, two, Send(1));
    Extend(size, two + [Send(1)], Send(2));
    var four := two + [Send(1)] + [Send(2)];
    assert After(size, four).calls[1] == After(size, four).calls[2] == Call(0, true, false, [0], [0]);
    Extend(size, four, Reply(1, Quota));
    Extend(size, four + [Reply(1, Quota)], Reply(2, Quota));
    assert four + [Reply(1, Quota)] + [Reply(2, Quota)] == Race(0);
  }

  lemma OneRound(size: nat, steps: seq<Step>, s: State, n: nat)
    requires 0 < n < size && Run(size, steps) && s == After(size, steps) && s.current < size && Racing(s, n - 1)
    ensures Run(size, steps + [Send(1)] + [Reply(1, Quota)])
    ensures Racing(After(size, steps + [Send(1)] + [Reply(1, Quota)]), n)
  {
    hide Run, After, Slot, Apply, Enabled;
    SendExtends(size, steps, s, 1);
    QuotaExtends(size, steps + [Send(1)], After(size, steps + [Send(1)]), 1);
  }

  lemma {:induction false} RaceGoesOn(size: nat, n: nat)
    requires size >= 2 && n < size
    ensures Run(size, Race(n)) && Racing(After(size, Race(n)), n)
  {
    hide Run, After, Racing, CallInv, Wrap;
    if n == 0 {
      BothAdvance(size);
    } else {
      RaceGoesOn(size, n - 1);
      InvHolds(size, Race(n - 1));
      NextWrap(After(size, Race(n - 1)).advances, size);
      OneRound(size, Race(n - 1), After(size, Race(n - 1)), n);
    }
  }

  /**
   For every pool of at least two keys: when two calls find the first key exhausted at the same
   time, one of them can go through all its attempts and give up without having tried the second key.
   */
  lemma DoubleAdvanceSkipsAKey(size: nat)
    requires size >= 2
    ensures var race := Race(size - 1) + [GiveUp(1)];
      && Run(size, race) && 1 in After(size, race).calls
      && After(size, race).calls[1].ended && |After(size, race).calls[1].tried| == size
      && 1 !in After(size, race).calls[1].tried
  {
    RaceGoesOn(size, size - 1);
    Extend(size, Race(size - 1), GiveUp(1));
    var race := Race(size - 1) + [GiveUp(1)];
    InvHolds(size, race);
    var c := After(size, race).calls[1];
    assert CallInv(c, size, After(size, race).advances);
    hide Run, After;
    forall i | 0 <= i < |c.tried|
      ensures c.tried[i] != 1
    {
      if c.marks[i] < size {
        WrapOf(c.marks[i], 0, c.marks[i], size);
      } else {
        WrapOf(size, 1, 0, size);
      }
    }
  }

  lemma CallBegins(size: nat, steps: seq<Step>, s: State, id: nat)
    requires size > 0 && Run(size, steps) && s == After(size, steps) && id !in s.calls
    ensures Run(size, steps + [Begin(id)])
    ensures After(size, steps + [Begin(id)]) == s.(calls := s.calls[id := Call(0, false, false, [], [])])
  {
    Extend(size, steps, Begin(id));
  }

  lemma CallGivesUp(size: nat, steps: seq<Step>, s: State, id: nat)
    requires size > 0 && Run(size, steps) && s == After(size, steps) && id in s.calls
    requires !s.calls[id].waiting && !s.calls[id].ended && s.calls[id].attempts == size
    ensures Run(size, steps + [GiveUp(id)])
    ensures After(size, steps + [GiveUp(id)]) == s.(calls := s.calls[id := s.calls[id].(ended := true)])
  {
    Extend(size, steps, GiveUp(id));
  }

  // ------------------------------------------------------------ the pool as a process uses it

  // steps is what has happened to the pool so far: the object is always in the state of a run.
  class KeyPool {
    const keys: seq<string>
    var current: nat
    ghost var steps: seq<Step>

    predicate InRing()
      reads this
    {
      current < |keys|
    }

    ghost predicate Valid()
      reads this
    {
      InRing() && Run(|keys|, steps) && After(|keys|, steps).current == current
    }

    constructor (keys: seq<string>)
      requires keys != []
      ensures Valid() && this.keys == keys && current == 0 && steps == []
    {
      this.keys := keys;
      current := 0;
      steps := [];
    }

    // The key is that of the number of advances so far, whoever made them.
    method Current() returns (key: string)
      requires Valid()
      ensures key == keys[current]
      ensures current == After(|keys|, steps).advances % |keys|
    {
      IndexCountsAdvances(|keys|, steps, After(|keys|, steps));
      key := keys[current];
    }

    // Taken by a call whose key is out of quota: its reply and the advance are one step of the run.
    method Advance(ghost id: nat)
      requires Valid() && id in After(|keys|, steps).calls && After(|keys|, steps).calls[id].waiting
      modifies this
      ensures Valid() && current == Slot(old(current), 1, |keys|)
      ensures steps == old(steps) + [Reply(id, Quota)]
    {
      QuotaExtends(|keys|, steps, After(|keys|, steps), id);
      steps := steps + [Reply(id, Quota)];
      NextSlot(current, |keys|);
      current := (current + 1) % |keys|;
    }

    /**
     With no other call at work: keys are tried in order from the current one, none twice, until
     one answers or refuses for another reason than quota; that one stays current. When every key
     is out of quota the call fails and the index is back where it started. answers gives each
     slot's answer; id names the call in the run it continues, tried is the slots it used there.
     */
    method Complete(answers: seq<Outcome>, ghost id: nat)
      returns (r: Result<nat, CallError>, ghost tried: seq<nat>)
      requires Valid() && |answers| == |keys| && id !in After(|keys|, steps).calls
      modifies this
      ensures Valid() && old(steps) <= steps
      ensures id in After(|keys|, steps).calls
      ensures After(|keys|, steps).calls[id].ended && After(|keys|, steps).calls[id].tried == tried
      ensures var k := Exhausted(answers, old(current), 0);
        if k == |keys| then
          r == Err(Unavailable) && |tried| == |keys| && current == old(current)
        else
          && |tried| == k + 1 && current == Slot(old(current), k, |keys|)
          && r == if answers[current] == Answered then Ok(current) else Err(Refused)
      ensures forall i | 0 <= i < |tried| :: tried[i] == Slot(old(current), i, |keys|)
      ensures forall i, j | 0 <= i < j < |tried| :: tried[i] != tried[j]
    {
      hide Run, After;
      CallBegins(|keys|, steps, After(|keys|, steps), id);
      steps := steps + [Begin(id)];
      tried := [];
      var attempt := 0;
      while attempt < |keys|
        invariant Valid() && old(steps) <= steps && attempt <= |keys| && |tried| == attempt
        invariant current == Slot(old(current), attempt, |keys|)
        invariant forall i | 0 <= i < attempt :: tried[i] == Slot(old(current), i, |keys|)
        invariant Exhausted(answers, old(current), 0) == Exhausted(answers, old(current), attempt)
        invariant id in After(|keys|, steps).calls
        invariant var c := After(|keys|, steps).calls[id];
          c.attempts == attempt && c.tried == tried && !c.waiting && !c.ended
      {
        SendExtends(|keys|, steps, After(|keys|, steps), id);
        steps := steps + [Send(id)];
        tried := tried + [current];
        if answers[current] != Quota {
          ReplyExtends(|keys|, steps, After(|keys|, steps), id, answers[current]);
          steps := steps + [Reply(id, answers[current])];
          r := if answers[current] == Answered then Ok(current) else Err(Refused);
          return;
        }
        QuotaExtends(|keys|, steps, After(|keys|, steps), id);
        Advance(id);
        attempt := attempt + 1;
      }
      CallGivesUp(|keys|, steps, After(|keys|, steps), id);
      steps := steps + [GiveUp(id)];
      r := Err(Unavailable);
    }
  }
}
