/**
 The fixed-window trigger counter: INCR, and EXPIRE only by the caller whose INCR returned 1.
 The two commands are separate atomic steps, so other callers come in between.
 */
module WindowCounter {
  import opened Counting
  import opened Wrappers

  type Millis = int

  // A Redis counter; deadline is its expiry, if it has one.
  datatype Cell = Cell(count: nat, deadline: Option<Millis>)

  // One INCR in the history: when, what it returned, and which window (from 0) it fell in.
  datatype Call = Call(at: Millis, value: nat, window: int)

  // starts: when each window began; waiting: callers between their INCR and their EXPIRE;
  // failed: some EXPIRE returned an error.
  datatype State = State(
    now: Millis, cell: Option<Cell>, waiting: set<nat>, failed: bool, log: seq<Call>, starts: seq<Millis>)

  datatype Step =
    | Tick(millis: nat)
    | Incr(caller: nat)
    | Expire(caller: nat)
    | ExpireFails(caller: nat)

  predicate Live(s: State) {
    s.cell.Some? && (s.cell.value.deadline.None? || s.now < s.cell.value.deadline.value)
  }

  predicate Enabled(s: State, step: Step) {
    match step
    case Tick(_) => true
    case Incr(c) => c !in s.waiting
    case Expire(c) => c in s.waiting
    case ExpireFails(c) => c in s.waiting
  }

  function Apply(s: State, length: nat, step: Step): State
    requires Enabled(s, step)
  {
    match step
    case Tick(d) => s.(now := s.now + d)
    case Incr(c) =>
      if Live(s) then
        var n := s.cell.value.count + 1;
        s.(cell := Some(s.cell.value.(count := n)), log := s.log + [Call(s.now, n, |s.starts| - 1)])
      else
        s.(cell := Some(Cell(1, None)), waiting := s.waiting + {c},
           log := s.log + [Call(s.now, 1, |s.starts|)], starts := s.starts + [s.now])
    case Expire(c) =>
      s.(waiting := s.waiting - {c},
         cell := if Live(s) then Some(s.cell.value.(deadline := Some(s.now + length))) else s.cell)
    case ExpireFails(c) => s.(waiting := s.waiting - {c}, failed := true)
  }

  const FRESH := State(0, None, {}, false, [], [])

  // Every interleaving of any number of callers.
  predicate RunFrom(s: State, length: nat, steps: seq<Step>)
    decreases |steps|, 0
  {
    steps == []
    || (RunFrom(s, length, steps[..|steps| - 1])
        && Enabled(Exec(s, length, steps[..|steps| - 1]), steps[|steps| - 1]))
  }

  function Exec(s: State, length: nat, steps: seq<Step>): State
    requires RunFrom(s, length, steps)
    decreases |steps|, 1
  {
    if steps == [] then s
    else Apply(Exec(s, length, steps[..|steps| - 1]), length, steps[|steps| - 1])
  }

  // The runs from no counter at all.
  predicate Run(length: nat, steps: seq<Step>) {
    RunFrom(FRESH, length, steps)
  }

  function After(length: nat, steps: seq<Step>): State
    requires Run(length, steps)
  {
    Exec(FRESH, length, steps)
  }

  lemma Extend(length: nat, steps: seq<Step>, step: Step)
    requires Run(length, steps) && Enabled(After(length, steps), step)
    ensures Run(length, steps + [step])
    ensures After(length, steps + [step]) == Apply(After(length, steps), length, step)
  {
    assert (steps + [step])[..|steps|] == steps;
  }

  // The values returned inside one window, in order.
  function Values(log: seq<Call>, window: int): seq<nat> {
    if log == [] then []
    else
      var last := log[|log| - 1];
      Values(log[..|log| - 1], window) + (if last.window == window then [last.value] else [])
  }

  function UpTo(n: nat): seq<nat> {
    seq(n, i => i + 1)
  }

  // ------------------------------------------------------------ what every step keeps

  ghost predicate ExpiryInv(s: State) {
    && (s.starts == [] <==> s.cell.None?)
    && (s.waiting == {} || exists c :: s.waiting == {c})
    && (s.waiting != {} || s.failed <==> s.cell.Some? && s.cell.value.deadline.None?)
    && (s.failed ==> s.waiting == {})
  }

  ghost predicate ValuesInv(s: State) {
    && (forall w :: Values(s.log, w) == UpTo(|Values(s.log, w)|))
    && (s.cell.Some? ==> s.starts != [] && |Values(s.log, |s.starts| - 1)| == s.cell.value.count)
    && (forall c | c in s.log :: 0 <= c.window < |s.starts| && 1 <= c.value)
    && (forall c | c in s.log && c.window == |s.starts| - 1 :: s.cell.Some? && c.value <= s.cell.value.count)
    && (forall i, j | 0 <= i < j < |s.log| && s.log[i].window == s.log[j].window :: s.log[i].value < s.log[j].value)
  }

  ghost predicate TimesInv(s: State, length: nat) {
    && (forall i | 0 <= i < |s.starts| :: s.starts[i] <= s.now)
    && (forall i | 0 <= i < |s.starts| - 1 :: s.starts[i] + length <= s.starts[i + 1])
    && (forall c | c in s.log :: 0 <= c.window < |s.starts| && s.starts[c.window] <= c.at <= s.now)
    && (forall c | c in s.log && c.window + 1 < |s.starts| :: c.at < s.starts[c.window + 1])
    && (s.cell.Some? && s.cell.value.deadline.Some? ==>
          var d := s.cell.value.deadline.value;
          && s.starts != [] && s.starts[|s.starts| - 1] + length <= d
          && forall c | c in s.log :: c.at < d)
  }

  lemma ValuesAppend(log: seq<Call>, c: Call, w: int)
    ensures Values(log + [c], w) == Values(log, w) + if c.window == w then [c.value] else []
  {
    assert (log + [c])[..|log|] == log;
  }

  lemma {:induction false} NoValuesOfNewWindow(log: seq<Call>, w: int)
    requires forall c | c in log :: c.window < w
    ensures Values(log, w) == []
  {
    if log != [] {
      NoValuesOfNewWindow(log[..|log| - 1], w);
    }
  }

  lemma CallKeepsSequences(s: State, c: Call)
    requires ValuesInv(s)
    requires c.value == |Values(s.log, c.window)| + 1
    ensures forall w :: Values(s.log + [c], w) == UpTo(|Values(s.log + [c], w)|)
  {
    forall w
      ensures Values(s.log + [c], w) == UpTo(|Values(s.log + [c], w)|)
    {
      ValuesAppend(s.log, c, w);
      assert Values(s.log, w) == UpTo(|Values(s.log, w)|);
    }
  }

  lemma StepKeepsExpiry(s: State, length: nat, step: Step)
    requires ExpiryInv(s) && Enabled(s, step)
    ensures ExpiryInv(Apply(s, length, step))
  {
    if step.Incr? && s.waiting == {} {
      assert {} + {step.caller} == {step.caller};
    }
  }

  lemma StepKeepsValues(s: State, length: nat, step: Step)
    requires ExpiryInv(s) && ValuesInv(s) && Enabled(s, step)
    ensures ValuesInv(Apply(s, length, step))
  {
    hide Values, UpTo;
    if step.Incr? {
      var t := Apply(s, length, step);
      var c := t.log[|s.log|];
      assert t.log == s.log + [c];
      if !Live(s) {
        NoValuesOfNewWindow(s.log, |s.starts|);
      }
      ValuesAppend(s.log, c, c.window);
      CallKeepsSequences(s, c);
      forall i, j | 0 <= i < j < |t.log| && t.log[i].window == t.log[j].window
        ensures t.log[i].value < t.log[j].value
      {
        assert i < |s.log| && s.log[i] in s.log;
      }
    }
  }

  // A call inside the running window: the starts stay, the new call comes last.
  lemma CallInWindow(s: State, length: nat, caller: nat)
    requires TimesInv(s, length) && s.starts != [] && Live(s) && Enabled(s, Incr(caller))
    ensures TimesInv(Apply(s, length, Incr(caller)), length)
  {
    var t := Apply(s, length, Incr(caller));
    var c := Call(s.now, s.cell.value.count + 1, |s.starts| - 1);
    assert t.log == s.log + [c] && t.starts == s.starts;
    assert forall d | d in t.log :: d in s.log || d == c;
  }

  // A call that starts a window: every earlier call was before the old deadline, hence before now.
  lemma CallStartsWindow(s: State, length: nat, caller: nat)
    requires TimesInv(s, length) && (s.starts == [] <==> s.cell.None?) && length > 0
    requires !Live(s) && Enabled(s, Incr(caller))
    ensures TimesInv(Apply(s, length, Incr(caller)), length)
  {
    var t := Apply(s, length, Incr(caller));
    var c := Call(s.now, 1, |s.starts|);
    assert t.log == s.log + [c] && t.starts == s.starts + [s.now] && t.cell == Some(Cell(1, None));
    EarlierCallsAreEarlier(s, length);
    forall i | 0 <= i < |t.starts| - 1
      ensures t.starts[i] + length <= t.starts[i + 1]
    {
      assert i + 1 == |s.starts| || s.starts[i] + length <= s.starts[i + 1];
    }
    forall d | d in t.log
      ensures 0 <= d.window < |t.starts| && t.starts[d.window] <= d.at <= t.now
      ensures d.window + 1 < |t.starts| ==> d.at < t.starts[d.window + 1]
    {
      assert d == c || d in s.log;
    }
  }

  lemma EarlierCallsAreEarlier(s: State, length: nat)
    requires TimesInv(s, length) && (s.starts == [] <==> s.cell.None?) && length > 0 && !Live(s)
    ensures forall d | d in s.log :: d.at < s.now
    ensures s.starts != [] ==> s.starts[|s.starts| - 1] + length <= s.now
  {
    forall d | d in s.log
      ensures d.at < s.now
    {
      assert s.starts != [];
    }
  }

  lemma StepKeepsTimes(s: State, length: nat, step: Step)
    requires ExpiryInv(s) && TimesInv(s, length) && Enabled(s, step) && length > 0
    ensures TimesInv(Apply(s, length, step), length)
  {
    if step.Incr? {
      if Live(s) {
        CallInWindow(s, length, step.caller);
      } else {
        CallStartsWindow(s, length, step.caller);
      }
    }
  }

  lemma {:induction false} InvHolds(length: nat, steps: seq<Step>)
    requires Run(length, steps) && length > 0
    ensures ExpiryInv(After(length, steps)) && ValuesInv(After(length, steps)) && TimesInv(After(length, steps), length)
  {
    if steps != [] {
      InvHolds(length, steps[..|steps| - 1]);
      var s, step := After(length, steps[..|steps| - 1]), steps[|steps| - 1];
      StepKeepsExpiry(s, length, step);
      StepKeepsValues(s, length, step);
      StepKeepsTimes(s, length, step);
    }
  }

  // ------------------------------------------------------------ the results

  /**
   A live counter has no expiry exactly when one caller is between its two commands, or some
   EXPIRE failed; never two callers at once.
   */
  lemma NoExpiryExactlyInBetween(length: nat, steps: seq<Step>, s: State)
    requires Run(length, steps) && length > 0 && s == After(length, steps)
    ensures Live(s) && s.cell.value.deadline.None? <==> s.waiting != {} || s.failed
    ensures |s.waiting| <= 1
  {
    InvHolds(length, steps);
  }

  /** The values returned inside one window are 1, 2, ... in order, without a gap or a repeat. */
  lemma WindowCountsUp(length: nat, steps: seq<Step>, s: State, window: int)
    requires Run(length, steps) && length > 0 && s == After(length, steps)
    ensures Values(s.log, window) == UpTo(|Values(s.log, window)|)
  {
    InvHolds(length, steps);
  }

  /**
   After a failed EXPIRE no continuation starts a window again: the count only grows. Every
   reachable state meets the invariant (InvHolds).
   */
  lemma {:induction false} FailedExpiryIsForever(s: State, length: nat, more: seq<Step>)
    requires ExpiryInv(s) && s.failed && RunFrom(s, length, more)
    ensures ExpiryInv(Exec(s, length, more))
    ensures Exec(s, length, more).failed && Live(Exec(s, length, more))
    ensures Exec(s, length, more).starts == s.starts
    ensures s.cell.Some? && Exec(s, length, more).cell.value.count >= s.cell.value.count
  {
    if more != [] {
      FailedExpiryIsForever(s, length, more[..|more| - 1]);
      StepKeepsExpiry(Exec(s, length, more[..|more| - 1]), length, more[|more| - 1]);
    }
  }

  /** Any call that starts a window can lose its EXPIRE. */
  lemma AnyExpiryCanFail(length: nat, steps: seq<Step>, s: State, caller: nat)
    requires Run(length, steps) && s == After(length, steps) && !Live(s) && caller !in s.waiting
    ensures Run(length, steps + [Incr(caller)] + [ExpireFails(caller)])
    ensures After(length, steps + [Incr(caller)] + [ExpireFails(caller)]).failed
  {
    Extend(length, steps, Incr(caller));
    Extend(length, steps + [Incr(caller)], ExpireFails(caller));
  }

  lemma FirstExpiryCanFail(length: nat)
    ensures Run(length, [Incr(0), ExpireFails(0)]) && After(length, [Incr(0), ExpireFails(0)]).failed
  {
    AnyExpiryCanFail(length, [], FRESH, 0);
    assert [] + [Incr(0)] + [ExpireFails(0)] == [Incr(0), ExpireFails(0)];
  }

  /**
   The deadline is counted from the EXPIRE, not from the first INCR: a window lasts its length and
   the time that passed between the two commands of the call that started it.
   */
  lemma DeadlineCountsFromExpire(length: nat, steps: seq<Step>, s: State, caller: nat)
    requires Run(length, steps) && length > 0 && s == After(length, steps) && caller in s.waiting
    ensures s.starts != []
    ensures var t := Apply(s, length, Expire(caller)); var start := s.starts[|s.starts| - 1];
      && t.starts == s.starts && start <= s.now
      && t.cell.Some? && t.cell.value.deadline == Some(s.now + length)
      && (t.cell.value.deadline == Some(start + length) <==> s.now == start)
  {
    InvHolds(length, steps);
  }

  // The windows two apart are a full length apart.
  lemma TwoWindowsApart(s: State, length: nat, c: Call, d: Call)
    requires TimesInv(s, length) && c in s.log && d in s.log && c.window + 2 <= d.window
    ensures c.at + length < d.at
  {
    StartsAreSpaced(s, length, c.window + 2, d.window);
    assert s.starts[c.window + 1] + length <= s.starts[c.window + 2];
  }

  lemma {:induction false} StartsAreSpaced(s: State, length: nat, i: nat, j: nat)
    requires TimesInv(s, length) && i <= j < |s.starts|
    ensures s.starts[i] <= s.starts[j]
  {
    if i < j {
      StartsAreSpaced(s, length, i, j - 1);
      assert s.starts[j - 1] + length <= s.starts[j - 1 + 1];
    }
  }

  lemma {:induction false} ImageSize(s: set<nat>, f: nat -> nat)
    requires forall i, j | i in s && j in s && i != j :: f(i) != f(j)
    ensures |set i | i in s :: f(i)| == |s|
  {
    if s != {} {
      var x :| x in s;
      ImageSize(s - {x}, f);
      assert (set i | i in s :: f(i)) == (set i | i in s - {x} :: f(i)) + {f(x)};
    }
  }

  lemma InjectionBound(s: set<nat>, f: nat -> nat, n: nat)
    requires forall i | i in s :: f(i) < n
    requires forall i, j | i in s && j in s && i != j :: f(i) != f(j)
    ensures |s| <= n
  {
    ImageSize(s, f);
    SubsetSize(set i | i in s :: f(i), Below(n));
  }

  function Allowed(log: seq<Call>, from: Millis, length: nat, cap: nat): set<nat> {
    set i: nat | i < |log| && from <= log[i].at <= from + length && log[i].value <= cap
  }

  // Calls within one length fall in one window or in two neighbouring ones.
  lemma FirstWindow(s: State, length: nat, from: Millis, cap: nat) returns (w: int)
    requires TimesInv(s, length)
    ensures forall i | i in Allowed(s.log, from, length, cap) :: w <= s.log[i].window <= w + 1
  {
    var allowed := Allowed(s.log, from, length, cap);
    forall i, j | i in allowed && j in allowed
      ensures s.log[j].window <= s.log[i].window + 1
    {
      if s.log[i].window + 2 <= s.log[j].window {
        TwoWindowsApart(s, length, s.log[i], s.log[j]);
        assert false;
      }
    }
    if allowed == {} {
      w := 0;
    } else {
      var a :| a in allowed;
      if b :| b in allowed && s.log[b].window + 1 == s.log[a].window {
        w := s.log[b].window;
      } else {
        w := s.log[a].window;
      }
    }
  }

  // Numbers the calls of two neighbouring windows that returned at most cap.
  function Slot(log: seq<Call>, w: int, cap: nat, i: nat): nat {
    if i < |log| && log[i].value > 0 then (if log[i].window == w then 0 else cap) + log[i].value - 1 else 0
  }

  lemma SlotsAreDistinct(s: State, allowed: set<nat>, w: int, cap: nat)
    requires ValuesInv(s)
    requires forall i | i in allowed :: i < |s.log| && s.log[i].value <= cap && w <= s.log[i].window <= w + 1
    ensures forall i | i in allowed :: Slot(s.log, w, cap, i) < 2 * cap
    ensures forall i, j | i in allowed && j in allowed && i != j :: Slot(s.log, w, cap, i) != Slot(s.log, w, cap, j)
  {
    hide Values;
    forall i | i in allowed
      ensures Slot(s.log, w, cap, i) < 2 * cap
    {
      assert s.log[i] in s.log;
    }
    forall i, j | i in allowed && j in allowed && i < j
      ensures Slot(s.log, w, cap, i) != Slot(s.log, w, cap, j)
    {
      assert s.log[i] in s.log && s.log[j] in s.log;
      assert s.log[i].window == s.log[j].window ==> s.log[i].value < s.log[j].value;
    }
  }

  /**
   The promise behind the hourly cap, for every interleaving, even when some EXPIRE fails: no
   interval one window long holds more than twice the cap of calls that stayed within it.
   */
  lemma CapHolds(length: nat, steps: seq<Step>, s: State, from: Millis, cap: nat)
    requires Run(length, steps) && length > 0 && s == After(length, steps)
    ensures |Allowed(s.log, from, length, cap)| <= 2 * cap
    ensures |set i: nat | i < |s.log| && from <= s.log[i].at <= from + length && s.log[i].value <= cap| <= 2 * cap
  {
    InvHolds(length, steps);
    var w := FirstWindow(s, length, from, cap);
    SlotsAreDistinct(s, Allowed(s.log, from, length, cap), w, cap);
    InjectionBound(Allowed(s.log, from, length, cap), (i: nat) => Slot(s.log, w, cap, i), 2 * cap);
  }

  // ------------------------------------------------------------ the call as one process makes it

  // One counter with the window length its callers pass. steps is what has happened to it so far:
  // the object is always in the state of a run.
  class CounterStore {
    const length: nat
    var now: Millis
    var cell: Option<Cell>
    ghost var steps: seq<Step>

    predicate Running()
      reads this
    {
      cell.Some? && (cell.value.deadline.None? || now < cell.value.deadline.value)
    }

    ghost predicate Valid()
      reads this
    {
      && Run(length, steps) && After(length, steps).cell == cell && After(length, steps).now == now
      && (cell.Some? ==> cell.value.count > 0)
    }

    constructor (length: nat)
      ensures Valid() && !Running() && this.length == length && steps == []
    {
      this.length := length;
      now, cell, steps := 0, None, [];
    }

    method Wait(millis: nat)
      requires Valid()
      modifies this`now, this`steps
      ensures Valid() && now == old(now) + millis && steps == old(steps) + [Tick(millis)]
    {
      Extend(length, steps, Tick(millis));
      steps := steps + [Tick(millis)];
      now := now + millis;
    }

    /**
     With nobody in between, a call counts up inside the running window, or starts a window that
     ends a length later. caller names the call in the run it continues.
     */
    method IncrWindowCount(incrFails: bool, expireFails: bool, ghost caller: nat) returns (n: nat, ok: bool)
      requires Valid() && caller !in After(length, steps).waiting
      modifies this`cell, this`steps
      ensures Valid()
      ensures !incrFails && old(cell).None? ==>
        n == 1 && cell == Some(Cell(1, if expireFails then None else Some(now + length)))
      ensures !incrFails && old(cell).Some? && old(cell).value.deadline.Some? ==>
        old(cell).value.deadline.value <= now ==>
        n == 1 && cell == Some(Cell(1, if expireFails then None else Some(now + length)))
      ensures !incrFails && old(cell).Some? && old(cell).value.deadline.None? ==>
        n == old(cell).value.count + 1 && cell == Some(Cell(n, None))
      ensures !incrFails && old(cell).Some? && old(cell).value.deadline.Some? ==>
        now < old(cell).value.deadline.value ==>
        n == old(cell).value.count + 1 && cell == Some(Cell(n, old(cell).value.deadline))
      ensures incrFails ==> n == 0 && !ok && cell == old(cell) && steps == old(steps)
      ensures !incrFails && old(Running()) ==>
        && ok && n == old(cell).value.count + 1 && cell == Some(Cell(n, old(cell).value.deadline))
        && steps == old(steps) + [Incr(caller)]
      ensures !incrFails && !old(Running()) ==>
        && n == 1 && ok == !expireFails && cell == Some(Cell(1, if ok then Some(now + length) else None))
        && steps == old(steps) + [Incr(caller)] + [if ok then Expire(caller) else ExpireFails(caller)]
    {
      hide Run, After;
      if incrFails {
        return 0, false;
      }
      ok := true;
      Extend(length, steps, Incr(caller));
      steps := steps + [Incr(caller)];
      if cell.None? || (cell.value.deadline.Some? && cell.value.deadline.value <= now) {
        n := 1;
        cell := Some(Cell(1, None));
      } else {
        n := cell.value.count + 1;
        cell := Some(cell.value.(count := n));
      }
      if n == 1 {
        if expireFails {
          Extend(length, steps, ExpireFails(caller));
          steps := steps + [ExpireFails(caller)];
          ok := false;
          return;
        }
        Extend(length, steps, Expire(caller));
        steps := steps + [Expire(caller)];
        cell := Some(cell.value.(deadline := Some(now + length)));
      }
    }
  }
}
