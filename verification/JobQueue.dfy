/**
 The reliable hand-off queue: two Redis lists, changed by LPUSH, BLMOVE and LREM. Requeue is two
 commands, so any number of other processes can act between them.
 */
module JobQueue {
  import opened Wrappers

  type Id = string

  // LREM list 1 id: removes the copy nearest the head, if there is one.
  function RemoveFirst(list: seq<Id>, id: Id): seq<Id> {
    if list == [] then []
    else if list[0] == id then list[1..]
    else [list[0]] + RemoveFirst(list[1..], id)
  }

  function Reverse(list: seq<Id>): seq<Id> {
    if list == [] then [] else Reverse(list[1..]) + [list[0]]
  }

  // The two lists (head first), and what has happened so far: every push and claim in order,
  // the enqueued IDs, the acks that removed a copy, the requeuers between their two commands,
  // the requeues whose LREM removed a copy or found nothing to remove, and those whose LPUSH failed.
  datatype State = State(
    pending: seq<Id>, processing: seq<Id>,
    pushed: seq<Id>, claimed: seq<Id>,
    enqueued: multiset<Id>, acked: multiset<Id>, between: multiset<Id>,
    requeued: multiset<Id>, missed: multiset<Id>, lost: multiset<Id>)

  const EMPTY := State([], [], [], [], multiset{}, multiset{}, multiset{}, multiset{}, multiset{}, multiset{})

  datatype Step =
    | Enqueue(id: Id)
    | Claim                  // BLMOVE RIGHT LEFT; with nothing pending it times out
    | Ack(id: Id)            // LREM
    | RequeueRemove(id: Id)  // the LREM of Requeue
    | RequeuePush(id: Id)    // its LPUSH
    | RequeuePushFails(id: Id)

  predicate Enabled(s: State, step: Step) {
    step.RequeuePush? || step.RequeuePushFails? ==> step.id in s.between
  }

  function Apply(s: State, step: Step): State
    requires Enabled(s, step)
  {
    match step
    case Enqueue(id) =>
      s.(pending := [id] + s.pending, pushed := s.pushed + [id], enqueued := s.enqueued + multiset{id})
    case Claim =>
      if s.pending == [] then s
      else
        var id := s.pending[|s.pending| - 1];
        s.(pending := s.pending[..|s.pending| - 1], processing := [id] + s.processing, claimed := s.claimed + [id])
    case Ack(id) =>
      s.(processing := RemoveFirst(s.processing, id),
         acked := if id in s.processing then s.acked + multiset{id} else s.acked)
    case RequeueRemove(id) =>
      s.(processing := RemoveFirst(s.processing, id), between := s.between + multiset{id},
         requeued := if id in s.processing then s.requeued + multiset{id} else s.requeued,
         missed := if id in s.processing then s.missed else s.missed + multiset{id})
    case RequeuePush(id) =>
      s.(pending := [id] + s.pending, pushed := s.pushed + [id], between := s.between - multiset{id})
    case RequeuePushFails(id) => s.(between := s.between - multiset{id}, lost := s.lost + multiset{id})
  }

  // Every interleaving of any number of producers, workers and reapers, from empty lists.
  predicate Run(steps: seq<Step>)
    decreases |steps|, 0
  {
    steps == [] || (Run(steps[..|steps| - 1]) && Enabled(After(steps[..|steps| - 1]), steps[|steps| - 1]))
  }

  function After(steps: seq<Step>): State
    requires Run(steps)
    decreases |steps|, 1
  {
    if steps == [] then EMPTY else Apply(After(steps[..|steps| - 1]), steps[|steps| - 1])
  }

  // ------------------------------------------------------------ what every step keeps

  function Copies(s: State, id: Id): nat {
    multiset(s.pending)[id] + multiset(s.processing)[id]
  }

  predicate Balanced(s: State, id: Id) {
    Copies(s, id) + s.between[id] + s.acked[id] + s.lost[id] == s.enqueued[id] + s.missed[id]
  }

  predicate InOrder(s: State) {
    s.claimed + Reverse(s.pending) == s.pushed
  }

  predicate ClaimsBalance(s: State) {
    multiset(s.claimed) == multiset(s.processing) + s.acked + s.requeued
  }

  lemma {:induction false} RemoveFirstTakesOne(list: seq<Id>, id: Id)
    ensures multiset(RemoveFirst(list, id)) == multiset(list) - multiset{id}
    ensures id !in list ==> RemoveFirst(list, id) == list
  {
    if list != [] {
      assert list == [list[0]] + list[1..];
      if list[0] != id {
        RemoveFirstTakesOne(list[1..], id);
      }
    }
  }

  // LREM takes the copy nearest the head, and leaves the order of the rest.
  lemma {:induction false} RemoveFirstKeepsOrder(before: seq<Id>, id: Id, after: seq<Id>)
    requires id !in before
    ensures RemoveFirst(before + [id] + after, id) == before + after
  {
    if before == [] {
      assert [] + [id] + after == [id] + after && [] + after == after;
    } else {
      var list := before + [id] + after;
      assert list[0] == before[0] && list[1..] == before[1..] + [id] + after;
      RemoveFirstKeepsOrder(before[1..], id, after);
      assert [before[0]] + (before[1..] + after) == before + after;
    }
  }

  lemma {:induction false} ReverseAppend(list: seq<Id>, id: Id)
    ensures Reverse(list + [id]) == [id] + Reverse(list)
  {
    if list != [] {
      assert (list + [id])[1..] == list[1..] + [id];
      ReverseAppend(list[1..], id);
    }
  }

  lemma StepKeepsBalance(s: State, step: Step, id: Id)
    requires Balanced(s, id) && Enabled(s, step)
    ensures Balanced(Apply(s, step), id)
  {
    match step
    case Enqueue(x) => assert multiset([x] + s.pending) == multiset{x} + multiset(s.pending);
    case Claim => ClaimKeepsEveryCopy(s, id);
    case Ack(x) => RemoveFirstTakesOne(s.processing, x);
    case RequeueRemove(x) => RemoveFirstTakesOne(s.processing, x);
    case RequeuePush(x) => assert multiset([x] + s.pending) == multiset{x} + multiset(s.pending);
    case RequeuePushFails(_) =>
  }

  // A claim moves one copy: at no moment is a claimed job in neither list.
  lemma ClaimKeepsEveryCopy(s: State, id: Id)
    ensures Copies(Apply(s, Claim), id) == Copies(s, id)
  {
    if s.pending != [] {
      var front, last := s.pending[..|s.pending| - 1], s.pending[|s.pending| - 1];
      assert s.pending == front + [last];
      assert multiset([last] + s.processing) == multiset{last} + multiset(s.processing);
    }
  }

  lemma StepKeepsOrder(s: State, step: Step)
    requires InOrder(s) && Enabled(s, step)
    ensures InOrder(Apply(s, step))
  {
    match step
    case Enqueue(id) => assert ([id] + s.pending)[1..] == s.pending;
    case Claim =>
      if s.pending != [] {
        var front, last := s.pending[..|s.pending| - 1], s.pending[|s.pending| - 1];
        assert s.pending == front + [last];
        ReverseAppend(front, last);
      }
    case Ack(_) =>
    case RequeueRemove(_) =>
    case RequeuePush(id) => assert ([id] + s.pending)[1..] == s.pending;
    case RequeuePushFails(_) =>
  }

  lemma StepKeepsClaims(s: State, step: Step)
    requires ClaimsBalance(s) && Enabled(s, step)
    ensures ClaimsBalance(Apply(s, step))
  {
    match step
    case Claim =>
      if s.pending != [] {
        var id := s.pending[|s.pending| - 1];
        assert multiset([id] + s.processing) == multiset{id} + multiset(s.processing);
      }
    case Ack(id) => RemoveFirstTakesOne(s.processing, id);
    case RequeueRemove(id) => RemoveFirstTakesOne(s.processing, id);
    case _ =>
  }

  lemma {:induction false} InvHolds(steps: seq<Step>)
    requires Run(steps)
    ensures forall id :: Balanced(After(steps), id)
    ensures InOrder(After(steps)) && ClaimsBalance(After(steps))
  {
    if steps != [] {
      var s := After(steps[..|steps| - 1]);
      InvHolds(steps[..|steps| - 1]);
      forall id
        ensures Balanced(After(steps), id)
      {
        StepKeepsBalance(s, steps[|steps| - 1], id);
      }
      StepKeepsOrder(s, steps[|steps| - 1]);
      StepKeepsClaims(s, steps[|steps| - 1]);
    }
  }

  // ------------------------------------------------------------ the results

  /**
   For each job ID: the copies in the two lists, the requeuers between their two commands, the acks
   that removed one and the requeues whose LPUSH failed are the enqueues plus one for every requeue
   that found nothing.
   */
  lemma CopiesAreConserved(steps: seq<Step>, s: State, id: Id)
    requires Run(steps) && s == After(steps)
    ensures multiset(s.pending)[id] + multiset(s.processing)[id] + s.between[id] + s.acked[id] + s.lost[id]
         == s.enqueued[id] + s.missed[id]
  {
    InvHolds(steps);
    assert Balanced(s, id);
  }

  /**
   The promised law, enqueues minus effective acks, holds exactly when as many requeues of the ID
   failed in their LPUSH as found nothing to remove; so it does when neither happened.
   */
  lemma NothingLostOrDuplicated(steps: seq<Step>, s: State, id: Id)
    requires Run(steps) && s == After(steps)
    ensures multiset(s.pending)[id] + multiset(s.processing)[id] + s.between[id] + s.acked[id] == s.enqueued[id]
       <==> s.missed[id] == s.lost[id]
  {
    CopiesAreConserved(steps, s, id);
  }

  /** Every claim is in flight, acknowledged or taken back by a requeue: so many jobs are in flight. */
  lemma ClaimsAreAccountedFor(steps: seq<Step>, s: State)
    requires Run(steps) && s == After(steps)
    ensures multiset(s.claimed) == multiset(s.processing) + s.acked + s.requeued
    ensures |s.processing| == |s.claimed| - |s.acked| - |s.requeued|
  {
    InvHolds(steps);
    assert |multiset(s.claimed)| == |s.claimed| && |multiset(s.processing)| == |s.processing|;
  }

  // A requeue after the ack puts an acknowledged job back on the pending list.
  const RACE := [Enqueue("job"), Claim, Ack("job"), RequeueRemove("job"), RequeuePush("job")]

  lemma Extend(steps: seq<Step>, step: Step)
    requires Run(steps) && Enabled(After(steps), step)
    ensures Run(steps + [step]) && After(steps + [step]) == Apply(After(steps), step)
  {
    assert (steps + [step])[..|steps|] == steps;
  }

  lemma LateRequeueRevivesJob()
    ensures Run(RACE) && After(RACE).pending == ["job"]
    ensures After(RACE).enqueued == After(RACE).acked == multiset{"job"}
  {
    var r0: seq<Step> := [];
    Extend(r0, RACE[0]);
    Extend(r0 + [RACE[0]], RACE[1]);
    Extend(r0 + [RACE[0]] + [RACE[1]], RACE[2]);
    Extend(r0 + [RACE[0]] + [RACE[1]] + [RACE[2]], RACE[3]);
    Extend(r0 + [RACE[0]] + [RACE[1]] + [RACE[2]] + [RACE[3]], RACE[4]);
    assert r0 + [RACE[0]] + [RACE[1]] + [RACE[2]] + [RACE[3]] + [RACE[4]] == RACE;
  }

  // A requeue whose LPUSH fails leaves a job nowhere.
  const FAILED_PUSH := [Enqueue("job"), Claim, RequeueRemove("job"), RequeuePushFails("job")]

  lemma FailedPushLosesJob()
    ensures Run(FAILED_PUSH)
    ensures var s := After(FAILED_PUSH);
      && s.pending == s.processing == [] && s.between == s.acked == multiset{}
      && s.enqueued == s.lost == multiset{"job"}
  {
    var r0: seq<Step> := [];
    Extend(r0, FAILED_PUSH[0]);
    Extend(r0 + [FAILED_PUSH[0]], FAILED_PUSH[1]);
    Extend(r0 + [FAILED_PUSH[0]] + [FAILED_PUSH[1]], FAILED_PUSH[2]);
    Extend(r0 + [FAILED_PUSH[0]] + [FAILED_PUSH[1]] + [FAILED_PUSH[2]], FAILED_PUSH[3]);
    assert r0 + [FAILED_PUSH[0]] + [FAILED_PUSH[1]] + [FAILED_PUSH[2]] + [FAILED_PUSH[3]] == FAILED_PUSH;
  }

  /** First in, first out over all pushes: claims and what is still pending, oldest first, are the pushes. */
  lemma ClaimsFollowPushes(steps: seq<Step>, s: State)
    requires Run(steps) && s == After(steps)
    ensures s.claimed + Reverse(s.pending) == s.pushed
    ensures s.claimed <= s.pushed
  {
    InvHolds(steps);
  }

  function Enqueues(steps: seq<Step>): seq<Id> {
    if steps == [] then []
    else
      var last := steps[|steps| - 1];
      Enqueues(steps[..|steps| - 1]) + (if last.Enqueue? then [last.id] else [])
  }

  lemma {:induction false} PushesAreEnqueues(steps: seq<Step>)
    requires Run(steps) && forall step | step in steps :: !step.RequeuePush?
    ensures After(steps).pushed == Enqueues(steps)
  {
    if steps != [] {
      PushesAreEnqueues(steps[..|steps| - 1]);
    }
  }

  /** Without requeues the claimed IDs are a prefix of the enqueued IDs. */
  lemma ClaimsFollowEnqueues(steps: seq<Step>)
    requires Run(steps) && forall step | step in steps :: !step.RequeuePush?
    ensures After(steps).claimed <= Enqueues(steps)
  {
    ClaimsFollowPushes(steps, After(steps));
    PushesAreEnqueues(steps);
  }

  // ------------------------------------------------------------ the queue as the process calls it

  lemma RemovalExtends(steps: seq<Step>, s: State, id: Id)
    requires Run(steps) && s == After(steps)
    ensures Run(steps + [RequeueRemove(id)])
    ensures var t := After(steps + [RequeueRemove(id)]);
      t.pending == s.pending && t.processing == RemoveFirst(s.processing, id) && id in t.between
  {
    Extend(steps, RequeueRemove(id));
  }

  lemma PushExtends(steps: seq<Step>, s: State, id: Id)
    requires Run(steps) && s == After(steps) && id in s.between
    ensures Run(steps + [RequeuePush(id)])
    ensures var t := After(steps + [RequeuePush(id)]); t.pending == [id] + s.pending && t.processing == s.processing
  {
    Extend(steps, RequeuePush(id));
  }

  lemma FailureExtends(steps: seq<Step>, s: State, id: Id)
    requires Run(steps) && s == After(steps) && id in s.between
    ensures Run(steps + [RequeuePushFails(id)])
    ensures var t := After(steps + [RequeuePushFails(id)]); t.pending == s.pending && t.processing == s.processing
  {
    Extend(steps, RequeuePushFails(id));
  }

  lemma MoveKeepsCopies(pending: seq<Id>, processing: seq<Id>, id: Id)
    requires id in processing
    ensures multiset([id] + pending) + multiset(RemoveFirst(processing, id)) == multiset(pending) + multiset(processing)
  {
    RemoveFirstTakesOne(processing, id);
    assert multiset([id] + pending) == multiset{id} + multiset(pending);
  }

  // steps is what has happened to the two lists so far: the object is always in the state of a run.
  class Queue {
    var pending: seq<Id>
    var processing: seq<Id>
    ghost var steps: seq<Step>

    ghost predicate Valid()
      reads this
    {
      Run(steps) && After(steps).pending == pending && After(steps).processing == processing
    }

    constructor ()
      ensures Valid() && steps == [] && pending == [] && processing == []
    {
      pending := [];
      processing := [];
      steps := [];
    }

    method Enqueue(id: Id)
      requires Valid()
      modifies this`pending, this`steps
      ensures Valid() && steps == old(steps) + [Step.Enqueue(id)]
      ensures pending == [id] + old(pending)
    {
      Extend(steps, Step.Enqueue(id));
      steps := steps + [Step.Enqueue(id)];
      pending := [id] + pending;
    }

    method Claim() returns (job: Option<Id>)
      requires Valid()
      modifies this
      ensures Valid() && steps == old(steps) + [Step.Claim]
      ensures old(pending) == [] ==> job == None && pending == [] && processing == old(processing)
      ensures old(pending) != [] ==>
        job.Some? && old(pending) == pending + [job.value] && processing == [job.value] + old(processing)
    {
      Extend(steps, Step.Claim);
      steps := steps + [Step.Claim];
      if pending == [] {
        return None;
      }
      var id := pending[|pending| - 1];
      pending := pending[..|pending| - 1];
      processing := [id] + processing;
      job := Some(id);
    }

    method Ack(id: Id)
      requires Valid()
      modifies this`processing, this`steps
      ensures Valid() && steps == old(steps) + [Step.Ack(id)]
      ensures multiset(processing) == multiset(old(processing)) - multiset{id}
      ensures processing == RemoveFirst(old(processing), id)
      ensures forall before, after | old(processing) == before + [id] + after && id !in before ::
        processing == before + after
    {
      hide Run, After;
      forall before, after | processing == before + [id] + after && id !in before
        ensures RemoveFirst(processing, id) == before + after
      {
        RemoveFirstKeepsOrder(before, id, after);
      }
      Extend(steps, Step.Ack(id));
      steps := steps + [Step.Ack(id)];
      RemoveFirstTakesOne(processing, id);
      processing := RemoveFirst(processing, id);
    }

    // The claims so far that were neither acknowledged nor taken back.
    method JobsInFlight() returns (n: nat)
      requires Valid()
      ensures n == |processing|
      ensures var s := After(steps); n == |s.claimed| - |s.acked| - |s.requeued|
    {
      ClaimsAreAccountedFor(steps, After(steps));
      n := |processing|;
    }

    /**
     Both commands in one go: with nobody in between, a claimed job goes back as the newest pending
     one. When LREM fails nothing happens; when LPUSH fails, a job that was found is in neither list.
     */
    method Requeue(id: Id, removeFails: bool, pushFails: bool) returns (ok: bool)
      requires Valid()
      modifies this
      ensures Valid() && ok == (!removeFails && !pushFails)
      ensures steps == old(steps) +
        if removeFails then [] else [RequeueRemove(id), if pushFails then RequeuePushFails(id) else RequeuePush(id)]
      ensures processing == if removeFails then old(processing) else RemoveFirst(old(processing), id)
      ensures pending == if ok then [id] + old(pending) else old(pending)
      ensures ok && id in old(processing) ==>
        multiset(pending) + multiset(processing) == multiset(old(pending)) + multiset(old(processing))
    {
      hide Run, After, RemoveFirst;
      ok := false;
      if removeFails {
        return;
      }
      RemovalExtends(steps, After(steps), id);
      steps := steps + [RequeueRemove(id)];
      if id in processing {
        MoveKeepsCopies(pending, processing, id);
      }
      processing := RemoveFirst(processing, id);
      if pushFails {
        FailureExtends(steps, After(steps), id);
        steps := steps + [RequeuePushFails(id)];
        return;
      }
      PushExtends(steps, After(steps), id);
      steps := steps + [RequeuePush(id)];
      pending := [id] + pending;
      ok := true;
    }
  }
}
