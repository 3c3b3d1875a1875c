/**
 One pentest script per Kubernetes Job. Any number of Run calls share a counting semaphore; each
 creates objects named after its own run, pushes a clean-up for every object it made, and runs
 the clean-ups in reverse order when it returns. Every API call may fail.
 */
module SandboxJobs {
  import opened Counting
  import opened Scripts

  type RunId = nat

  datatype Wordlist = NoWordlist | CrawlDerived | Static(known: bool)

  datatype Spec = Spec(script: Script, wordlist: Wordlist, hasUrls: bool)

  datatype Cleanup = ReleaseSlot | DeleteConfigMap | DeletePolicy | DeleteJob

  // Where a call stands; every phase in between makes at most one API call.
  datatype Phase =
    | AtSemaphore
    | AtWordlist   // slot taken: script and wordlist checks, ConfigMap of a crawl-derived list
    | AtUrls       // ConfigMap of a URL list
    | AtPolicy     // NetworkPolicy, unless the script has open egress
    | AtJob        // Job
    | Polling      // the Job exists
    | Unwinding    // the deferred clean-ups, last one first
    | Returned

  // An object of a run. All of a run's objects carry its ID as their name, so there is one of each kind.
  // going: a deletion in the foreground was accepted, which takes effect some time later.
  datatype Object = Object(created: bool, present: bool, deletionAsked: bool, going: bool)

  const NEVER := Object(false, false, false, false)

  datatype Call = Call(
    spec: Spec, phase: Phase, defers: seq<Cleanup>, taken: nat, freed: nat,
    configMap: Object, policy: Object, job: Object)

  // slots: the calls whose token is in the semaphore channel, of capacity cap.
  datatype State = State(cap: nat, slots: set<RunId>, calls: map<RunId, Call>)

  datatype Step =
    | Begin(id: RunId, spec: Spec)    // a new call, with a fresh run ID
    | Acquire(id: RunId)
    | GiveUp(id: RunId)               // the caller's context ends while it waits for a slot
    | Advance(id: RunId, ok: bool)    // the next API call, and whether it succeeds
    | Unwind(id: RunId, ok: bool)     // the next clean-up, and whether its delete succeeds
    | Finish(id: RunId)
    | Vanish(id: RunId)               // the Job whose deletion was accepted is gone, its pod with it

  // New: a limit below one is one.
  function Init(maxConcurrent: int): State {
    State(if maxConcurrent <= 0 then 1 else maxConcurrent, {}, map[])
  }

  predicate InBody(phase: Phase) {
    phase in {AtWordlist, AtUrls, AtPolicy, AtJob, Polling}
  }

  predicate Enabled(s: State, step: Step) {
    match step
    case Begin(id, _) => id !in s.calls
    case Acquire(id) => id in s.calls && s.calls[id].phase == AtSemaphore && |s.slots| < s.cap
    case GiveUp(id) => id in s.calls && s.calls[id].phase == AtSemaphore
    case Advance(id, _) => id in s.calls && InBody(s.calls[id].phase)
    case Unwind(id, _) => id in s.calls && s.calls[id].phase == Unwinding && s.calls[id].defers != []
    case Finish(id) => id in s.calls && s.calls[id].phase == Unwinding && s.calls[id].defers == []
    case Vanish(id) => id in s.calls && s.calls[id].job.going && s.calls[id].job.present
  }

  // A create succeeds unless the API fails or an object of that name is there already.
  predicate Creates(o: Object, ok: bool) {
    ok && !o.present
  }

  const MADE := Object(true, true, false, false)

  function CreateConfigMap(c: Call, ok: bool, next: Phase): Call {
    if Creates(c.configMap, ok)
    then c.(configMap := MADE, defers := c.defers + [DeleteConfigMap], phase := next)
    else c.(phase := Unwinding)
  }

  function CreatePolicy(c: Call, ok: bool): Call {
    if Creates(c.policy, ok)
    then c.(policy := MADE, defers := c.defers + [DeletePolicy], phase := AtJob)
    else c.(phase := Unwinding)
  }

  function CreateJob(c: Call, ok: bool): Call {
    if Creates(c.job, ok)
    then c.(job := MADE, defers := c.defers + [DeleteJob], phase := Polling)
    else c.(phase := Unwinding)
  }

  function AdvanceCall(c: Call, ok: bool): Call {
    match c.phase
    case AtWordlist =>
      if !HasScriptFile(c.spec.script) then c.(phase := Unwinding)
      else (
        match c.spec.wordlist
        case CrawlDerived => CreateConfigMap(c, ok, AtUrls)
        case Static(known) => c.(phase := if known then AtUrls else Unwinding)
        case NoWordlist => c.(phase := AtUrls))
    case AtUrls => if c.spec.hasUrls then CreateConfigMap(c, ok, AtPolicy) else c.(phase := AtPolicy)
    case AtPolicy => if KubernetesMode(c.spec.script) == OpenEgress then c.(phase := AtJob) else CreatePolicy(c, ok)
    case AtJob => CreateJob(c, ok)
    case _ => c.(phase := Unwinding) // the pod finished, timed out, or could not be listed
  }

  // A clean-up asks for the deletion whatever happened before; the object goes if the API agrees.
  function Delete(o: Object, ok: bool): Object {
    o.(deletionAsked := true, present := o.present && !ok)
  }

  // Foreground propagation: the request returns while the Job and its pod still exist.
  function DeleteInForeground(o: Object, ok: bool): Object {
    o.(deletionAsked := true, going := o.going || ok)
  }

  function UnwindCall(c: Call, ok: bool): Call
    requires c.defers != []
  {
    var rest := c.(defers := c.defers[..|c.defers| - 1]);
    match c.defers[|c.defers| - 1]
    case ReleaseSlot => rest.(freed := c.freed + 1)
    case DeleteConfigMap => rest.(configMap := Delete(c.configMap, ok))
    case DeletePolicy => rest.(policy := Delete(c.policy, ok))
    case DeleteJob => rest.(job := DeleteInForeground(c.job, ok))
  }

  // What a step makes of the call it names.
  function Next(s: State, step: Step): Call
    requires Enabled(s, step)
  {
    match step
    case Begin(_, spec) => Call(spec, AtSemaphore, [], 0, 0, NEVER, NEVER, NEVER)
    case Acquire(id) =>
      s.calls[id].(phase := AtWordlist, defers := s.calls[id].defers + [ReleaseSlot], taken := s.calls[id].taken + 1)
    case GiveUp(id) => s.calls[id].(phase := Returned)
    case Advance(id, ok) => AdvanceCall(s.calls[id], ok)
    case Unwind(id, ok) => UnwindCall(s.calls[id], ok)
    case Finish(id) => s.calls[id].(phase := Returned)
    case Vanish(id) => s.calls[id].(job := s.calls[id].job.(present := false))
  }

  function Slots(s: State, step: Step): set<RunId>
    requires Enabled(s, step)
  {
    match step
    case Acquire(id) => s.slots + {id}
    case Unwind(id, _) =>
      var defers := s.calls[id].defers;
      if defers[|defers| - 1] == ReleaseSlot then s.slots - {id} else s.slots
    case _ => s.slots
  }

  function Apply(s: State, step: Step): State
    requires Enabled(s, step)
  {
    s.(slots := Slots(s, step), calls := s.calls[step.id := Next(s, step)])
  }

  // Every interleaving of any number of calls, with any API call failing.
  predicate Run(maxConcurrent: int, steps: seq<Step>)
    decreases |steps|, 0
  {
    steps == []
    || (Run(maxConcurrent, steps[..|steps| - 1])
        && Enabled(After(maxConcurrent, steps[..|steps| - 1]), steps[|steps| - 1]))
  }

  function After(maxConcurrent: int, steps: seq<Step>): State
    requires Run(maxConcurrent, steps)
    decreases |steps|, 1
  {
    if steps == [] then Init(maxConcurrent)
    else Apply(After(maxConcurrent, steps[..|steps| - 1]), steps[|steps| - 1])
  }

  // ------------------------------------------------------------ what every step keeps

  predicate Pending(o: Object) {
    o.created && !o.deletionAsked
  }

  predicate Settled(o: Object) {
    o.created ==> o.deletionAsked
  }

  predicate HoldsSlot(c: Call) {
    c.taken == 1 && c.freed == 0
  }

  // The clean-ups a call still owes, in the order it took them on.
  function Owed(c: Call): seq<Cleanup> {
    (if HoldsSlot(c) then [ReleaseSlot] else [])
    + (if Pending(c.configMap) then [DeleteConfigMap] else [])
    + (if Pending(c.policy) then [DeletePolicy] else [])
    + (if Pending(c.job) then [DeleteJob] else [])
  }

  predicate ObjectInv(o: Object) {
    && (o.present || o.deletionAsked ==> o.created) && (o.going ==> o.deletionAsked)
    && (Pending(o) ==> o.present)
  }

  // Such a call needs two ConfigMaps of one name.
  predicate TwoConfigMaps(spec: Spec) {
    spec.wordlist == CrawlDerived && spec.hasUrls
  }

  predicate PhaseInv(c: Call) {
    match c.phase
    case AtSemaphore => c.taken == 0 && c.configMap == c.policy == c.job == NEVER
    case AtWordlist => HoldsSlot(c) && c.configMap == c.policy == c.job == NEVER
    case AtUrls =>
      && HoldsSlot(c) && c.policy == c.job == NEVER && c.configMap in {NEVER, MADE}
      && (c.spec.wordlist == CrawlDerived ==> c.configMap == MADE)
    case AtPolicy => HoldsSlot(c) && c.policy == c.job == NEVER && c.configMap in {NEVER, MADE}
    case AtJob => HoldsSlot(c) && c.job == NEVER && c.configMap in {NEVER, MADE} && c.policy in {NEVER, MADE}
    case Polling => HoldsSlot(c) && c.job == MADE && c.configMap in {NEVER, MADE} && c.policy in {NEVER, MADE}
    case Unwinding => c.taken == 1
    case Returned => c.defers == []
  }

  predicate CallInv(c: Call) {
    && c.freed <= c.taken <= 1
    && ObjectInv(c.configMap) && ObjectInv(c.policy) && ObjectInv(c.job)
    && c.defers == Owed(c)
    && PhaseInv(c)
    && (c.policy.deletionAsked ==> Settled(c.job))
    && (c.configMap.deletionAsked ==> Settled(c.job) && Settled(c.policy))
    && (c.freed == 1 ==> Settled(c.job) && Settled(c.policy) && Settled(c.configMap))
    && (TwoConfigMaps(c.spec) ==> c.phase !in {AtPolicy, AtJob, Polling} && !c.job.created)
    && (KubernetesMode(c.spec.script) == TargetOnly ==>
          (c.phase == AtJob ==> c.policy == MADE) && (c.job.created ==> c.policy.created))
  }

  ghost predicate Inv(s: State) {
    && |s.slots| <= s.cap
    && (forall id | id in s.calls :: CallInv(s.calls[id]))
    && (forall id :: id in s.slots <==> id in s.calls && HoldsSlot(s.calls[id]))
  }

  lemma AdvanceKeepsInv(c: Call, ok: bool)
    requires CallInv(c) && InBody(c.phase)
    ensures CallInv(AdvanceCall(c, ok)) && HoldsSlot(AdvanceCall(c, ok))
  {
  }

  // The clean-up that is due next is the one of the object made last.
  lemma NextCleanup(c: Call, ok: bool)
    requires CallInv(c) && c.defers != []
    ensures c.defers[|c.defers| - 1]
         == if Pending(c.job) then DeleteJob else if Pending(c.policy) then DeletePolicy
            else if Pending(c.configMap) then DeleteConfigMap else ReleaseSlot
    ensures UnwindCall(c, ok).defers == Owed(UnwindCall(c, ok))
  {
    var last := c.defers[|c.defers| - 1];
    if Pending(c.job) {
      assert last == DeleteJob;
    } else if Pending(c.policy) {
      assert last == DeletePolicy;
    } else if Pending(c.configMap) {
      assert last == DeleteConfigMap;
    } else {
      assert last == ReleaseSlot;
    }
  }

  lemma UnwindKeepsInv(c: Call, ok: bool)
    requires CallInv(c) && c.phase == Unwinding && c.defers != []
    ensures CallInv(UnwindCall(c, ok))
    ensures HoldsSlot(UnwindCall(c, ok)) <==> HoldsSlot(c) && c.defers[|c.defers| - 1] != ReleaseSlot
  {
    NextCleanup(c, ok);
    assert c.defers[|c.defers| - 1] == ReleaseSlot ==> HoldsSlot(c);
    hide Owed;
  }

  lemma NextKeepsInv(s: State, step: Step)
    requires Enabled(s, step) && (step.id in s.calls ==> CallInv(s.calls[step.id]))
    ensures CallInv(Next(s, step))
  {
    match step
    case Advance(id, ok) => AdvanceKeepsInv(s.calls[id], ok);
    case Unwind(id, ok) => UnwindKeepsInv(s.calls[id], ok);
    case _ =>
  }

  lemma UnwindFreesSlot(s: State, id: RunId, ok: bool)
    requires Inv(s) && Enabled(s, Unwind(id, ok))
    ensures id in Slots(s, Unwind(id, ok)) <==> HoldsSlot(Next(s, Unwind(id, ok)))
    ensures |Slots(s, Unwind(id, ok))| <= s.cap
  {
    assert CallInv(s.calls[id]);
    UnwindKeepsInv(s.calls[id], ok);
    hide CallInv;
    SubsetSize(Slots(s, Unwind(id, ok)), s.slots);
  }

  lemma SlotsFollow(s: State, step: Step)
    requires Inv(s) && Enabled(s, step)
    ensures step.id in Slots(s, step) <==> HoldsSlot(Next(s, step))
    ensures forall id | id != step.id :: id in Slots(s, step) <==> id in s.slots
    ensures |Slots(s, step)| <= s.cap
  {
    if step.Unwind? {
      UnwindFreesSlot(s, step.id, step.ok);
    } else if step.Advance? {
      assert CallInv(s.calls[step.id]);
      AdvanceKeepsInv(s.calls[step.id], step.ok);
      hide AdvanceCall;
    } else if step.Acquire? {
      assert CallInv(s.calls[step.id]);
      hide Owed;
    }
  }

  lemma StepKeepsInv(s: State, step: Step)
    requires Inv(s) && Enabled(s, step)
    ensures Inv(Apply(s, step))
  {
    hide CallInv, Next, Slots;
    NextKeepsInv(s, step);
    SlotsFollow(s, step);
  }

  lemma {:induction false} InvHolds(maxConcurrent: int, steps: seq<Step>)
    requires Run(maxConcurrent, steps)
    ensures Inv(After(maxConcurrent, steps))
    ensures After(maxConcurrent, steps).cap == Init(maxConcurrent).cap
  {
    if steps != [] {
      InvHolds(maxConcurrent, steps[..|steps| - 1]);
      StepKeepsInv(After(maxConcurrent, steps[..|steps| - 1]), steps[|steps| - 1]);
    }
  }

  // ------------------------------------------------------------ the results

  function LiveJobs(s: State): set<RunId> {
    set id | id in s.calls && s.calls[id].job.present
  }

  // Jobs that are still there although their deletion was asked for: refused, or not carried out yet.
  function LingeringJobs(s: State): set<RunId> {
    set id | id in s.calls && s.calls[id].job.present && s.calls[id].job.deletionAsked
  }

  lemma UnaskedJobHoldsSlot(c: Call)
    requires CallInv(c) && c.job.present && !c.job.deletionAsked
    ensures HoldsSlot(c)
  {
  }

  /**
   The Jobs nobody has asked to delete never outnumber the slots; so live Jobs exceed the limit
   only by Jobs that linger after the request, and without such a Job they never do.
   */
  lemma JobsStayWithinLimit(maxConcurrent: int, steps: seq<Step>, s: State)
    requires Run(maxConcurrent, steps) && s == After(maxConcurrent, steps)
    ensures |LiveJobs(s) - LingeringJobs(s)| <= |s.slots| <= s.cap == Init(maxConcurrent).cap
    ensures |LiveJobs(s)| <= s.cap + |LingeringJobs(s)|
    ensures LingeringJobs(s) == {} ==> |LiveJobs(s)| <= s.cap
    ensures LingeringJobs(s) == {} && maxConcurrent >= 1 ==> |LiveJobs(s)| <= maxConcurrent
    ensures LingeringJobs(s) == {} && maxConcurrent <= 0 ==> |LiveJobs(s)| <= 1
  {
    InvHolds(maxConcurrent, steps);
    forall id | id in LiveJobs(s) - LingeringJobs(s)
      ensures id in s.slots
    {
      UnaskedJobHoldsSlot(s.calls[id]);
    }
    hide CallInv, Run, After;
    SubsetSize(LiveJobs(s) - LingeringJobs(s), s.slots);
    assert LiveJobs(s) == (LiveJobs(s) - LingeringJobs(s)) + LingeringJobs(s);
  }

  /** A call that took a slot has given back exactly one when it returns, and it never holds two. */
  lemma EverySlotIsFreedOnce(maxConcurrent: int, steps: seq<Step>, s: State, id: RunId)
    requires Run(maxConcurrent, steps) && s == After(maxConcurrent, steps) && id in s.calls
    ensures s.calls[id].freed <= s.calls[id].taken <= 1
    ensures s.calls[id].phase == Returned ==> s.calls[id].freed == s.calls[id].taken && id !in s.slots
    ensures id in s.slots <==> s.calls[id].taken > s.calls[id].freed
  {
    InvHolds(maxConcurrent, steps);
    assert CallInv(s.calls[id]);
  }

  /** Before a call returns, the deletion of every object it made has been requested. */
  lemma EverythingIsAskedAway(maxConcurrent: int, steps: seq<Step>, s: State, id: RunId)
    requires Run(maxConcurrent, steps) && s == After(maxConcurrent, steps) && id in s.calls
    requires s.calls[id].phase == Returned
    ensures var c := s.calls[id]; Settled(c.configMap) && Settled(c.policy) && Settled(c.job)
  {
    InvHolds(maxConcurrent, steps);
    assert CallInv(s.calls[id]);
  }

  /**
   In target-only mode the policy is made before the Job, is there as long as nobody asked to delete
   the Job, and its own deletion is asked for only after the Job's.
   */
  lemma PolicyRequestsBracketTheJobs(maxConcurrent: int, steps: seq<Step>, s: State, id: RunId)
    requires Run(maxConcurrent, steps) && s == After(maxConcurrent, steps) && id in s.calls
    requires s.calls[id].spec.script !in {Subfinder, DnsxBrute, Gau}
    ensures var c := s.calls[id];
      && (c.job.created ==> c.policy.created)
      && (Pending(c.job) ==> c.policy.present && !c.policy.deletionAsked)
      && (c.policy.deletionAsked ==> Settled(c.job))
  {
    InvHolds(maxConcurrent, steps);
    assert CallInv(s.calls[id]);
  }

  /** A call with both a crawl-derived wordlist and a URL list never gets as far as a Job. */
  lemma TwoConfigMapsNeverRun(maxConcurrent: int, steps: seq<Step>, s: State, id: RunId)
    requires Run(maxConcurrent, steps) && s == After(maxConcurrent, steps) && id in s.calls
    requires s.calls[id].spec.wordlist == CrawlDerived && s.calls[id].spec.hasUrls
    ensures !s.calls[id].job.created
  {
    InvHolds(maxConcurrent, steps);
    assert CallInv(s.calls[id]);
  }

  // ------------------------------------------------------------ which calls get a Job

  predicate Runnable(spec: Spec) {
    HasScriptFile(spec.script) && spec.wordlist != Static(false) && !TwoConfigMaps(spec)
  }

  // Every API call that the call makes on its way succeeds.
  predicate Succeeds(steps: seq<Step>, id: RunId) {
    forall step | step in steps :: step.Advance? && step.id == id ==> step.ok
  }

  predicate SuccessInv(c: Call) {
    match c.phase
    case AtSemaphore => true
    case AtWordlist => true
    case AtUrls =>
      && HasScriptFile(c.spec.script) && c.spec.wordlist != Static(false)
      && (c.spec.wordlist != CrawlDerived ==> c.configMap == NEVER)
    case AtPolicy => Runnable(c.spec)
    case AtJob => Runnable(c.spec)
    case Polling => Runnable(c.spec)
    case Unwinding => c.job.created <==> Runnable(c.spec)
    case Returned => c.taken == 1 ==> (c.job.created <==> Runnable(c.spec))
  }

  lemma AdvanceSucceeds(c: Call)
    requires CallInv(c) && SuccessInv(c) && InBody(c.phase)
    ensures SuccessInv(AdvanceCall(c, true))
  {
    hide HasScriptFile, KubernetesMode, Owed;
  }

  lemma OthersSucceed(c: Call, ok: bool)
    requires SuccessInv(c) && c.phase == Unwinding
    ensures SuccessInv(c.(phase := Returned))
    ensures c.defers != [] ==> SuccessInv(UnwindCall(c, ok))
  {
    hide Runnable;
  }

  lemma StepSucceeds(s: State, step: Step)
    requires Enabled(s, step) && (step.Advance? ==> step.ok)
    requires step.id in s.calls ==> CallInv(s.calls[step.id]) && SuccessInv(s.calls[step.id])
    ensures SuccessInv(Next(s, step))
  {
    hide AdvanceCall, UnwindCall, Runnable;
    match step
    case Advance(id, _) => AdvanceSucceeds(s.calls[id]);
    case Unwind(id, ok) => OthersSucceed(s.calls[id], ok);
    case Finish(id) => OthersSucceed(s.calls[id], true);
    case _ =>
  }

  lemma {:induction false} SuccessHolds(maxConcurrent: int, steps: seq<Step>, id: RunId)
    requires Run(maxConcurrent, steps) && Succeeds(steps, id) && id in After(maxConcurrent, steps).calls
    ensures SuccessInv(After(maxConcurrent, steps).calls[id])
  {
    if steps != [] {
      var front, step := steps[..|steps| - 1], steps[|steps| - 1];
      assert step in steps && forall x | x in front :: x in steps;
      var s := After(maxConcurrent, front);
      hide SuccessInv, CallInv, Next, Enabled;
      if id in s.calls {
        SuccessHolds(maxConcurrent, front, id);
        InvHolds(maxConcurrent, front);
      }
      if step.id == id {
        StepSucceeds(s, step);
      }
    }
  }

  /**
   In every interleaving a call that has taken a slot and whose API calls all succeed gets its Job
   exactly when its script has a file, its wordlist is known, and it does not need two ConfigMaps
   of one name. So every call within the contract of RunSpec runs.
   */
  lemma GetsItsJobExactlyWhen(maxConcurrent: int, steps: seq<Step>, s: State, id: RunId)
    requires Run(maxConcurrent, steps) && s == After(maxConcurrent, steps) && id in s.calls
    requires Succeeds(steps, id) && s.calls[id].taken == 1 && s.calls[id].phase in {Polling, Unwinding, Returned}
    ensures var spec := s.calls[id].spec;
      s.calls[id].job.created <==>
        !spec.script.Unknown? && spec.wordlist != Static(false) && !(spec.wordlist == CrawlDerived && spec.hasUrls)
  {
    SuccessHolds(maxConcurrent, steps, id);
    InvHolds(maxConcurrent, steps);
    assert CallInv(s.calls[id]);
  }

  // ------------------------------------------------------------ what a Job comes with

  predicate ConfigMapAsNeeded(c: Call) {
    c.configMap.created <==> c.spec.wordlist == CrawlDerived || c.spec.hasUrls
  }

  predicate PolicyAsNeeded(c: Call) {
    c.policy.created <==> c.spec.script !in {Subfinder, DnsxBrute, Gau}
  }

  predicate NeedsInv(c: Call) {
    match c.phase
    case AtSemaphore => true
    case AtWordlist => true
    case AtUrls => c.configMap.created <==> c.spec.wordlist == CrawlDerived
    case AtPolicy => ConfigMapAsNeeded(c)
    case AtJob => ConfigMapAsNeeded(c) && PolicyAsNeeded(c)
    case Polling => ConfigMapAsNeeded(c) && PolicyAsNeeded(c)
    case _ => c.job.created ==> ConfigMapAsNeeded(c) && PolicyAsNeeded(c)
  }

  lemma AdvanceMeetsNeeds(c: Call, ok: bool)
    requires CallInv(c) && NeedsInv(c) && InBody(c.phase)
    ensures NeedsInv(AdvanceCall(c, ok))
  {
    hide HasScriptFile, Owed;
  }

  lemma UnwindMeetsNeeds(c: Call, ok: bool)
    requires NeedsInv(c) && c.phase == Unwinding
    ensures NeedsInv(c.(phase := Returned))
    ensures c.defers != [] ==> NeedsInv(UnwindCall(c, ok))
  {
  }

  lemma NextMeetsNeeds(s: State, step: Step)
    requires Enabled(s, step)
    requires step.id in s.calls ==> CallInv(s.calls[step.id]) && NeedsInv(s.calls[step.id])
    ensures NeedsInv(Next(s, step))
  {
    hide AdvanceCall, UnwindCall, ConfigMapAsNeeded, PolicyAsNeeded, Owed;
    match step
    case Advance(id, ok) => AdvanceMeetsNeeds(s.calls[id], ok);
    case Unwind(id, ok) => UnwindMeetsNeeds(s.calls[id], ok);
    case Finish(id) => UnwindMeetsNeeds(s.calls[id], true);
    case Vanish(id) => VanishMeetsNeeds(s.calls[id]);
    case _ =>
  }

  lemma VanishMeetsNeeds(c: Call)
    requires CallInv(c) && NeedsInv(c) && c.job.going
    ensures NeedsInv(c.(job := c.job.(present := false)))
  {
  }

  lemma {:induction false} NeedsHold(maxConcurrent: int, steps: seq<Step>, id: RunId)
    requires Run(maxConcurrent, steps) && id in After(maxConcurrent, steps).calls
    ensures NeedsInv(After(maxConcurrent, steps).calls[id])
  {
    if steps != [] {
      var front, step := steps[..|steps| - 1], steps[|steps| - 1];
      var s := After(maxConcurrent, front);
      hide NeedsInv, CallInv, Next, Enabled;
      if id in s.calls {
        NeedsHold(maxConcurrent, front, id);
        InvHolds(maxConcurrent, front);
      }
      if step.id == id {
        NextMeetsNeeds(s, step);
      }
    }
  }

  /**
   In every run, whatever fails: a Job is created only after everything it needs, which is a
   ConfigMap exactly for a crawl-derived wordlist or a URL list, and a policy exactly for a script
   that talks to the target only.
   */
  lemma JobComesWithWhatItNeeds(maxConcurrent: int, steps: seq<Step>, s: State, id: RunId)
    requires Run(maxConcurrent, steps) && s == After(maxConcurrent, steps) && id in s.calls && s.calls[id].job.created
    ensures var c := s.calls[id];
      && (c.configMap.created <==> c.spec.wordlist == CrawlDerived || c.spec.hasUrls)
      && (c.policy.created <==> c.spec.script !in {Subfinder, DnsxBrute, Gau})
  {
    NeedsHold(maxConcurrent, steps, id);
    InvHolds(maxConcurrent, steps);
    assert CallInv(s.calls[id]);
  }

  // Every request of the call to delete something is accepted, or every one refused.
  predicate DeletesAre(steps: seq<Step>, id: RunId, accepted: bool) {
    forall step | step in steps :: step.Unwind? && step.id == id ==> step.ok == accepted
  }

  predicate DeletedInv(c: Call, accepted: bool) {
    && (if accepted then c.configMap.deletionAsked ==> !c.configMap.present
        else c.configMap.created ==> c.configMap.present)
    && (if accepted then c.policy.deletionAsked ==> !c.policy.present else c.policy.created ==> c.policy.present)
    && (if accepted then c.job.deletionAsked ==> c.job.going else !c.job.going && (c.job.created ==> c.job.present))
  }

  lemma AdvanceDeletesNothing(c: Call, ok: bool, accepted: bool)
    requires CallInv(c) && DeletedInv(c, accepted) && InBody(c.phase)
    ensures DeletedInv(AdvanceCall(c, ok), accepted)
  {
    hide Owed, HasScriptFile, KubernetesMode;
  }

  lemma UnwindDeletes(c: Call, accepted: bool)
    requires CallInv(c) && DeletedInv(c, accepted) && c.defers != []
    ensures DeletedInv(UnwindCall(c, accepted), accepted)
  {
    NextCleanup(c, accepted);
    hide Owed, HasScriptFile, KubernetesMode;
  }

  lemma NextDeletes(s: State, step: Step, accepted: bool)
    requires Enabled(s, step) && (step.Unwind? ==> step.ok == accepted)
    requires step.id in s.calls ==> CallInv(s.calls[step.id]) && DeletedInv(s.calls[step.id], accepted)
    ensures DeletedInv(Next(s, step), accepted)
  {
    hide AdvanceCall, UnwindCall, Owed;
    match step
    case Advance(id, ok) => AdvanceDeletesNothing(s.calls[id], ok, accepted);
    case Unwind(id, _) => UnwindDeletes(s.calls[id], accepted);
    case _ =>
  }

  lemma {:induction false} DeletesHold(maxConcurrent: int, steps: seq<Step>, id: RunId, accepted: bool)
    requires Run(maxConcurrent, steps) && id in After(maxConcurrent, steps).calls && DeletesAre(steps, id, accepted)
    ensures DeletedInv(After(maxConcurrent, steps).calls[id], accepted)
  {
    if steps != [] {
      var front, step := steps[..|steps| - 1], steps[|steps| - 1];
      assert step in steps && forall x | x in front :: x in steps;
      var s := After(maxConcurrent, front);
      hide DeletedInv, CallInv, Next, Enabled;
      if id in s.calls {
        DeletesHold(maxConcurrent, front, id, accepted);
        InvHolds(maxConcurrent, front);
      }
      if step.id == id {
        NextDeletes(s, step, accepted);
      }
    }
  }

  /**
   What a call leaves when it returns: with its requests accepted, no ConfigMap and no policy, and a
   Job that is on its way out; with all of them refused, everything it created.
   */
  lemma WhatACallLeaves(maxConcurrent: int, steps: seq<Step>, s: State, id: RunId, accepted: bool)
    requires Run(maxConcurrent, steps) && s == After(maxConcurrent, steps) && id in s.calls
    requires DeletesAre(steps, id, accepted) && s.calls[id].phase == Returned
    ensures var c := s.calls[id];
      if accepted then !c.configMap.present && !c.policy.present && (c.job.present ==> c.job.going)
      else
        && c.configMap.present == c.configMap.created && c.policy.present == c.policy.created
        && c.job.present == c.job.created
  {
    DeletesHold(maxConcurrent, steps, id, accepted);
    InvHolds(maxConcurrent, steps);
    assert CallInv(s.calls[id]);
    hide Owed;
  }

  // ------------------------------------------------------------ Jobs that linger

  const PLAIN := Spec(Subfinder, NoWordlist, false)
  const RUNNING := Call(PLAIN, Polling, [ReleaseSlot, DeleteJob], 1, 0, NEVER, NEVER, MADE)
  // Its deletion was asked for, and accepted or refused.
  function Lingering(accepted: bool): Call {
    Call(PLAIN, Unwinding, [], 1, 1, NEVER, NEVER, Object(true, true, true, accepted))
  }

  lemma Extend(maxConcurrent: int, steps: seq<Step>, step: Step) returns (more: seq<Step>)
    requires Run(maxConcurrent, steps) && Enabled(After(maxConcurrent, steps), step)
    ensures Run(maxConcurrent, more)
    ensures After(maxConcurrent, more) == Apply(After(maxConcurrent, steps), step)
  {
    more := steps + [step];
    assert more[..|steps|] == steps;
  }

  // One more step of one call, the others as in base.
  lemma Move(maxConcurrent: int, steps: seq<Step>, base: map<RunId, Call>, from: Call, step: Step)
    returns (more: seq<Step>)
    requires Run(maxConcurrent, steps) && Enabled(After(maxConcurrent, steps), step)
    requires After(maxConcurrent, steps).calls == base[step.id := from]
    ensures Run(maxConcurrent, more)
    ensures var s := After(maxConcurrent, steps);
            After(maxConcurrent, more) == State(s.cap, Slots(s, step), base[step.id := Next(s, step)])
  {
    hide Run, After, Next, Slots, Enabled;
    more := Extend(maxConcurrent, steps, step);
    assert base[step.id := from][step.id := Next(After(maxConcurrent, steps), step)]
        == base[step.id := Next(After(maxConcurrent, steps), step)];
  }

  lemma JobCanStart(maxConcurrent: int, steps: seq<Step>, id: RunId) returns (more: seq<Step>)
    requires Run(maxConcurrent, steps) && id !in After(maxConcurrent, steps).calls
    requires |After(maxConcurrent, steps).slots| < After(maxConcurrent, steps).cap
    ensures Run(maxConcurrent, more)
    ensures var s := After(maxConcurrent, steps);
            After(maxConcurrent, more) == State(s.cap, s.slots + {id}, s.calls[id := RUNNING])
  {
    hide Run, After;
    var base := After(maxConcurrent, steps).calls;
    var c := Call(PLAIN, AtSemaphore, [], 0, 0, NEVER, NEVER, NEVER);
    more := Extend(maxConcurrent, steps, Begin(id, PLAIN));
    more := Move(maxConcurrent, more, base, c, Acquire(id));
    assert [] + [ReleaseSlot] == [ReleaseSlot] && [ReleaseSlot] + [DeleteJob] == RUNNING.defers;
    c := Call(PLAIN, AtWordlist, [ReleaseSlot], 1, 0, NEVER, NEVER, NEVER);
    more := Move(maxConcurrent, more, base, c, Advance(id, true));
    more := Move(maxConcurrent, more, base, c.(phase := AtUrls), Advance(id, true));
    more := Move(maxConcurrent, more, base, c.(phase := AtPolicy), Advance(id, true));
    more := Move(maxConcurrent, more, base, c.(phase := AtJob), Advance(id, true));
  }

  lemma JobCanLinger(maxConcurrent: int, steps: seq<Step>, base: map<RunId, Call>, id: RunId, accepted: bool)
    returns (more: seq<Step>)
    requires Run(maxConcurrent, steps) && After(maxConcurrent, steps).calls == base[id := RUNNING]
    ensures Run(maxConcurrent, more)
    ensures var s := After(maxConcurrent, steps);
            After(maxConcurrent, more) == State(s.cap, s.slots - {id}, base[id := Lingering(accepted)])
  {
    hide Run, After;
    assert RUNNING.defers[..1] == [ReleaseSlot] && [ReleaseSlot][..0] == [];
    more := Move(maxConcurrent, steps, base, RUNNING, Advance(id, true));
    var c := RUNNING.(phase := Unwinding);
    more := Move(maxConcurrent, more, base, c, Unwind(id, accepted));
    c := c.(defers := [ReleaseSlot], job := Object(true, true, true, accepted));
    more := Move(maxConcurrent, more, base, c, Unwind(id, true));
  }

  // Calls 0 to n - 1 have given back their slots, and each left a live Job.
  ghost predicate AllLinger(s: State, n: nat, accepted: bool) {
    && s.slots == {} && s.cap > 0
    && (forall id | id in s.calls :: id < n && s.calls[id] == Lingering(accepted))
    && |LiveJobs(s)| == n
  }

  /** Whether all delete requests are accepted or all refused, live Jobs have no bound at all, whatever the limit. */
  lemma {:induction false} LingeringIsUnbounded(maxConcurrent: int, n: nat, accepted: bool) returns (steps: seq<Step>)
    ensures Run(maxConcurrent, steps)
    ensures AllLinger(After(maxConcurrent, steps), n, accepted)
  {
    steps := [];
    if n == 0 {
      assert After(maxConcurrent, steps) == Init(maxConcurrent);
    } else {
      steps := LingeringIsUnbounded(maxConcurrent, n - 1, accepted);
      var before := After(maxConcurrent, steps);
      hide Run, After, AllLinger;
      assert before.slots == {} && before.cap > 0 && n - 1 !in before.calls by {
        NoneHoldsSlot(before, n - 1, accepted);
      }
      steps := JobCanStart(maxConcurrent, steps, n - 1);
      steps := JobCanLinger(maxConcurrent, steps, before.calls, n - 1, accepted);
      OneMoreLingers(before, After(maxConcurrent, steps), n - 1, accepted);
    }
  }

  lemma NoneHoldsSlot(s: State, n: nat, accepted: bool)
    requires AllLinger(s, n, accepted)
    ensures s.slots == {} && s.cap > 0 && n !in s.calls
  {
  }

  lemma OneMoreLingers(s: State, t: State, n: nat, accepted: bool)
    requires AllLinger(s, n, accepted)
    requires t == State(s.cap, s.slots + {n} - {n}, s.calls[n := Lingering(accepted)])
    ensures AllLinger(t, n + 1, accepted)
  {
    JobsWithOneMore(s, t, n, Lingering(accepted));
    hide LiveJobs;
  }

  lemma JobsWithOneMore(s: State, t: State, id: RunId, c: Call)
    requires id !in s.calls && t.calls == s.calls[id := c]
    ensures LiveJobs(t) == LiveJobs(s) + if c.job.present then {id} else {}
    ensures LingeringJobs(t) == LingeringJobs(s) + if c.job.present && c.job.deletionAsked then {id} else {}
    ensures id !in LiveJobs(s) && id !in LingeringJobs(s)
  {
  }

  // f Jobs linger, and k more that hold a slot.
  ghost predicate Filled(s: State, maxConcurrent: int, f: nat, k: nat) {
    && s.cap == Init(maxConcurrent).cap && |s.slots| == k && s.slots <= s.calls.Keys
    && (forall id | id in s.calls :: id < f + k)
    && |LiveJobs(s)| == f + k && |LingeringJobs(s)| == f
  }

  lemma OneMoreRunning(s: State, t: State, maxConcurrent: int, f: nat, k: nat)
    requires Filled(s, maxConcurrent, f, k)
    requires t == State(s.cap, s.slots + {f + k}, s.calls[f + k := RUNNING])
    ensures Filled(t, maxConcurrent, f, k + 1)
  {
    assert f + k !in s.calls;
    JobsWithOneMore(s, t, f + k, RUNNING);
    hide LiveJobs, LingeringJobs;
  }

  lemma {:induction false} SlotsCanFill(maxConcurrent: int, f: nat, k: nat, accepted: bool) returns (steps: seq<Step>)
    requires k <= Init(maxConcurrent).cap
    ensures Run(maxConcurrent, steps) && Filled(After(maxConcurrent, steps), maxConcurrent, f, k)
  {
    hide Run, After;
    if k == 0 {
      steps := LingeringIsUnbounded(maxConcurrent, f, accepted);
      InvHolds(maxConcurrent, steps);
      var s := After(maxConcurrent, steps);
      assert LingeringJobs(s) == LiveJobs(s);
    } else {
      steps := SlotsCanFill(maxConcurrent, f, k - 1, accepted);
      var before := After(maxConcurrent, steps);
      hide LiveJobs, LingeringJobs;
      steps := JobCanStart(maxConcurrent, steps, f + k - 1);
      OneMoreRunning(before, After(maxConcurrent, steps), maxConcurrent, f, k - 1);
    }
  }

  /** The limit on live Jobs holds exactly when no Job lingers after the request to delete it: one can exceed it. */
  lemma LimitHoldsExactlyWithoutLingering(maxConcurrent: int, f: nat)
    ensures (forall steps | Run(maxConcurrent, steps) && |LingeringJobs(After(maxConcurrent, steps))| <= f ::
               |LiveJobs(After(maxConcurrent, steps))| <= if maxConcurrent >= 1 then maxConcurrent else 1)
       <==> f == 0
  {
    if f == 0 {
      forall steps | Run(maxConcurrent, steps) && |LingeringJobs(After(maxConcurrent, steps))| <= f
        ensures |LiveJobs(After(maxConcurrent, steps))| <= Init(maxConcurrent).cap
      {
        JobsStayWithinLimit(maxConcurrent, steps, After(maxConcurrent, steps));
      }
    } else {
      var steps := SlotsCanFill(maxConcurrent, f, Init(maxConcurrent).cap, true);
    }
    hide Run, After, LiveJobs, LingeringJobs;
  }

  /** The bound with f lingering Jobs is reached, be it that their deletion was accepted or refused. */
  lemma BoundIsReached(maxConcurrent: int, f: nat, accepted: bool) returns (steps: seq<Step>)
    ensures Run(maxConcurrent, steps)
    ensures |LingeringJobs(After(maxConcurrent, steps))| == f
    ensures |LiveJobs(After(maxConcurrent, steps))| == (if maxConcurrent >= 1 then maxConcurrent else 1) + f
  {
    steps := SlotsCanFill(maxConcurrent, f, Init(maxConcurrent).cap, accepted);
  }

  // ------------------------------------------------------------ a Job that outlives its policy

  const GUARDED := Spec(Naabu, NoWordlist, false)

  // A target-only call whose requests all succeeded, with its slot freed and its Job still there.
  const OUTLIVED := Call(
    GUARDED, Returned, [], 1, 1, NEVER, Object(true, false, true, false), Object(true, true, true, true))

  lemma GuardedCallCanTakeSlot(maxConcurrent: int) returns (steps: seq<Step>)
    ensures Run(maxConcurrent, steps)
    ensures After(maxConcurrent, steps) == State(Init(maxConcurrent).cap, {0}, map[
      0 := Call(GUARDED, AtWordlist, [ReleaseSlot], 1, 0, NEVER, NEVER, NEVER)])
  {
    var none: seq<Step> := [];
    assert Run(maxConcurrent, none) && After(maxConcurrent, none) == Init(maxConcurrent);
    hide Run, After;
    steps := Extend(maxConcurrent, none, Begin(0, GUARDED));
    steps := Move(maxConcurrent, steps, map[], Call(GUARDED, AtSemaphore, [], 0, 0, NEVER, NEVER, NEVER), Acquire(0));
    assert [] + [ReleaseSlot] == [ReleaseSlot] && {} + {0} == {0};
  }

  lemma GuardedJobCanStart(maxConcurrent: int) returns (steps: seq<Step>)
    ensures Run(maxConcurrent, steps)
    ensures After(maxConcurrent, steps) == State(Init(maxConcurrent).cap, {0}, map[
      0 := Call(GUARDED, Polling, [ReleaseSlot, DeletePolicy, DeleteJob], 1, 0, NEVER, MADE, MADE)])
  {
    hide Run, After;
    assert [ReleaseSlot] + [DeletePolicy] == [ReleaseSlot, DeletePolicy]
      && [ReleaseSlot, DeletePolicy] + [DeleteJob] == [ReleaseSlot, DeletePolicy, DeleteJob];
    steps := GuardedCallCanTakeSlot(maxConcurrent);
    var base: map<RunId, Call> := map[];
    var c := Call(GUARDED, AtWordlist, [ReleaseSlot], 1, 0, NEVER, NEVER, NEVER);
    steps := Move(maxConcurrent, steps, base, c, Advance(0, true));
    steps := Move(maxConcurrent, steps, base, c.(phase := AtUrls), Advance(0, true));
    steps := Move(maxConcurrent, steps, base, c.(phase := AtPolicy), Advance(0, true));
    c := c.(phase := AtJob, defers := [ReleaseSlot, DeletePolicy], policy := MADE);
    steps := Move(maxConcurrent, steps, base, c, Advance(0, true));
  }

  /** With every request accepted, a target-only Job can still be there when its policy and its slot are gone. */
  lemma JobCanOutliveItsPolicy(maxConcurrent: int) returns (steps: seq<Step>)
    ensures Run(maxConcurrent, steps)
    ensures After(maxConcurrent, steps) == State(Init(maxConcurrent).cap, {}, map[0 := OUTLIVED])
  {
    steps := GuardedJobCanStart(maxConcurrent);
    hide Run, After;
    var base: map<RunId, Call> := map[];
    var defers := [ReleaseSlot, DeletePolicy, DeleteJob];
    assert defers[..2] == [ReleaseSlot, DeletePolicy] && [ReleaseSlot, DeletePolicy][..1] == [ReleaseSlot];
    assert [ReleaseSlot][..0] == [] && {0} - {0} == {};
    var c := Call(GUARDED, Polling, defers, 1, 0, NEVER, MADE, MADE);
    steps := Move(maxConcurrent, steps, base, c, Advance(0, true));
    c := c.(phase := Unwinding);
    steps := Move(maxConcurrent, steps, base, c, Unwind(0, true));
    c := c.(defers := [ReleaseSlot, DeletePolicy], job := Object(true, true, true, true));
    steps := Move(maxConcurrent, steps, base, c, Unwind(0, true));
    c := c.(defers := [ReleaseSlot], policy := Object(true, false, true, false));
    steps := Move(maxConcurrent, steps, base, c, Unwind(0, true));
    c := c.(defers := [], freed := 1);
    steps := Move(maxConcurrent, steps, base, c, Finish(0));
  }
}
