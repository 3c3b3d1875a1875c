/**
 The single-flight refresh of the access token. Requests interleave only at their awaits; all that
 find their token expired share one refresh promise, and each retries at most once.
 */
module TokenRefresh {
  import opened Wrappers

  type Token = string

  // A POST /auth/refresh: under way, waiting for its own promise, or answered.
  datatype Refresh = Flying | Stuck | Resolved(token: Option<Token>)

  datatype Phase =
    | Fetching(isRetry: bool)
    | Awaiting(refresh: nat)
    | Done

  // An apiClient request, or the silent refresh at startup; got is what its awaited refresh returned.
  datatype Caller = Caller(
    phase: Phase, isRequest: bool, fetches: nat, awaited: Option<nat>, got: Option<Option<Token>>)

  datatype State = State(
    promise: Option<nat>, refreshes: seq<Refresh>, token: Option<Token>, callers: map<nat, Caller>)

  datatype Answer = Success | Problem | Expired

  datatype RefreshAnswer = Granted(token: Token) | Denied | RefreshExpired

  datatype Step =
    | Request(id: nat)
    | Bootstrap(id: nat)
    | Respond(id: nat, answer: Answer)          // the server answers a fetch
    | RespondRefresh(refreshAnswer: RefreshAnswer)
    | Wake(id: nat)                             // a caller resumes once its promise is resolved
    | SetToken(token: Option<Token>)            // login, logout, switching organisation

  const FRESH := State(None, [], None, map[])

  predicate Enabled(s: State, step: Step) {
    match step
    case Request(id) => id !in s.callers
    case Bootstrap(id) => id !in s.callers
    case Respond(id, _) => id in s.callers && s.callers[id].phase.Fetching?
    case RespondRefresh(_) =>
      s.promise.Some? && s.promise.value < |s.refreshes| && s.refreshes[s.promise.value] == Flying
    case Wake(id) =>
      && id in s.callers && s.callers[id].phase.Awaiting?
      && s.callers[id].phase.refresh < |s.refreshes| && s.refreshes[s.callers[id].phase.refresh].Resolved?
    case SetToken(_) => true
  }

  // refreshAccessToken: the promise in flight, or a new one; the caller then awaits it.
  function AwaitRefresh(s: State, id: nat, c: Caller): State {
    match s.promise
    case Some(p) => s.(callers := s.callers[id := c.(phase := Awaiting(p), awaited := Some(p))])
    case None =>
      var p := |s.refreshes|;
      s.(promise := Some(p), refreshes := s.refreshes + [Flying],
         callers := s.callers[id := c.(phase := Awaiting(p), awaited := Some(p))])
  }

  function Apply(s: State, step: Step): State
    requires Enabled(s, step)
  {
    match step
    case Request(id) => s.(callers := s.callers[id := Caller(Fetching(false), true, 1, None, None)])
    case Bootstrap(id) => AwaitRefresh(s, id, Caller(Done, false, 0, None, None))
    case Respond(id, answer) =>
      var c := s.callers[id];
      if answer == Expired && !c.phase.isRetry then AwaitRefresh(s, id, c)
      else s.(callers := s.callers[id := c.(phase := Done)])
    case RespondRefresh(answer) =>
      var p := s.promise.value;
      (match answer
       case Granted(t) => s.(promise := None, refreshes := s.refreshes[p := Resolved(Some(t))], token := Some(t))
       case Denied => s.(promise := None, refreshes := s.refreshes[p := Resolved(None)], token := None)
       // The refresh is itself a first try, so it asks for a refresh: the promise it would resolve.
       case RefreshExpired => s.(refreshes := s.refreshes[p := Stuck]))
    case Wake(id) =>
      var c := s.callers[id];
      var result := s.refreshes[c.phase.refresh].token;
      s.(callers := s.callers[id :=
        if c.isRequest && result.Some?
        then c.(phase := Fetching(true), fetches := c.fetches + 1, got := Some(result))
        else c.(phase := Done, got := Some(result))])
    case SetToken(t) => s.(token := t)
  }

  predicate RunFrom(s: State, steps: seq<Step>)
    decreases |steps|, 0
  {
    steps == []
    || (RunFrom(s, steps[..|steps| - 1]) && Enabled(Exec(s, steps[..|steps| - 1]), steps[|steps| - 1]))
  }

  function Exec(s: State, steps: seq<Step>): State
    requires RunFrom(s, steps)
    decreases |steps|, 1
  {
    if steps == [] then s else Apply(Exec(s, steps[..|steps| - 1]), steps[|steps| - 1])
  }

  // The runs from the loading of the page.
  predicate Run(steps: seq<Step>) {
    RunFrom(FRESH, steps)
  }

  function After(steps: seq<Step>): State
    requires Run(steps)
  {
    Exec(FRESH, steps)
  }

  // ------------------------------------------------------------ what every step keeps

  predicate InFlight(s: State, p: nat) {
    p < |s.refreshes| && !s.refreshes[p].Resolved?
  }

  predicate CallerInv(s: State, c: Caller) {
    && (match c.phase
        case Fetching(isRetry) => c.isRequest && c.fetches == (if isRetry then 2 else 1) && (c.got.Some? <==> isRetry)
        case Awaiting(p) =>
          p < |s.refreshes| && c.awaited == Some(p) && c.got.None? && c.fetches == (if c.isRequest then 1 else 0)
        case Done => c.fetches <= 2)
    && (c.got.Some? ==>
          && c.awaited.Some? && c.awaited.value < |s.refreshes|
          && s.refreshes[c.awaited.value] == Resolved(c.got.value))
    && (c.fetches == 2 ==> c.got.Some? && c.got.value.Some?)
  }

  predicate Inv(s: State) {
    && (forall p: nat | p < |s.refreshes| :: InFlight(s, p) <==> s.promise == Some(p))
    && (s.promise.Some? ==> s.promise.value < |s.refreshes|)
    && (forall id | id in s.callers :: CallerInv(s, s.callers[id]))
  }

  // A caller that a step leaves alone stays consistent: refreshes are added, and settle once.
  lemma CallerSurvives(s: State, step: Step, c: Caller)
    requires Inv(s) && Enabled(s, step) && CallerInv(s, c)
    ensures CallerInv(Apply(s, step), c)
  {
  }

  lemma StepKeepsInv(s: State, step: Step)
    requires Inv(s) && Enabled(s, step)
    ensures Inv(Apply(s, step))
  {
    var t := Apply(s, step);
    forall id | id in t.callers
      ensures CallerInv(t, t.callers[id])
    {
      if id in s.callers {
        CallerSurvives(s, step, s.callers[id]);
      }
    }
  }

  lemma {:induction false} InvHolds(steps: seq<Step>)
    requires Run(steps)
    ensures Inv(After(steps))
  {
    if steps != [] {
      InvHolds(steps[..|steps| - 1]);
      StepKeepsInv(After(steps[..|steps| - 1]), steps[|steps| - 1]);
    }
  }

  // ------------------------------------------------------------ the results

  /** The promise is set exactly while a refresh is in flight, and never are two of them. */
  lemma SingleFlight(steps: seq<Step>, s: State)
    requires Run(steps) && s == After(steps)
    ensures s.promise.Some? <==> exists p: nat :: InFlight(s, p)
    ensures forall p: nat, q: nat | InFlight(s, p) && InFlight(s, q) :: p == q
  {
    InvHolds(steps);
    if s.promise.Some? {
      assert InFlight(s, s.promise.value);
    }
  }

  /** Every caller that waited got the result of the refresh it waited for, so all its waiters got the same. */
  lemma WaitersShareTheResult(steps: seq<Step>, s: State, a: nat, b: nat)
    requires Run(steps) && s == After(steps) && a in s.callers && b in s.callers
    requires s.callers[a].got.Some? && s.callers[b].got.Some? && s.callers[a].awaited == s.callers[b].awaited
    ensures s.callers[a].got == s.callers[b].got
    ensures s.callers[a].awaited.Some? && s.callers[a].awaited.value < |s.refreshes|
      && s.refreshes[s.callers[a].awaited.value] == Resolved(s.callers[a].got.value)
  {
    InvHolds(steps);
    assert CallerInv(s, s.callers[a]) && CallerInv(s, s.callers[b]);
  }

  /** No request fetches more than twice, and the second time only after a refresh that gave a token. */
  lemma AtMostOneRetry(steps: seq<Step>, s: State, id: nat)
    requires Run(steps) && s == After(steps) && id in s.callers
    ensures s.callers[id].fetches <= 2
    ensures s.callers[id].fetches == 2 ==> s.callers[id].got.Some? && s.callers[id].got.value.Some?
  {
    InvHolds(steps);
    assert CallerInv(s, s.callers[id]);
  }

  // ------------------------------------------------------------ the token that requests send

  // The result of the latest refresh that was answered.
  function LastResult(refreshes: seq<Refresh>): Option<Token> {
    if refreshes == [] then None
    else if refreshes[|refreshes| - 1].Resolved? then refreshes[|refreshes| - 1].token
    else LastResult(refreshes[..|refreshes| - 1])
  }

  lemma LastResultOf(before: seq<Refresh>, r: Refresh)
    ensures LastResult(before + [r]) == if r.Resolved? then r.token else LastResult(before)
  {
    assert (before + [r])[..|before|] == before;
  }

  lemma LastReplaced(refreshes: seq<Refresh>, r: Refresh)
    requires refreshes != [] && !refreshes[|refreshes| - 1].Resolved?
    ensures LastResult(refreshes[|refreshes| - 1 := r]) == if r.Resolved? then r.token else LastResult(refreshes)
  {
    assert refreshes[|refreshes| - 1 := r][..|refreshes| - 1] == refreshes[..|refreshes| - 1];
  }

  predicate TokenInv(s: State) {
    && s.token == LastResult(s.refreshes)
    && (s.promise.Some? ==> s.promise.value == |s.refreshes| - 1 && !s.refreshes[|s.refreshes| - 1].Resolved?)
  }

  lemma AwaitKeepsToken(s: State, id: nat, c: Caller)
    requires TokenInv(s)
    ensures TokenInv(AwaitRefresh(s, id, c))
  {
    LastResultOf(s.refreshes, Flying);
    hide LastResult;
  }

  lemma AnswerKeepsToken(s: State, answer: RefreshAnswer)
    requires TokenInv(s) && Enabled(s, RespondRefresh(answer))
    ensures TokenInv(Apply(s, RespondRefresh(answer)))
  {
    var r := match answer
      case Granted(t) => Resolved(Some(t))
      case Denied => Resolved(None)
      case RefreshExpired => Stuck;
    LastReplaced(s.refreshes, r);
    hide LastResult;
  }

  lemma StepKeepsToken(s: State, step: Step)
    requires TokenInv(s) && Enabled(s, step) && !step.SetToken?
    ensures TokenInv(Apply(s, step))
  {
    hide LastResult, AwaitRefresh;
    match step
    case Bootstrap(id) => AwaitKeepsToken(s, id, Caller(Done, false, 0, None, None));
    case Respond(id, _) => AwaitKeepsToken(s, id, s.callers[id]);
    case RespondRefresh(answer) => AnswerKeepsToken(s, answer);
    case _ =>
  }

  /** As long as nothing else sets the token, it is what the latest answered refresh gave, or none if that failed. */
  lemma {:induction false} TokenIsTheLastRefresh(steps: seq<Step>)
    requires Run(steps) && forall step | step in steps :: !step.SetToken?
    ensures After(steps).token == LastResult(After(steps).refreshes)
    ensures TokenInv(After(steps))
  {
    if steps != [] {
      var front, step := steps[..|steps| - 1], steps[|steps| - 1];
      assert step in steps && forall x | x in front :: x in steps;
      TokenIsTheLastRefresh(front);
      StepKeepsToken(After(front), step);
    }
  }

  // ------------------------------------------------------------ a refresh that is itself answered token-expired

  predicate IsStuck(s: State) {
    s.promise.Some? && s.promise.value < |s.refreshes| && s.refreshes[s.promise.value] == Stuck
  }

  /**
   Then the promise waits for itself: in no continuation is it ever cleared, is another refresh
   sent, or does a caller that awaits it resume.
   */
  lemma {:induction false} StuckForever(s: State, more: seq<Step>)
    requires IsStuck(s) && RunFrom(s, more)
    ensures var t := Exec(s, more);
      && t.promise == s.promise && t.refreshes == s.refreshes
      && forall id | id in s.callers && s.callers[id].phase == Awaiting(s.promise.value) ::
           id in t.callers && t.callers[id].phase == Awaiting(s.promise.value)
  {
    if more != [] {
      StuckForever(s, more[..|more| - 1]);
    }
  }

  lemma Extend(steps: seq<Step>, step: Step)
    requires Run(steps) && Enabled(After(steps), step)
    ensures Run(steps + [step]) && After(steps + [step]) == Apply(After(steps), step)
  {
    assert (steps + [step])[..|steps|] == steps;
  }

  /** It can happen to every refresh in flight, the first one of the page included. */
  lemma AnyRefreshCanGetStuck(steps: seq<Step>, s: State)
    requires Run(steps) && s == After(steps) && s.promise.Some? && !IsStuck(s)
    ensures Run(steps + [RespondRefresh(RefreshExpired)]) && IsStuck(After(steps + [RespondRefresh(RefreshExpired)]))
  {
    InvHolds(steps);
    assert InFlight(s, s.promise.value);
    Extend(steps, RespondRefresh(RefreshExpired));
  }

  lemma FirstRefreshCanGetStuck()
    ensures Run([Bootstrap(0), RespondRefresh(RefreshExpired)])
    ensures IsStuck(After([Bootstrap(0), RespondRefresh(RefreshExpired)]))
  {
    Extend([], Bootstrap(0));
    assert [] + [Bootstrap(0)] == [Bootstrap(0)];
    AnyRefreshCanGetStuck([Bootstrap(0)], After([Bootstrap(0)]));
    assert [Bootstrap(0)] + [RespondRefresh(RefreshExpired)] == [Bootstrap(0), RespondRefresh(RefreshExpired)];
  }

  /** While a refresh is in flight its promise can be resolved exactly if it was not answered that way. */
  lemma ResolvableExactlyWhenNotStuck(steps: seq<Step>, s: State)
    requires Run(steps) && s == After(steps) && s.promise.Some?
    ensures s.promise.value < |s.refreshes|
    ensures !IsStuck(s) <==> exists step :: Enabled(s, step) && Apply(s, step).promise.None?
  {
    InvHolds(steps);
    if !IsStuck(s) {
      assert InFlight(s, s.promise.value);
      assert Enabled(s, RespondRefresh(Denied)) && Apply(s, RespondRefresh(Denied)).promise.None?;
    }
  }

  // ------------------------------------------------------------ what each answer leads to

  /**
   A first try whose token has expired, with no refresh under way, starts one; granted, the token
   is stored, the promise cleared, and the request sent a second time.
   */
  lemma ExpiredRequestIsRetried(s: State, id: nat, t: Token)
    requires Inv(s) && id in s.callers && s.callers[id].phase == Fetching(false) && s.promise == None
    ensures Enabled(s, Respond(id, Expired))
    ensures var a, p := Apply(s, Respond(id, Expired)), |s.refreshes|;
      && a.promise == Some(p) && a.refreshes == s.refreshes + [Flying] && a.token == s.token
      && a.callers.Keys == s.callers.Keys && a.callers[id].phase == Awaiting(p)
      && Enabled(a, RespondRefresh(Granted(t)))
      && var b := Apply(a, RespondRefresh(Granted(t)));
      && b.promise == None && b.token == Some(t) && id in b.callers && Enabled(b, Wake(id))
      && var c := Apply(b, Wake(id));
      && c.callers[id].phase == Fetching(true) && c.callers[id].fetches == 2
      && c.callers[id].got == Some(Some(t)) && c.token == Some(t)
  {
    assert CallerInv(s, s.callers[id]);
  }

  /** Denied, the refresh clears token and promise, and the request ends with its first problem. */
  lemma DeniedRefreshEndsTheRequest(s: State, id: nat)
    requires Inv(s) && id in s.callers && s.callers[id].phase == Fetching(false) && s.promise == None
    ensures Enabled(s, Respond(id, Expired))
    ensures var a := Apply(s, Respond(id, Expired));
      && Enabled(a, RespondRefresh(Denied))
      && var b := Apply(a, RespondRefresh(Denied));
      && b.promise == None && b.token == None && Enabled(b, Wake(id))
      && Apply(b, Wake(id)).callers[id].phase == Done && Apply(b, Wake(id)).callers[id].fetches == 1
  {
    assert CallerInv(s, s.callers[id]);
  }

  /** The silent refresh at startup waits for one like any request, and then is done without a fetch of its own. */
  lemma BootstrapOnlyRefreshes(s: State, id: nat, t: Token)
    requires Inv(s) && id !in s.callers && s.promise == None
    ensures var a := Apply(s, Bootstrap(id));
      && a.promise == Some(|s.refreshes|) && a.refreshes == s.refreshes + [Flying]
      && Enabled(a, RespondRefresh(Granted(t)))
      && var b := Apply(a, RespondRefresh(Granted(t)));
      && b.promise == None && b.token == Some(t) && Enabled(b, Wake(id))
      && var c := Apply(b, Wake(id)).callers[id];
      && c.phase == Done && c.fetches == 0 && c.got == Some(Some(t))
  {
  }

  /** With a refresh under way, an expired first try waits for that one. */
  lemma ExpiredRequestJoins(s: State, id: nat, p: nat)
    requires Inv(s) && id in s.callers && s.callers[id].phase == Fetching(false) && s.promise == Some(p)
    ensures Enabled(s, Respond(id, Expired))
    ensures var a := Apply(s, Respond(id, Expired));
      a == s.(callers := s.callers[id := s.callers[id].(phase := Awaiting(p), awaited := Some(p))])
  {
  }

  /** Any other answer, and any answer to a retry, ends the request and touches no refresh. */
  lemma OtherAnswersEndTheRequest(s: State, id: nat, answer: Answer)
    requires Inv(s) && id in s.callers && s.callers[id].phase.Fetching?
    requires answer != Expired || s.callers[id].phase == Fetching(true)
    ensures Apply(s, Respond(id, answer)) == s.(callers := s.callers[id := s.callers[id].(phase := Done)])
  {
  }

  // ------------------------------------------------------------ the module as it runs

  class AuthStore {
    var promise: Option<nat>
    var refreshes: seq<Refresh>
    var token: Option<Token>
    var callers: map<nat, Caller>

    function Now(): State
      reads this
    {
      State(promise, refreshes, token, callers)
    }

    constructor ()
      ensures Now() == FRESH
    {
      promise, refreshes, token, callers := None, [], None, map[];
    }

    method RefreshAccessToken() returns (p: nat)
      modifies this`promise, this`refreshes
      ensures promise == Some(p)
      ensures old(promise).Some? ==> promise == old(promise) && refreshes == old(refreshes)
      ensures old(promise).None? ==> p == |old(refreshes)| && refreshes == old(refreshes) + [Flying]
    {
      if promise.Some? {
        return promise.value;
      }
      p := |refreshes|;
      refreshes := refreshes + [Flying];
      promise := Some(p);
    }

    // A request resumes with the server's answer.
    method OnResponse(id: nat, answer: Answer)
      requires Enabled(Now(), Respond(id, answer))
      modifies this
      ensures Now() == Apply(old(Now()), Respond(id, answer))
      ensures token == old(token) && id in callers
      ensures answer == Expired && old(callers)[id].phase == Fetching(false) ==>
        && promise == (if old(promise).Some? then old(promise) else Some(|old(refreshes)|))
        && callers[id].phase == Awaiting(promise.value)
        && refreshes == if old(promise).Some? then old(refreshes) else old(refreshes) + [Flying]
      ensures answer != Expired || old(callers)[id].phase == Fetching(true) ==>
        callers[id].phase == Done && promise == old(promise) && refreshes == old(refreshes)
    {
      var c := callers[id];
      if answer == Expired && !c.phase.isRetry {
        var p := RefreshAccessToken();
        callers := callers[id := c.(phase := Awaiting(p), awaited := Some(p))];
      } else {
        callers := callers[id := c.(phase := Done)];
      }
    }

    // The refresh resumes with its answer; the finally block clears the promise.
    method OnRefreshResponse(answer: RefreshAnswer)
      requires Enabled(Now(), RespondRefresh(answer))
      modifies this
      ensures Now() == Apply(old(Now()), RespondRefresh(answer))
      ensures callers == old(callers) && |refreshes| == |old(refreshes)|
      ensures answer.Granted? ==>
        promise == None && token == Some(answer.token) && refreshes[old(promise).value] == Resolved(token)
      ensures answer == Denied ==> promise == None && token == None && refreshes[old(promise).value] == Resolved(None)
      ensures answer == RefreshExpired ==>
        promise == old(promise) && token == old(token) && refreshes[old(promise).value] == Stuck
    {
      var p := promise.value;
      if answer == RefreshExpired {
        var own := RefreshAccessToken();
        refreshes := refreshes[own := Stuck];
        return;
      }
      token := if answer.Granted? then Some(answer.token) else None;
      refreshes := refreshes[p := Resolved(token)];
      promise := None;
    }
  }
}
