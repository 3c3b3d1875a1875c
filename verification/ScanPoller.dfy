/**
 The poller behind the running-scans indicator. JavaScript switches tasks only at an await, so
 each stretch of a tick up to its await, and from there to its end, is one step; ticks overlap.
 */
module ScanPoller {
  import opened Wrappers

  type ScanId = string
  type OrgId = Option<string>

  // What an access token lets its bearer list: the scans of an organisation, or of one project
  // shared with them out of it. The user record names the organisation in both cases.
  datatype Scope = NoScope | Organisation(id: string) | Project(org: string, id: string)

  // A tick that awaits its listing: the organisation it read from the user record at its start, and
  // the scope of the token its request was sent with.
  datatype Tick = Tick(org: OrgId, scope: Scope)

  // timer: the module's timer variable; armed: the timeouts the browser has pending.
  // org: the user record's organisation; scope: the access token's, set before the user record.
  // announced: for each tick that ended, what it called announceFinished for.
  datatype State = State(
    running: bool, timer: Option<nat>, armed: set<nat>, nextTimer: nat,
    known: Option<set<ScanId>>, knownOrg: OrgId, org: OrgId, scope: Scope,
    ticks: map<nat, Tick>, nextTick: nat, announced: seq<set<ScanId>>)

  datatype Step =
    | Start
    | Stop
    | Refresh
    | Fire(timer: nat)                      // a timeout the browser has pending goes off
    | SetToken(scope: Scope)                // the auth store gets another access token
    | SetUser(org: OrgId)                   // and later, if at all, the user record that goes with it
    | Refetch(tick: nat)                    // a tick's expired token was refreshed, its request sent again
    | Listed(tick: nat, ids: set<ScanId>)   // a tick resumes with its listing
    | Failed(tick: nat)                     // a tick resumes with an error

  const FRESH := State(false, None, {}, 0, None, None, None, NoScope, map[], 0, [])

  predicate Enabled(s: State, step: Step) {
    match step
    case Fire(timer) => timer in s.armed
    case Refetch(tick) => tick in s.ticks
    case Listed(tick, _) => tick in s.ticks
    case Failed(tick) => tick in s.ticks
    case _ => true
  }

  // clearTimeout on a timeout that went off already does nothing.
  function ClearTimer(s: State): State {
    match s.timer
    case None => s
    case Some(t) => s.(armed := s.armed - {t}, timer := None)
  }

  // tick() up to its first await.
  function BeginTick(s0: State): State {
    var s := ClearTimer(s0);
    var t := if s.org != s.knownOrg then s.(known := None, knownOrg := s.org) else s;
    t.(ticks := t.ticks[t.nextTick := Tick(s.org, s.scope)], nextTick := t.nextTick + 1)
  }

  // The finally block: one new timer, if still running.
  function Rearm(s0: State): State {
    if !s0.running then s0
    else
      var s := ClearTimer(s0);
      s.(timer := Some(s.nextTimer), armed := s.armed + {s.nextTimer}, nextTimer := s.nextTimer + 1)
  }

  // What a resuming tick announces: the scans it knew of that its listing lacks.
  function Gone(s: State, org: OrgId, ids: set<ScanId>): set<ScanId> {
    if s.known.Some? && s.knownOrg == org then s.known.value - ids else {}
  }

  function Apply(s: State, step: Step): State
    requires Enabled(s, step)
  {
    match step
    case Start => if s.running then s else BeginTick(s.(running := true))
    case Stop => ClearTimer(s.(running := false)).(known := None, knownOrg := None)
    case Refresh => if s.running then BeginTick(s) else s
    case Fire(timer) => BeginTick(s.(armed := s.armed - {timer}))
    case SetToken(scope) => s.(scope := scope)
    case SetUser(org) => s.(org := org)
    case Refetch(tick) => s.(ticks := s.ticks[tick := s.ticks[tick].(scope := s.scope)])
    case Listed(tick, ids) =>
      var t := s.(ticks := s.ticks - {tick});
      if !s.running then t.(announced := t.announced + [{}])
      else Rearm(t.(announced := t.announced + [Gone(t, s.ticks[tick].org, ids)], known := Some(ids)))
    case Failed(tick) => Rearm(s.(ticks := s.ticks - {tick}, announced := s.announced + [{}]))
  }

  predicate Run(steps: seq<Step>)
    decreases |steps|, 0
  {
    steps == [] || (Run(steps[..|steps| - 1]) && Enabled(After(steps[..|steps| - 1]), steps[|steps| - 1]))
  }

  function After(steps: seq<Step>): State
    requires Run(steps)
    decreases |steps|, 1
  {
    if steps == [] then FRESH else Apply(After(steps[..|steps| - 1]), steps[|steps| - 1])
  }

  // ------------------------------------------------------------ timers, in every interleaving

  predicate TimerInv(s: State) {
    && (forall t | t in s.armed :: s.timer == Some(t) && t < s.nextTimer)
    && (s.timer.Some? ==> s.timer.value < s.nextTimer)
    && (!s.running ==> s.armed == {})
    && (s.running && s.ticks == map[] ==> s.timer.Some? && s.armed == {s.timer.value})
    && (forall k | k in s.ticks :: k < s.nextTick)
  }

  lemma TickIsInFlight(s: State, k: nat, t: Tick)
    ensures s.ticks[k := t] != map[]
  {
    assert k in s.ticks[k := t];
  }

  lemma StepKeepsTimers(s: State, step: Step)
    requires TimerInv(s) && Enabled(s, step)
    ensures TimerInv(Apply(s, step))
  {
    TickIsInFlight(s, s.nextTick, Tick(s.org, s.scope));
    if step.Listed? || step.Failed? || step.Refetch? {
      assert step.tick in s.ticks;
    }
    if step.Refetch? {
      TickIsInFlight(s, step.tick, s.ticks[step.tick].(scope := s.scope));
    }
  }

  lemma {:induction false} TimersHold(steps: seq<Step>)
    requires Run(steps)
    ensures TimerInv(After(steps))
  {
    if steps != [] {
      TimersHold(steps[..|steps| - 1]);
      StepKeepsTimers(After(steps[..|steps| - 1]), steps[|steps| - 1]);
    }
  }

  /**
   However starts, stops, refreshes, timeouts and resumptions interleave: at most one timer is
   pending, none when stopped; and while running with no tick in flight exactly one is, so
   polling never dies out.
   */
  lemma OneTimer(steps: seq<Step>, s: State)
    requires Run(steps) && s == After(steps)
    ensures |s.armed| <= 1
    ensures !s.running ==> s.armed == {}
    ensures s.running && s.ticks == map[] ==> |s.armed| == 1
  {
    TimersHold(steps);
    if s.timer.Some? {
      assert s.armed <= {s.timer.value};
      assert s.armed == {} || s.armed == {s.timer.value};
    } else {
      assert s.armed == {};
    }
  }

  // ------------------------------------------------------------ announcements, in every interleaving

  // What an observer sees of a run. Saw names the organisation its tick had read, and what was listed.
  datatype Obs = Began(org: OrgId) | Saw(org: OrgId, scope: Scope, ids: set<ScanId>) | Stopped

  function Observe(s: State, step: Step): seq<Obs>
    requires Enabled(s, step)
  {
    match step
    case Start => if s.running then [] else [Began(s.org)]
    case Refresh => if s.running then [Began(s.org)] else []
    case Fire(_) => [Began(s.org)]
    case Stop => [Stopped]
    case Listed(tick, ids) => if s.running then [Saw(s.ticks[tick].org, s.ticks[tick].scope, ids)] else []
    case _ => []
  }

  function Observed(steps: seq<Step>): seq<Obs>
    requires Run(steps)
  {
    if steps == [] then []
    else
      var front := steps[..|steps| - 1];
      Observed(front) + Observe(After(front), steps[|steps| - 1])
  }

  // The organisation of the tick that began last before position i: the poller's knownOrg.
  function OrgAt(log: seq<Obs>, i: nat): OrgId
    requires i <= |log|
  {
    if i == 0 then None
    else match log[i - 1]
      case Began(org) => org
      case Stopped => None
      case Saw(_, _, _) => OrgAt(log, i - 1)
  }

  /**
   The listing a new one is compared with: the latest, provided that nothing was stopped and no
   tick of another organisation began since.
   */
  ghost predicate IsBaseline(log: seq<Obs>, i: nat) {
    && i < |log| && log[i].Saw?
    && forall j | i < j < |log| :: log[j].Began? && log[j].org == OrgAt(log, i)
  }

  ghost predicate BaselineInv(s: State, log: seq<Obs>) {
    && s.knownOrg == OrgAt(log, |log|)
    && (s.known.Some? ==> exists i: nat :: IsBaseline(log, i) && log[i].ids == s.known.value)
    && (s.known.None? ==> forall i: nat :: !IsBaseline(log, i))
  }

  lemma OrgAtPrefix(log: seq<Obs>, more: seq<Obs>, i: nat)
    requires i <= |log|
    ensures OrgAt(log + more, i) == OrgAt(log, i)
  {
    if i > 0 {
      OrgAtPrefix(log, more, i - 1);
    }
  }

  lemma BaselineAfter(log: seq<Obs>, o: Obs)
    ensures o.Saw? ==> forall i: nat :: IsBaseline(log + [o], i) <==> i == |log|
    ensures o.Stopped? ==> forall i: nat :: !IsBaseline(log + [o], i)
    ensures o.Began? && o.org == OrgAt(log, |log|) ==> forall i: nat :: IsBaseline(log + [o], i) <==> IsBaseline(log, i)
    ensures o.Began? && o.org != OrgAt(log, |log|) ==> forall i: nat :: !IsBaseline(log + [o], i)
  {
    var next := log + [o];
    forall i: nat | i <= |log|
      ensures OrgAt(next, i) == OrgAt(log, i)
    {
      OrgAtPrefix(log, [o], i);
    }
    forall i: nat | IsBaseline(log, i)
      ensures OrgAt(log, |log|) == OrgAt(log, i)
    {
      OrgIsKept(log, i, |log|);
    }
    forall i: nat | IsBaseline(next, i) && i < |log|
      ensures IsBaseline(log, i) && o.Began? && o.org == OrgAt(log, i)
    {
      assert next[|log|] == o;
      assert forall j | i < j < |log| :: log[j] == next[j];
    }
    forall i: nat | IsBaseline(log, i) && o.Began? && o.org == OrgAt(log, i)
      ensures IsBaseline(next, i)
    {
    }
  }

  lemma {:induction false} OrgIsKept(log: seq<Obs>, i: nat, n: nat)
    requires IsBaseline(log, i) && i < n <= |log|
    ensures OrgAt(log, n) == OrgAt(log, i)
  {
    if n > i + 1 {
      OrgIsKept(log, i, n - 1);
    }
  }

  lemma StepKeepsBaseline(s: State, log: seq<Obs>, step: Step)
    requires BaselineInv(s, log) && Enabled(s, step)
    ensures BaselineInv(Apply(s, step), log + Observe(s, step))
  {
    var t, seen := Apply(s, step), Observe(s, step);
    var next := log + seen;
    if seen == [] {
      assert next == log;
    } else {
      BaselineAfter(log, seen[0]);
      OrgAtPrefix(log, seen, |log|);
      if t.known.Some? {
        if seen[0].Saw? {
          assert IsBaseline(next, |log|) && next[|log|].ids == t.known.value;
        } else {
          var i: nat :| IsBaseline(log, i) && log[i].ids == s.known.value;
          assert IsBaseline(next, i) && next[i] == log[i];
        }
      }
    }
  }

  lemma {:induction false} BaselineHolds(steps: seq<Step>)
    requires Run(steps)
    ensures BaselineInv(After(steps), Observed(steps))
  {
    if steps != [] {
      var front := steps[..|steps| - 1];
      BaselineHolds(front);
      StepKeepsBaseline(After(front), Observed(front), steps[|steps| - 1]);
    }
  }

  lemma BaselineIsUnique(log: seq<Obs>, i: nat, j: nat)
    requires IsBaseline(log, i) && IsBaseline(log, j)
    ensures i == j
  {
  }

  /**
   In every run, ticks overlapping or not: a listing of the organisation whose tick began last
   announces exactly the scans that the previous successful listing had and it lacks; any other
   listing announces nothing, and so does one without a previous listing, as after a start or a
   switch of organisation.
   */
  lemma AnnouncesExactlyTheChange(steps: seq<Step>, s: State, tick: nat, ids: set<ScanId>)
    requires Run(steps) && s == After(steps) && s.running && tick in s.ticks
    ensures Apply(s, Listed(tick, ids)).announced == s.announced + [Gone(s, s.ticks[tick].org, ids)]
    ensures s.ticks[tick].org != OrgAt(Observed(steps), |Observed(steps)|) ==> Gone(s, s.ticks[tick].org, ids) == {}
    ensures s.ticks[tick].org == OrgAt(Observed(steps), |Observed(steps)|) ==>
      forall i: nat | IsBaseline(Observed(steps), i) :: Gone(s, s.ticks[tick].org, ids) == Observed(steps)[i].ids - ids
    ensures (forall i: nat :: !IsBaseline(Observed(steps), i)) ==> Gone(s, s.ticks[tick].org, ids) == {}
  {
    BaselineHolds(steps);
    var log := Observed(steps);
    if s.known.Some? {
      var b: nat :| IsBaseline(log, b) && log[b].ids == s.known.value;
      forall i: nat | IsBaseline(log, i)
        ensures i == b
      {
        BaselineIsUnique(log, i, b);
      }
    }
    hide Run, After, IsBaseline;
  }

  // Only a listing of a running poller announces anything.
  lemma OthersAnnounceNothing(s: State, step: Step)
    requires Enabled(s, step) && !(step.Listed? && s.running)
    ensures Apply(s, step).announced == s.announced || Apply(s, step).announced == s.announced + [{}]
  {
  }

  // ------------------------------------------------------------ single steps of a run

  lemma Extend(steps: seq<Step>, step: Step)
    requires Run(steps) && Enabled(After(steps), step)
    ensures Run(steps + [step]) && After(steps + [step]) == Apply(After(steps), step)
    ensures Observed(steps + [step]) == Observed(steps) + Observe(After(steps), step)
  {
    assert (steps + [step])[..|steps|] == steps;
  }

  // A listing that a running poller hears, in the terms the next one needs.
  lemma Hear(steps: seq<Step>, s: State, tick: nat, ids: set<ScanId>)
    requires Run(steps) && s == After(steps) && s.running && tick in s.ticks
    ensures Run(steps + [Listed(tick, ids)])
    ensures var t := After(steps + [Listed(tick, ids)]);
      && t.running && t.known == Some(ids) && t.knownOrg == s.knownOrg && t.org == s.org && t.scope == s.scope
      && t.ticks == s.ticks - {tick} && t.nextTick == s.nextTick
      && t.announced == s.announced + [Gone(s, s.ticks[tick].org, ids)]
    ensures Observed(steps + [Listed(tick, ids)])
         == Observed(steps) + [Saw(s.ticks[tick].org, s.ticks[tick].scope, ids)]
  {
    Extend(steps, Listed(tick, ids));
  }

  lemma BeginAnother(steps: seq<Step>, s: State, step: Step)
    requires Run(steps) && s == After(steps)
    requires if s.running then step == Refresh else step == Start
    ensures Run(steps + [step])
    ensures var t := After(steps + [step]);
      && t.running && t.knownOrg == s.org == t.org && t.scope == s.scope
      && t.known == (if s.org == s.knownOrg then s.known else None)
      && t.ticks == s.ticks[s.nextTick := Tick(s.org, s.scope)] && t.nextTick == s.nextTick + 1
      && t.announced == s.announced
    ensures Observed(steps + [step]) == Observed(steps) + [Began(s.org)]
  {
    Extend(steps, step);
  }

  lemma Switch(steps: seq<Step>, s: State, scope: Scope, org: OrgId)
    requires Run(steps) && s == After(steps)
    ensures Run(steps + [SetToken(scope)] + [SetUser(org)])
    ensures After(steps + [SetToken(scope)] + [SetUser(org)]) == s.(scope := scope, org := org)
    ensures Observed(steps + [SetToken(scope)] + [SetUser(org)]) == Observed(steps)
  {
    Extend(steps, SetToken(scope));
    Extend(steps + [SetToken(scope)], SetUser(org));
  }

  lemma GoneNow(s: State, org: OrgId, ids: set<ScanId>, gone: set<ScanId>)
    requires gone == if s.knownOrg == org && s.known.Some? then s.known.value - ids else {}
    ensures Gone(s, org, ids) == gone
  {
  }

  // ------------------------------------------------------------ which scans can still be announced

  // The scan was announced between two states of a run, s and the later t.
  predicate AnnouncedSince(s: State, t: State, id: ScanId) {
    exists k | |s.announced| <= k < |t.announced| :: id in t.announced[k]
  }

  predicate NeverListed(more: seq<Step>, id: ScanId) {
    forall step | step in more :: step.Listed? ==> id !in step.ids
  }

  // From s to t the scan stayed unannounced, and is not in what t knows.
  ghost predicate Silent(s: State, t: State, id: ScanId) {
    && |s.announced| <= |t.announced| && !AnnouncedSince(s, t, id)
    && (t.known.Some? ==> id !in t.known.value)
  }

  lemma StepStaysSilent(s: State, t: State, step: Step, id: ScanId)
    requires Silent(s, t, id) && Enabled(t, step) && (step.Listed? ==> id !in step.ids)
    ensures Silent(s, Apply(t, step), id)
  {
    var u := Apply(t, step);
    assert |t.announced| <= |u.announced| <= |t.announced| + 1 && u.announced[..|t.announced|] == t.announced;
    assert |u.announced| == |t.announced| + 1 ==> id !in u.announced[|t.announced|];
    forall k | |s.announced| <= k < |t.announced|
      ensures id !in u.announced[k]
    {
      assert u.announced[k] == u.announced[..|t.announced|][k] == t.announced[k];
    }
  }

  lemma {:induction false} UnknownStaysUnknown(steps: seq<Step>, more: seq<Step>, id: ScanId)
    requires Run(steps) && Run(steps + more) && NeverListed(more, id)
    requires After(steps).known.Some? ==> id !in After(steps).known.value
    ensures Silent(After(steps), After(steps + more), id)
  {
    if more == [] {
      assert steps + more == steps;
    } else {
      var front, step := more[..|more| - 1], more[|more| - 1];
      assert (steps + more)[..|steps + more| - 1] == steps + front && step in more;
      assert forall x | x in front :: x in more;
      hide Apply, Silent, Enabled;
      UnknownStaysUnknown(steps, front, id);
      StepStaysSilent(After(steps), After(steps + front), step, id);
    }
  }

  // The user is back in the known organisation, whose next listing is empty.
  function EmptyListing(s: State): seq<Step> {
    [SetToken(s.scope), SetUser(s.knownOrg), Refresh, Listed(s.nextTick, {})]
  }

  lemma KnownCanBeAnnounced(steps: seq<Step>, s: State, id: ScanId)
    requires Run(steps) && s == After(steps) && s.running && s.known.Some? && id in s.known.value
    ensures Run(steps + EmptyListing(s)) && NeverListed(EmptyListing(s), id)
    ensures AnnouncedSince(s, After(steps + EmptyListing(s)), id)
  {
    hide Run, After, Apply, Observed, Gone;
    var r := steps;
    Switch(r, s, s.scope, s.knownOrg);
    r := r + [SetToken(s.scope)] + [SetUser(s.knownOrg)];
    BeginAnother(r, After(r), Refresh);
    r := r + [Refresh];
    Hear(r, After(r), s.nextTick, {});
    GoneNow(After(r), s.knownOrg, {}, s.known.value);
    r := r + [Listed(s.nextTick, {})];
    assert r == steps + EmptyListing(s);
    assert id in After(r).announced[|s.announced|];
  }

  ghost predicate CanBeAnnouncedUnlisted(steps: seq<Step>, id: ScanId)
    requires Run(steps)
  {
    exists more :: Run(steps + more) && NeverListed(more, id) && AnnouncedSince(After(steps), After(steps + more), id)
  }

  /**
   In every run of a running poller: a scan that no further listing holds can still be announced
   exactly when the recorded listing holds it.
   */
  lemma AnnouncedExactlyWhenKnown(steps: seq<Step>, s: State, id: ScanId)
    requires Run(steps) && s == After(steps) && s.running
    ensures s.known.Some? && id in s.known.value <==> CanBeAnnouncedUnlisted(steps, id)
  {
    if s.known.Some? && id in s.known.value {
      KnownCanBeAnnounced(steps, s, id);
    } else {
      forall more | Run(steps + more) && NeverListed(more, id)
        ensures !AnnouncedSince(s, After(steps + more), id)
      {
        UnknownStaysUnknown(steps, more, id);
      }
    }
    hide Run, After, NeverListed, AnnouncedSince;
  }

  /**
   So a scan is announced a second time exactly through a listing that holds it again, an older one
   say that is heard late: after a listing without the scan no run that hears none with it announces
   it, and after one that holds it the announcement can follow.
   */
  lemma AnnouncedAgainExactlyWhenListedAgain(
    steps: seq<Step>, s: State, tick: nat, ids: set<ScanId>, id: ScanId)
    requires Run(steps) && s == After(steps) && s.running && tick in s.ticks
    ensures Run(steps + [Listed(tick, ids)])
    ensures CanBeAnnouncedUnlisted(steps + [Listed(tick, ids)], id) <==> id in ids
  {
    Hear(steps, s, tick, ids);
    AnnouncedExactlyWhenKnown(steps + [Listed(tick, ids)], After(steps + [Listed(tick, ids)]), id);
    hide Run, After;
  }

  // ------------------------------------------------------------ announcements across scopes

  // The token of a session that is simply in an organisation.
  function OfOrg(org: OrgId): Scope {
    if org == None then NoScope else Organisation(org.value)
  }

  /**
   An announcement is right when the listing that lacks the scan and the one that had it are
   listings of one scope. The poller compares organisations of user records instead. With the
   listing that had it recorded for the known organisation, it is right exactly when the tick's
   token was that organisation's too; otherwise exactly when the two tokens were the same.
   */
  lemma RightExactlyWhenScopesMatch(steps: seq<Step>, s: State, tick: nat, ids: set<ScanId>, id: ScanId)
    requires Run(steps) && s == After(steps) && s.running && tick in s.ticks
    requires id in Gone(s, s.ticks[tick].org, ids)
    ensures exists i: nat :: IsBaseline(Observed(steps), i)
    ensures forall i: nat | IsBaseline(Observed(steps), i) ::
      var b, known, now := Observed(steps)[i], OrgAt(Observed(steps), i), s.ticks[tick];
      && id in b.ids && id !in ids && known == now.org
      && (b.scope == OfOrg(known) ==> (b.scope == now.scope <==> now.scope == OfOrg(now.org)))
      && (b.scope != OfOrg(known) && now.scope == OfOrg(now.org) ==> b.scope != now.scope)
  {
    BaselineHolds(steps);
    var log := Observed(steps);
    AnnouncesExactlyTheChange(steps, s, tick, ids);
    forall i: nat | IsBaseline(log, i)
      ensures OrgAt(log, i) == s.ticks[tick].org
    {
      OrgIsKept(log, i, |log|);
    }
    hide Run, After, OrgAt, OfOrg;
  }

  /** Which step records a listing that is not the known organisation's: the record compares nothing. */
  lemma RecordMatchesExactlyWhen(steps: seq<Step>, s: State, tick: nat, ids: set<ScanId>)
    requires Run(steps) && s == After(steps) && s.running && tick in s.ticks
    ensures Run(steps + [Listed(tick, ids)])
    ensures var log := Observed(steps + [Listed(tick, ids)]); var i := |Observed(steps)|;
      && IsBaseline(log, i) && log[i].scope == s.ticks[tick].scope
      && (log[i].scope == OfOrg(OrgAt(log, i)) <==> s.ticks[tick].scope == OfOrg(s.knownOrg))
  {
    BaselineHolds(steps);
    Extend(steps, Listed(tick, ids));
    OrgAtPrefix(Observed(steps), [Saw(s.ticks[tick].org, s.ticks[tick].scope, ids)], |Observed(steps)|);
    hide Run, After, OrgAt, OfOrg;
  }

  // The listing of this tick would announce id, which was recorded from a listing of another scope.
  ghost predicate IsWrong(s: State, log: seq<Obs>, tick: nat, ids: set<ScanId>, id: ScanId)
    requires tick in s.ticks
  {
    && id in Gone(s, s.ticks[tick].org, ids)
    && exists i: nat :: IsBaseline(log, i) && log[i].scope != s.ticks[tick].scope
  }

  /**
   For every run, at the moment a listing arrives: it announces a scan across scopes exactly when
   the tick's organisation still is the known one, so that the comparison is made, the recorded
   listing is of another scope than the tick's token, and it holds a scan that this one lacks.
   */
  lemma WrongExactlyWhenScopesDiffer(steps: seq<Step>, s: State, tick: nat, ids: set<ScanId>)
    requires Run(steps) && s == After(steps) && s.running && tick in s.ticks
    ensures (exists id :: IsWrong(s, Observed(steps), tick, ids, id)) <==>
      s.ticks[tick].org == s.knownOrg && exists i: nat ::
        && IsBaseline(Observed(steps), i) && Observed(steps)[i].scope != s.ticks[tick].scope
        && !(Observed(steps)[i].ids <= ids)
  {
    BaselineHolds(steps);
    var log := Observed(steps);
    if s.known.Some? {
      var b: nat :| IsBaseline(log, b) && log[b].ids == s.known.value;
      forall i: nat | IsBaseline(log, i)
        ensures i == b
      {
        BaselineIsUnique(log, i, b);
      }
      if s.ticks[tick].org == s.knownOrg && log[b].scope != s.ticks[tick].scope && !(log[b].ids <= ids) {
        var id :| id in log[b].ids && id !in ids;
        assert IsWrong(s, log, tick, ids, id);
      }
    }
    hide Run, After, IsBaseline;
  }

  // The listing arrives, the session settles in the known organisation, and its next listing is empty.
  function Misleading(s: State, tick: nat, id: ScanId): seq<Step> {
    [ Listed(tick, {id}), SetToken(OfOrg(s.knownOrg)), SetUser(s.knownOrg), Refresh, Listed(s.nextTick, {}) ]
  }

  /**
   From every reachable state in which a listing of another scope can arrive, a scan of it can be
   announced as the known organisation's, with token and user record in agreement by then.
   */
  lemma MismatchedListingMisleads(steps: seq<Step>, s: State, tick: nat, id: ScanId)
    requires Run(steps) && s == After(steps) && s.running && tick in s.ticks
    requires s.ticks[tick].scope != OfOrg(s.knownOrg)
    ensures Run(steps + Misleading(s, tick, id))
    ensures After(steps + Misleading(s, tick, id)).announced
         == s.announced + [Gone(s, s.ticks[tick].org, {id}), {id}]
    ensures Observed(steps + Misleading(s, tick, id)) == Observed(steps)
      + [Saw(s.ticks[tick].org, s.ticks[tick].scope, {id}), Began(s.knownOrg), Saw(s.knownOrg, OfOrg(s.knownOrg), {})]
  {
    hide Run, After, Apply, Observed, Gone, OfOrg;
    var scope := OfOrg(s.knownOrg);
    var r := steps;
    Hear(r, s, tick, {id});
    r := r + [Listed(tick, {id})];
    Switch(r, After(r), scope, s.knownOrg);
    r := r + [SetToken(scope)] + [SetUser(s.knownOrg)];
    BeginAnother(r, After(r), Refresh);
    r := r + [Refresh];
    Hear(r, After(r), s.nextTick, {});
    GoneNow(After(r), s.knownOrg, {}, {id});
    r := r + [Listed(s.nextTick, {})];
    assert r == steps + Misleading(s, tick, id);
  }

  // ------------------------------------------------------------ how that comes about

  // The session is in the first scope, a scan of it is recorded, the session moves, a tick begins.
  function Move(first: Scope, firstOrg: OrgId, second: Scope, secondOrg: OrgId): seq<Step> {
    [ SetToken(first), SetUser(firstOrg), Start, Listed(0, {"a"}),
      SetToken(second), SetUser(secondOrg), Refresh, Listed(1, {}) ]
  }

  lemma FirstTick(scope: Scope, org: OrgId)
    ensures Run([SetToken(scope), SetUser(org), Start])
    ensures Observed([SetToken(scope), SetUser(org), Start]) == [Began(org)]
    ensures var s := After([SetToken(scope), SetUser(org), Start]);
      && s.running && s.known == None && s.knownOrg == org == s.org && s.scope == scope
      && s.ticks == map[0 := Tick(org, scope)] && s.nextTick == 1 && s.announced == []
  {
    var r: seq<Step> := [];
    assert After(r) == FRESH && Observed(r) == [];
    hide Run, After, Apply, Observed, Gone;
    Switch(r, After(r), scope, org);
    r := r + [SetToken(scope)] + [SetUser(org)];
    BeginAnother(r, After(r), Start);
    assert r + [Start] == [SetToken(scope), SetUser(org), Start];
  }

  lemma Settle(first: Scope, firstOrg: OrgId)
    ensures Run(Move(first, firstOrg, first, firstOrg)[..4])
    ensures Observed(Move(first, firstOrg, first, firstOrg)[..4]) == [Began(firstOrg), Saw(firstOrg, first, {"a"})]
    ensures var s := After(Move(first, firstOrg, first, firstOrg)[..4]);
      && s.running && s.known == Some({"a"}) && s.knownOrg == firstOrg == s.org
      && s.ticks == map[] && s.nextTick == 1 && s.announced == [{}]
  {
    FirstTick(first, firstOrg);
    assert map[0 := Tick(firstOrg, first)] - {0} == map[];
    hide Run, After, Apply, Observed, Gone;
    var r := [SetToken(first), SetUser(firstOrg), Start];
    Hear(r, After(r), 0, {"a"});
    GoneNow(After(r), firstOrg, {"a"}, {});
    assert r + [Listed(0, {"a"})] == Move(first, firstOrg, first, firstOrg)[..4];
  }

  /**
   A session that moves between two scopes whose user records name one organisation announces the
   scans of the first under the second: another project shared out of that organisation, with
   everything switched; or another organisation whose token is set but whose user record is not
   there yet, or never arrives.
   */
  lemma MovesWithinOneOrganisationMislead(first: Scope, second: Scope, org: OrgId)
    ensures Run(Move(first, org, second, org)) && After(Move(first, org, second, org)).announced == [{}, {"a"}]
    ensures Observed(Move(first, org, second, org)) ==
      [Began(org), Saw(org, first, {"a"}), Began(org), Saw(org, second, {})]
  {
    Settle(first, org);
    hide Run, After, Apply, Observed, Gone;
    var r := Move(first, org, first, org)[..4];
    Switch(r, After(r), second, org);
    r := r + [SetToken(second)] + [SetUser(org)];
    BeginAnother(r, After(r), Refresh);
    r := r + [Refresh];
    Hear(r, After(r), 1, {});
    GoneNow(After(r), org, {}, {"a"});
    assert r + [Listed(1, {})] == Move(first, org, second, org);
  }

  // A first tick of A is answered only after the switch to B, whose own listing is empty.
  const LATE := [
    SetToken(Organisation("A")), SetUser(Some("A")), Start,
    SetToken(Organisation("B")), SetUser(Some("B")), Refresh, Listed(0, {"a"}), Listed(1, {})]

  lemma TwoOrganisations()
    ensures Run(LATE[..6])
    ensures var s := After(LATE[..6]);
      && s.running && s.known == None && s.knownOrg == Some("B") && s.announced == []
      && s.ticks == map[0 := Tick(Some("A"), Organisation("A")), 1 := Tick(Some("B"), Organisation("B"))]
    ensures Observed(LATE[..6]) == [Began(Some("A")), Began(Some("B"))]
  {
    FirstTick(Organisation("A"), Some("A"));
    hide Run, After, Apply, Observed, Gone;
    var r := [SetToken(Organisation("A")), SetUser(Some("A")), Start];
    Switch(r, After(r), Organisation("B"), Some("B"));
    r := r + [SetToken(Organisation("B"))] + [SetUser(Some("B"))];
    BeginAnother(r, After(r), Refresh);
    assert r + [Refresh] == LATE[..6];
  }

  /**
   Under organisation B a scan is announced that no listing of B ever held, though every tick's
   token is its organisation's.
   */
  lemma LateListingMisleads()
    ensures Run(LATE) && After(LATE).announced == [{}, {"a"}]
    ensures Observed(LATE) ==
      [ Began(Some("A")), Began(Some("B")),
        Saw(Some("A"), Organisation("A"), {"a"}), Saw(Some("B"), Organisation("B"), {}) ]
  {
    TwoOrganisations();
    hide Run, After, Apply, Observed, Gone;
    var r := LATE[..6];
    Hear(r, After(r), 0, {"a"});
    GoneNow(After(r), Some("A"), {"a"}, {});
    r := r + [Listed(0, {"a"})];
    Hear(r, After(r), 1, {});
    GoneNow(After(r), Some("B"), {}, {"a"});
    assert r + [Listed(1, {})] == LATE;
  }

  // ------------------------------------------------------------ overlapping ticks

  // Three ticks; the second to start answers last, with a listing older than the one before it.
  const OVERLAP := [
    Start, Listed(0, {"scan"}), Refresh, Refresh, Listed(2, {}), Listed(1, {"scan"}), Refresh, Listed(3, {})]

  lemma FirstAnnouncement()
    ensures Run(OVERLAP[..5])
    ensures var s := After(OVERLAP[..5]);
      && s.running && s.known == Some({}) && s.knownOrg == s.org == None && s.nextTick == 3
      && s.ticks == map[1 := Tick(None, NoScope)] && s.announced == [{}, {"scan"}]
  {
    var r: seq<Step> := [];
    assert After(r) == FRESH;
    hide Run, After, Apply, Observed, Gone;
    BeginAnother(r, After(r), Start);
    r := r + [Start];
    Hear(r, After(r), 0, {"scan"});
    GoneNow(After(r), None, {"scan"}, {});
    r := r + [Listed(0, {"scan"})];
    BeginAnother(r, After(r), Refresh);
    r := r + [Refresh];
    BeginAnother(r, After(r), Refresh);
    r := r + [Refresh];
    Hear(r, After(r), 2, {});
    GoneNow(After(r), None, {}, {"scan"});
    assert r + [Listed(2, {})] == OVERLAP[..5];
  }

  /** A listing heard after a newer one makes one finished scan be announced twice. */
  lemma OverlapAnnouncesTwice()
    ensures Run(OVERLAP) && After(OVERLAP).announced == [{}, {"scan"}, {}, {"scan"}]
  {
    FirstAnnouncement();
    hide Run, After, Apply, Observed, Gone;
    var r := OVERLAP[..5];
    Hear(r, After(r), 1, {"scan"});
    GoneNow(After(r), None, {"scan"}, {});
    r := r + [Listed(1, {"scan"})];
    BeginAnother(r, After(r), Refresh);
    r := r + [Refresh];
    Hear(r, After(r), 3, {});
    GoneNow(After(r), None, {}, {"scan"});
    assert r + [Listed(3, {})] == OVERLAP;
  }

  // ------------------------------------------------------------ the store as the page runs it

  class Poller {
    var running: bool
    var timer: Option<nat>
    var armed: set<nat>
    var nextTimer: nat
    var known: Option<set<ScanId>>
    var knownOrg: OrgId
    var org: OrgId
    var scope: Scope
    var ticks: map<nat, Tick>
    var nextTick: nat
    var announced: seq<set<ScanId>>

    function Now(): State
      reads this
    {
      State(running, timer, armed, nextTimer, known, knownOrg, org, scope, ticks, nextTick, announced)
    }

    constructor ()
      ensures Now() == FRESH
    {
      running, timer, armed, nextTimer := false, None, {}, 0;
      known, knownOrg, org, scope := None, None, None, NoScope;
      ticks, nextTick, announced := map[], 0, [];
    }

    method DoClearTimer()
      modifies this`timer, this`armed
      ensures Now() == ClearTimer(old(Now()))
      ensures timer == None && armed == if old(timer).Some? then old(armed) - {old(timer).value} else old(armed)
    {
      if timer.Some? {
        armed := armed - {timer.value};
        timer := None;
      }
    }

    method DoBeginTick()
      modifies this
      ensures Now() == BeginTick(old(Now()))
      ensures timer == None && knownOrg == org == old(org) && scope == old(scope) && running == old(running)
      ensures known == if old(org) == old(knownOrg) then old(known) else None
      ensures ticks == old(ticks)[old(nextTick) := Tick(old(org), old(scope))] && announced == old(announced)
    {
      DoClearTimer();
      if org != knownOrg {
        known := None;
        knownOrg := org;
      }
      ticks := ticks[nextTick := Tick(org, scope)];
      nextTick := nextTick + 1;
    }

    method DoStart()
      modifies this
      ensures Now() == Apply(old(Now()), Start)
      ensures running
      ensures old(running) ==> Now() == old(Now())
      ensures !old(running) ==> ticks == old(ticks)[old(nextTick) := Tick(old(org), old(scope))] && timer == None
    {
      if running {
        return;
      }
      running := true;
      DoBeginTick();
    }

    method DoStop()
      modifies this
      ensures Now() == Apply(old(Now()), Stop)
      ensures !running && timer == None && known == None && knownOrg == None
      ensures ticks == old(ticks) && announced == old(announced)
    {
      running := false;
      DoClearTimer();
      known := None;
      knownOrg := None;
    }

    method DoRefresh()
      modifies this
      ensures Now() == Apply(old(Now()), Refresh)
      ensures !old(running) ==> Now() == old(Now())
      ensures old(running) ==> ticks == old(ticks)[old(nextTick) := Tick(old(org), old(scope))] && timer == None
    {
      if running {
        DoBeginTick();
      }
    }

    // The browser calls tick() for a timeout that went off.
    method DoFire(t: nat)
      requires t in armed
      modifies this
      ensures Now() == Apply(old(Now()), Fire(t))
      ensures t !in armed && ticks == old(ticks)[old(nextTick) := Tick(old(org), old(scope))]
    {
      armed := armed - {t};
      DoBeginTick();
    }

    // apiClient sends the request again after a refresh, with the token of that moment.
    method DoRefetch(tick: nat)
      requires tick in ticks
      modifies this`ticks
      ensures Now() == Apply(old(Now()), Refetch(tick))
      ensures ticks == old(ticks)[tick := Tick(old(ticks)[tick].org, scope)]
    {
      ticks := ticks[tick := ticks[tick].(scope := scope)];
    }

    // The finally block.
    method DoRearm()
      modifies this`timer, this`armed, this`nextTimer
      ensures Now() == Rearm(old(Now()))
      ensures !running ==> timer == old(timer) && armed == old(armed)
      ensures running ==> timer == Some(old(nextTimer))
      ensures running && old(timer).Some? ==> armed == old(armed) - {old(timer).value} + {old(nextTimer)}
      ensures running && old(timer).None? ==> armed == old(armed) + {old(nextTimer)}
    {
      if running {
        DoClearTimer();
        timer := Some(nextTimer);
        armed := armed + {nextTimer};
        nextTimer := nextTimer + 1;
      }
    }

    // The rest of a tick after its await: with the listing, or with None for a rejected one.
    method Resume(tick: nat, listing: Option<set<ScanId>>)
      requires tick in ticks
      modifies this
      ensures Now() == Apply(old(Now()), if listing.Some? then Listed(tick, listing.value) else Failed(tick))
      ensures running == old(running) && knownOrg == old(knownOrg) && ticks == old(ticks) - {tick}
      ensures known == if listing.Some? && running then listing else old(known)
      ensures announced == old(announced) + [
        if listing.Some? && running && old(known).Some? && knownOrg == old(ticks)[tick].org
        then old(known).value - listing.value else {}]
      ensures running ==> timer == Some(old(nextTimer))
      ensures !running ==> timer == old(timer) && armed == old(armed)
    {
      var tickOrg := ticks[tick].org;
      ticks := ticks - {tick};
      var said: set<ScanId> := {};
      if listing.Some? && running {
        if known.Some? && knownOrg == tickOrg {
          said := known.value - listing.value;
        }
        known := Some(listing.value);
      }
      announced := announced + [said];
      DoRearm();
    }
  }
}
