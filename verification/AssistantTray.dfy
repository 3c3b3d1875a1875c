/**
 The finding assistant's tray of chat sessions. JavaScript switches tasks only at an await, so a
 command up to its request is one step and the arrival of the reply is another, however late.
 */
module AssistantTray {
  import opened Wrappers

  const MAX_SESSIONS := 4

  datatype Command = Explain | Remediate | Fix | Locate

  datatype Data = Data(charged: int, alreadyPaid: bool, body: string)

  datatype Message =
    | Asked(id: nat, command: Command)
    | Answer(id: nat, command: Command, data: Data)
    | Located(id: nat)
    | Problem(id: nat, command: Command, text: string)

  datatype Session = Session(finding: string, messages: seq<Message>, pending: Option<Command>)

  // A request that has not been answered, and who it was for.
  datatype Request = Request(finding: string, command: Command)

  datatype State = State(
    sessions: seq<Session>, activeId: Option<string>, minimized: bool, nextId: nat,
    inFlight: map<nat, Request>, nextRequest: nat)

  datatype Step =
    | Open(finding: string)
    | Focus(finding: string)
    | Minimize
    | Close(finding: string)
    | Ask(finding: string, command: Command)
    | Reply(request: nat, result: Result<Data, string>)

  const FRESH := State([], None, false, 1, map[], 0)

  function Find(ss: seq<Session>, f: string): (r: Option<Session>)
    ensures r.Some? ==> r.value in ss && r.value.finding == f
    ensures r.None? ==> forall x | x in ss :: x.finding != f
  {
    if ss == [] then None
    else if ss[0].finding == f then Some(ss[0])
    else Find(ss[1..], f)
  }

  function Without(ss: seq<Session>, f: string): (r: seq<Session>)
    ensures forall x :: x in r <==> x in ss && x.finding != f
    ensures |r| <= |ss|
    ensures Distinct(ss) ==> Distinct(r)
  {
    if ss == [] then []
    else
      var front, x := Without(ss[..|ss| - 1], f), ss[|ss| - 1];
      assert ss == ss[..|ss| - 1] + [x];
      if x.finding == f then front else front + [x]
  }

  function LastFour(ss: seq<Session>): seq<Session> {
    if |ss| <= MAX_SESSIONS then ss else ss[|ss| - MAX_SESSIONS..]
  }

  function Told(x: Session, f: string, said: seq<Message>, pending: Option<Command>): Session {
    if x.finding == f then Session(f, x.messages + said, pending) else x
  }

  function Say(ss: seq<Session>, f: string, said: seq<Message>, pending: Option<Command>): seq<Session> {
    seq(|ss|, i requires 0 <= i < |ss| => Told(ss[i], f, said, pending))
  }

  // The first answer to a command in a session.
  function Previous(messages: seq<Message>, c: Command): (r: Option<Data>)
    ensures r.None? <==> forall m | m in messages :: !(m.Answer? && m.command == c)
    ensures r.Some? ==> exists m | m in messages :: m.Answer? && m.command == c && m.data == r.value
  {
    if messages == [] then None
    else if messages[0].Answer? && messages[0].command == c then Some(messages[0].data)
    else Previous(messages[1..], c)
  }

  predicate Enabled(s: State, step: Step) {
    step.Reply? ==> step.request in s.inFlight
  }

  function DoOpen(s: State, f: string): State {
    if Find(s.sessions, f).Some? then s.(activeId := Some(f), minimized := false)
    else s.(sessions := LastFour(s.sessions + [Session(f, [], None)]), activeId := Some(f), minimized := false)
  }

  function DoClose(s: State, f: string): State {
    var rest := Without(s.sessions, f);
    var active :=
      if s.activeId != Some(f) then s.activeId
      else if rest == [] then None
      else Some(rest[|rest| - 1].finding);
    s.(sessions := rest, activeId := active, minimized := rest != [] && s.minimized)
  }

  // What a command that finds a session free adds to it.
  datatype Speech = Speech(said: seq<Message>, pending: Option<Command>)

  function Response(messages: seq<Message>, c: Command, id: nat): Speech {
    if c == Locate then Speech([Asked(id, c), Located(id + 1)], None)
    else match Previous(messages, c)
      case Some(data) =>
        // Asked before in this session: the answer is shown again, free of charge.
        Speech([Asked(id, c), Answer(id + 1, c, data.(charged := 0, alreadyPaid := true))], None)
      case None => Speech([Asked(id, c)], Some(c))
  }

  function DoAsk(s: State, f: string, c: Command): State {
    var session := Find(s.sessions, f);
    if session.None? || session.value.pending.Some? then s
    else
      var speech := Response(session.value.messages, c, s.nextId);
      var t := s.(sessions := Say(s.sessions, f, speech.said, speech.pending), nextId := s.nextId + |speech.said|);
      if speech.pending.None? then t
      else t.(inFlight := t.inFlight[t.nextRequest := Request(f, c)], nextRequest := t.nextRequest + 1)
  }

  function Arrival(id: nat, c: Command, result: Result<Data, string>): Message {
    match result
    case Ok(data) => Answer(id, c, data)
    case Err(text) => Problem(id, c, text)
  }

  function DoReply(s: State, r: nat, result: Result<Data, string>): State
    requires r in s.inFlight
  {
    var q := s.inFlight[r];
    var reply := Arrival(s.nextId, q.command, result);
    s.(sessions := Say(s.sessions, q.finding, [reply], None), nextId := s.nextId + 1, inFlight := s.inFlight - {r})
  }

  function Apply(s: State, step: Step): State
    requires Enabled(s, step)
  {
    match step
    case Open(f) => DoOpen(s, f)
    case Focus(f) => s.(activeId := Some(f), minimized := false)
    case Minimize => s.(minimized := true)
    case Close(f) => DoClose(s, f)
    case Ask(f, c) => DoAsk(s, f, c)
    case Reply(r, result) => DoReply(s, r, result)
  }

  predicate RunFrom(s: State, steps: seq<Step>)
    decreases |steps|, 0
  {
    steps == []
    || (RunFrom(s, steps[..|steps| - 1]) && Enabled(Exec(s, steps[..|steps| - 1]), steps[|steps| - 1]))
  }

  function Exec(s: State, steps: seq<Step>): State
    requires RunFrom(s, steps)
    decreases |steps|, 1
  {
    if steps == [] then s else Apply(Exec(s, steps[..|steps| - 1]), steps[|steps| - 1])
  }

  // ------------------------------------------------------------ what every run keeps

  predicate Distinct(ss: seq<Session>) {
    forall i, j | 0 <= i < j < |ss| :: ss[i].finding != ss[j].finding
  }

  predicate IdsIncrease(messages: seq<Message>, nextId: nat) {
    && (forall i, j | 0 <= i < j < |messages| :: messages[i].id < messages[j].id)
    && (forall i | 0 <= i < |messages| :: messages[i].id < nextId)
  }

  predicate IdsAreGood(ss: seq<Session>, nextId: nat) {
    forall x | x in ss :: IdsIncrease(x.messages, nextId)
  }

  predicate Inv(s: State) {
    && |s.sessions| <= MAX_SESSIONS
    && Distinct(s.sessions)
    && IdsAreGood(s.sessions, s.nextId)
    && (forall r | r in s.inFlight :: r < s.nextRequest && s.inFlight[r].command != Locate)
  }

  lemma FindIs(ss: seq<Session>, x: Session)
    requires Distinct(ss) && x in ss
    ensures Find(ss, x.finding) == Some(x)
  {
    var i :| 0 <= i < |ss| && ss[i] == x;
    var y := Find(ss, x.finding).value;
    var j :| 0 <= j < |ss| && ss[j] == y;
  }

  lemma SayKeeps(ss: seq<Session>, f: string, said: seq<Message>, pending: Option<Command>, id: nat)
    requires Distinct(ss) && IdsAreGood(ss, id) && forall i | 0 <= i < |said| :: said[i].id == id + i
    ensures Distinct(Say(ss, f, said, pending)) && IdsAreGood(Say(ss, f, said, pending), id + |said|)
  {
    var next := Say(ss, f, said, pending);
    forall x | x in next
      ensures IdsIncrease(x.messages, id + |said|)
    {
      var i :| 0 <= i < |ss| && next[i] == x;
      assert ss[i] in ss;
    }
  }

  lemma OpenKeepsInv(s: State, f: string)
    requires Inv(s)
    ensures Inv(DoOpen(s, f))
  {
    forall x | x in DoOpen(s, f).sessions
      ensures IdsIncrease(x.messages, s.nextId)
    {
      assert x in s.sessions || x == Session(f, [], None);
    }
  }

  lemma AskKeepsInv(s: State, f: string, c: Command)
    requires Inv(s)
    ensures Inv(DoAsk(s, f, c))
  {
    var session := Find(s.sessions, f);
    if session.Some? {
      var speech := Response(session.value.messages, c, s.nextId);
      SayKeeps(s.sessions, f, speech.said, speech.pending, s.nextId);
    }
    hide Say, Distinct, IdsAreGood, Find, Previous;
  }

  lemma ReplyKeepsInv(s: State, r: nat, result: Result<Data, string>)
    requires Inv(s) && r in s.inFlight
    ensures Inv(DoReply(s, r, result))
  {
    var q := s.inFlight[r];
    SayKeeps(s.sessions, q.finding, [Arrival(s.nextId, q.command, result)], None, s.nextId);
    hide Say, Distinct, IdsAreGood;
  }

  lemma StepKeepsInv(s: State, step: Step)
    requires Inv(s) && Enabled(s, step)
    ensures Inv(Apply(s, step))
  {
    match step
    case Open(f) => OpenKeepsInv(s, f);
    case Ask(f, c) => AskKeepsInv(s, f, c);
    case Reply(r, result) => ReplyKeepsInv(s, r, result);
    case _ =>
  }

  lemma {:induction false} InvHolds(s: State, steps: seq<Step>)
    requires Inv(s) && RunFrom(s, steps)
    ensures Inv(Exec(s, steps))
  {
    if steps != [] {
      InvHolds(s, steps[..|steps| - 1]);
      StepKeepsInv(Exec(s, steps[..|steps| - 1]), steps[|steps| - 1]);
    }
  }

  /**
   In every run, late replies included: at most four sessions, of different findings, with message
   IDs strictly increasing in each.
   */
  lemma TrayIsSane(steps: seq<Step>, s: State)
    requires RunFrom(FRESH, steps) && s == Exec(FRESH, steps)
    ensures |s.sessions| <= 4
    ensures forall i, j | 0 <= i < j < |s.sessions| :: s.sessions[i].finding != s.sessions[j].finding
    ensures forall x, i, j | x in s.sessions && 0 <= i < j < |x.messages| :: x.messages[i].id < x.messages[j].id
  {
    InvHolds(FRESH, steps);
  }

  predicate IsOpen(s: State, f: string) {
    Find(s.sessions, f).Some?
  }

  // The panel shows an open session, or nothing when there is none.
  predicate ActiveIsOpen(s: State) {
    && (s.activeId == None <==> s.sessions == [])
    && (s.activeId.Some? ==> IsOpen(s, s.activeId.value))
  }

  predicate FocusesOnOpen(steps: seq<Step>)
    requires RunFrom(FRESH, steps)
  {
    steps != [] ==>
      var front, step := steps[..|steps| - 1], steps[|steps| - 1];
      FocusesOnOpen(front) && (step.Focus? ==> IsOpen(Exec(FRESH, front), step.finding))
  }

  lemma SayFinds(ss: seq<Session>, f: string, said: seq<Message>, pending: Option<Command>, g: string)
    requires Distinct(ss)
    ensures Find(ss, g).None? ==> Find(Say(ss, f, said, pending), g).None?
    ensures Find(ss, g).Some? ==>
      Find(Say(ss, f, said, pending), g) == Some(Told(Find(ss, g).value, f, said, pending))
  {
    var next := Say(ss, f, said, pending);
    if Find(ss, g).Some? {
      var i :| 0 <= i < |ss| && ss[i] == Find(ss, g).value;
      assert next[i] in next;
      FindIs(next, next[i]);
    } else {
      forall x | x in next
        ensures x.finding != g
      {
        var i :| 0 <= i < |ss| && next[i] == x;
        assert ss[i] in ss;
      }
    }
  }

  /** A step keeps the panel on an open session exactly when it is no focus on a closed one. */
  lemma ActiveStaysOpen(s: State, step: Step)
    requires Inv(s) && ActiveIsOpen(s) && Enabled(s, step)
    ensures ActiveIsOpen(Apply(s, step)) <==> (step.Focus? ==> IsOpen(s, step.finding))
  {
    var t := Apply(s, step);
    match step
    case Open(f) =>
      var grown := s.sessions + [Session(f, [], None)];
      if !IsOpen(s, f) {
        assert LastFour(grown)[|LastFour(grown)| - 1] == grown[|grown| - 1];
      }
    case Focus(_) =>
    case Minimize =>
    case Close(f) =>
      if s.activeId.Some? && s.activeId != Some(f) {
        assert Find(s.sessions, s.activeId.value).value in t.sessions;
      }
    case Ask(f, c) =>
      AskFinds(s, f, c);
    case Reply(r, result) =>
      if s.activeId.Some? {
        var q := s.inFlight[r];
        SayFinds(s.sessions, q.finding, [Arrival(s.nextId, q.command, result)], None, s.activeId.value);
      }
  }

  lemma AskFinds(s: State, f: string, c: Command)
    requires Inv(s)
    ensures |DoAsk(s, f, c).sessions| == |s.sessions| && DoAsk(s, f, c).activeId == s.activeId
    ensures forall g :: IsOpen(s, g) ==> IsOpen(DoAsk(s, f, c), g)
  {
    var session := Find(s.sessions, f);
    if session.Some? {
      var speech := Response(session.value.messages, c, s.nextId);
      forall g | IsOpen(s, g)
        ensures Find(Say(s.sessions, f, speech.said, speech.pending), g).Some?
      {
        SayFinds(s.sessions, f, speech.said, speech.pending, g);
      }
    }
    hide Response, Find;
  }

  /** As long as only open findings are focused, there is an active ID exactly when a session is open. */
  lemma {:induction false} ActiveHolds(steps: seq<Step>)
    requires RunFrom(FRESH, steps) && FocusesOnOpen(steps)
    ensures ActiveIsOpen(Exec(FRESH, steps))
  {
    if steps != [] {
      var front := steps[..|steps| - 1];
      ActiveHolds(front);
      InvHolds(FRESH, front);
      ActiveStaysOpen(Exec(FRESH, front), steps[|steps| - 1]);
    }
  }

  // ------------------------------------------------------------ one answer per command

  // Nothing asked about a finding is still on its way.
  predicate Idle(s: State, f: string) {
    forall r | r in s.inFlight :: s.inFlight[r].finding != f
  }

  predicate StaysOpen(s: State, steps: seq<Step>, f: string)
    requires RunFrom(s, steps)
  {
    IsOpen(Exec(s, steps), f) && (steps != [] ==> StaysOpen(s, steps[..|steps| - 1], f))
  }

  predicate IsAnswer(s: State, step: Step, f: string, c: Command) {
    step.Reply? && step.request in s.inFlight && s.inFlight[step.request] == Request(f, c) && step.result.Ok?
  }

  // How many requests for a command on a finding return an answer in a run.
  function Answers(s: State, steps: seq<Step>, f: string, c: Command): nat
    requires RunFrom(s, steps)
  {
    if steps == [] then 0
    else
      var front := steps[..|steps| - 1];
      Answers(s, front, f, c) + if IsAnswer(Exec(s, front), steps[|steps| - 1], f, c) then 1 else 0
  }

  // Of a session: only its pending command is in flight, and not after an answer to it.
  ghost predicate CleanSession(x: Session, inFlight: map<nat, Request>, c: Command, answers: nat) {
    && (forall r | r in inFlight && inFlight[r].finding == x.finding :: x.pending == Some(inFlight[r].command))
    && (forall r, q | r in inFlight && q in inFlight ::
          inFlight[r].finding == x.finding == inFlight[q].finding ==> r == q)
    && answers == (if Previous(x.messages, c).Some? then 1 else 0)
    && (answers == 1 ==> x.pending != Some(c))
  }

  ghost predicate Clean(s: State, f: string, c: Command, answers: nat) {
    IsOpen(s, f) && CleanSession(Find(s.sessions, f).value, s.inFlight, c, answers)
  }

  lemma PreviousIn(before: seq<Message>, said: seq<Message>, c: Command)
    ensures Previous(before + said, c).Some? <==> Previous(before, c).Some? || Previous(said, c).Some?
  {
    if Previous(before, c).Some? {
      var m :| m in before && m.Answer? && m.command == c;
      assert m in before + said;
    } else if Previous(said, c).Some? {
      var m :| m in said && m.Answer? && m.command == c;
      assert m in before + said;
    }
  }

  // A step that says nothing leaves a session that it leaves open as it was.
  lemma QuietStep(s: State, step: Step, f: string)
    requires Inv(s) && IsOpen(s, f) && !step.Ask? && !step.Reply? && IsOpen(Apply(s, step), f)
    ensures Find(Apply(s, step).sessions, f) == Find(s.sessions, f)
  {
    var y := Find(Apply(s, step).sessions, f).value;
    assert y in s.sessions;
    FindIs(s.sessions, y);
  }

  lemma ResponseTo(messages: seq<Message>, d: Command, id: nat, c: Command)
    ensures var speech := Response(messages, d, id);
      && (Previous(messages + speech.said, c).Some? <==> Previous(messages, c).Some?)
      && (speech.pending == Some(c) ==> c == d && Previous(messages, c) == None)
      && (speech.pending.Some? ==> speech.pending == Some(d) && d != Locate)
  {
    PreviousIn(messages, Response(messages, d, id).said, c);
  }

  // What a command does to a session that is free, and to every other one.
  lemma AskOutcome(s: State, g: string, d: Command, f: string)
    requires Inv(s) && IsOpen(s, g) && Find(s.sessions, g).value.pending.None?
    ensures var x, t := Find(s.sessions, g).value, DoAsk(s, g, d);
      var speech := Response(x.messages, d, s.nextId);
      && Find(t.sessions, f) ==
         (if f == g then Some(Session(g, x.messages + speech.said, speech.pending)) else Find(s.sessions, f))
      && t.inFlight ==
         if speech.pending.Some? then s.inFlight[s.nextRequest := Request(g, d)] else s.inFlight
    ensures s.nextRequest !in s.inFlight
  {
    var speech := Response(Find(s.sessions, g).value.messages, d, s.nextId);
    SayFinds(s.sessions, g, speech.said, speech.pending, f);
    hide Response, Find, Say, Inv;
  }

  lemma AskStaysClean(x: Session, inFlight: map<nat, Request>, r: nat, d: Command, id: nat, c: Command, answers: nat)
    requires CleanSession(x, inFlight, c, answers) && x.pending.None? && r !in inFlight
    ensures var speech := Response(x.messages, d, id);
      var after := if speech.pending.Some? then inFlight[r := Request(x.finding, d)] else inFlight;
      CleanSession(Session(x.finding, x.messages + speech.said, speech.pending), after, c, answers)
  {
    ResponseTo(x.messages, d, id, c);
    hide Response, Previous;
  }

  lemma AskIgnored(s: State, g: string, d: Command)
    requires IsOpen(s, g) ==> Find(s.sessions, g).value.pending.Some?
    ensures DoAsk(s, g, d) == s
  {
  }

  lemma AskStep(s: State, g: string, d: Command, f: string, c: Command, answers: nat)
    requires Inv(s) && Clean(s, f, c, answers)
    ensures Clean(DoAsk(s, g, d), f, c, answers)
  {
    hide DoAsk, Inv, Response, Find, CleanSession, Previous;
    var session := Find(s.sessions, g);
    if session.Some? && session.value.pending.None? {
      AskOutcome(s, g, d, f);
      if f == g {
        AskStaysClean(session.value, s.inFlight, s.nextRequest, d, s.nextId, c, answers);
      } else {
        AskedElsewhere(Find(s.sessions, f).value, s.inFlight, s.nextRequest, Request(g, d), c, answers);
      }
    } else {
      AskIgnored(s, g, d);
    }
  }

  lemma AskedElsewhere(x: Session, inFlight: map<nat, Request>, r: nat, q: Request, c: Command, answers: nat)
    requires CleanSession(x, inFlight, c, answers) && q.finding != x.finding && r !in inFlight
    ensures CleanSession(x, inFlight[r := q], c, answers)
  {
  }

  lemma ReplyStep(s: State, r: nat, result: Result<Data, string>, f: string, c: Command, answers: nat)
    requires Inv(s) && Clean(s, f, c, answers) && r in s.inFlight
    ensures Clean(DoReply(s, r, result), f, c, answers + if IsAnswer(s, Reply(r, result), f, c) then 1 else 0)
  {
    var q := s.inFlight[r];
    var reply := Arrival(s.nextId, q.command, result);
    SayFinds(s.sessions, q.finding, [reply], None, f);
    PreviousIn(Find(s.sessions, f).value.messages, [reply], c);
    hide Find, Say, IdsAreGood, Distinct;
  }

  lemma StepKeepsClean(s: State, step: Step, f: string, c: Command, answers: nat)
    requires Inv(s) && Clean(s, f, c, answers) && Enabled(s, step) && IsOpen(Apply(s, step), f)
    ensures Clean(Apply(s, step), f, c, answers + if IsAnswer(s, step, f, c) then 1 else 0)
  {
    match step
    case Ask(g, d) => AskStep(s, g, d, f, c, answers);
    case Reply(r, result) => ReplyStep(s, r, result, f, c, answers);
    case _ => QuietStep(s, step, f);
  }

  lemma {:induction false} CleanHolds(s: State, steps: seq<Step>, f: string, c: Command)
    requires Inv(s) && Clean(s, f, c, 0) && RunFrom(s, steps) && StaysOpen(s, steps, f)
    ensures Clean(Exec(s, steps), f, c, Answers(s, steps, f, c))
  {
    if steps != [] {
      var front := steps[..|steps| - 1];
      CleanHolds(s, front, f, c);
      InvHolds(s, front);
      StepKeepsClean(Exec(s, front), steps[|steps| - 1], f, c, Answers(s, front, f, c));
    }
  }

  // What opening a finding that had no session leaves.
  lemma JustOpened(s0: State, f: string)
    requires Inv(s0) && !IsOpen(s0, f)
    ensures Inv(DoOpen(s0, f)) && Find(DoOpen(s0, f).sessions, f) == Some(Session(f, [], None))
  {
    OpenKeepsInv(s0, f);
    var ss := DoOpen(s0, f).sessions;
    assert ss[|ss| - 1] == Session(f, [], None);
    FindIs(ss, ss[|ss| - 1]);
  }

  /**
   In a session opened while no request about its finding was on its way, and never closed or
   pushed out since, at most one request per command ever returns an answer.
   */
  lemma OneAnswerPerCommand(s0: State, steps: seq<Step>, f: string, c: Command)
    requires Inv(s0) && !IsOpen(s0, f) && Idle(s0, f)
    requires RunFrom(DoOpen(s0, f), steps) && StaysOpen(DoOpen(s0, f), steps, f)
    ensures Answers(DoOpen(s0, f), steps, f, c) <= 1
  {
    JustOpened(s0, f);
    CleanHolds(DoOpen(s0, f), steps, f, c);
  }

  // ------------------------------------------------------------ a session reopened too early

  // Ask again in the new session; the old reply lands in it, then the new one.
  function Twice(s: State, r: nat): seq<Step>
    requires r in s.inFlight
  {
    var reply := Ok(Data(1, false, ""));
    [Ask(s.inFlight[r].finding, s.inFlight[r].command), Reply(r, reply), Reply(s.nextRequest, reply)]
  }

  lemma Extend(s: State, steps: seq<Step>, step: Step, f: string, c: Command)
    requires RunFrom(s, steps) && Enabled(Exec(s, steps), step)
    ensures RunFrom(s, steps + [step]) && Exec(s, steps + [step]) == Apply(Exec(s, steps), step)
    ensures StaysOpen(s, steps + [step], f) <==> StaysOpen(s, steps, f) && IsOpen(Exec(s, steps + [step]), f)
    ensures Answers(s, steps + [step], f, c)
         == Answers(s, steps, f, c) + if IsAnswer(Exec(s, steps), step, f, c) then 1 else 0
  {
    assert (steps + [step])[..|steps|] == steps;
  }

  lemma Heard(t: State, r: nat, reply: Result<Data, string>, f: string, c: Command)
    requires Inv(t) && IsOpen(t, f) && r in t.inFlight && t.inFlight[r] == Request(f, c)
    ensures Inv(DoReply(t, r, reply)) && IsOpen(DoReply(t, r, reply), f)
    ensures DoReply(t, r, reply).inFlight == t.inFlight - {r}
  {
    ReplyKeepsInv(t, r, reply);
    SayFinds(t.sessions, f, [Arrival(t.nextId, c, reply)], None, f);
    hide Find, Say, Inv;
  }

  // An answer that arrives while the session is open counts, and leaves it open.
  lemma Deliver(s: State, steps: seq<Step>, t: State, r: nat, reply: Result<Data, string>, f: string, c: Command)
    requires RunFrom(s, steps) && StaysOpen(s, steps, f) && t == Exec(s, steps) && reply.Ok?
    requires r in t.inFlight && t.inFlight[r] == Request(f, c) && IsOpen(DoReply(t, r, reply), f)
    ensures var more := steps + [Reply(r, reply)];
      && RunFrom(s, more) && StaysOpen(s, more, f) && Exec(s, more) == DoReply(t, r, reply)
      && Answers(s, more, f, c) == Answers(s, steps, f, c) + 1
  {
    hide RunFrom, Exec, StaysOpen, Answers, DoReply, IsOpen, Find;
    Extend(s, steps, Reply(r, reply), f, c);
  }

  // The new session's own request joins the one in flight.
  lemma AskedAgain(s: State, r: nat, f: string, c: Command)
    requires Inv(s) && Find(s.sessions, f) == Some(Session(f, [], None))
    requires r in s.inFlight && s.inFlight[r] == Request(f, c)
    ensures var t := DoAsk(s, f, c);
      && Inv(t) && IsOpen(t, f) && r in t.inFlight && t.inFlight[r] == Request(f, c)
      && s.nextRequest != r && s.nextRequest in t.inFlight && t.inFlight[s.nextRequest] == Request(f, c)
  {
    AskOutcome(s, f, c, f);
    AskKeepsInv(s, f, c);
    hide DoAsk;
  }

  lemma FirstAsk(s: State, f: string, c: Command)
    requires IsOpen(s, f) && IsOpen(DoAsk(s, f, c), f)
    ensures RunFrom(s, [Ask(f, c)]) && Exec(s, [Ask(f, c)]) == DoAsk(s, f, c)
    ensures StaysOpen(s, [Ask(f, c)], f) && Answers(s, [Ask(f, c)], f, c) == 0
  {
    assert StaysOpen(s, [], f) && Answers(s, [], f, c) == 0 && Exec(s, []) == s;
    assert Enabled(s, Ask(f, c)) && Apply(s, Ask(f, c)) == DoAsk(s, f, c);
    hide DoAsk, IsOpen, Find;
    Extend(s, [], Ask(f, c), f, c);
    assert [] + [Ask(f, c)] == [Ask(f, c)];
  }

  lemma TwoAnswers(s: State, r: nat, f: string, c: Command)
    requires Inv(s) && Find(s.sessions, f) == Some(Session(f, [], None))
    requires r in s.inFlight && s.inFlight[r] == Request(f, c)
    ensures RunFrom(s, Twice(s, r)) && StaysOpen(s, Twice(s, r), f) && Answers(s, Twice(s, r), f, c) == 2
  {
    assert IsOpen(s, f);
    hide RunFrom, Exec, StaysOpen, Answers, DoAsk, DoReply, Find, Inv, IsOpen;
    var q, reply, t := s.nextRequest, Ok(Data(1, false, "")), DoAsk(s, f, c);
    AskedAgain(s, r, f, c);
    FirstAsk(s, f, c);
    Heard(t, r, reply, f, c);
    Deliver(s, [Ask(f, c)], t, r, reply, f, c);
    assert [Ask(f, c)] + [Reply(r, reply)] == [Ask(f, c), Reply(r, reply)];
    Heard(DoReply(t, r, reply), q, reply, f, c);
    Deliver(s, [Ask(f, c), Reply(r, reply)], DoReply(t, r, reply), q, reply, f, c);
    assert [Ask(f, c), Reply(r, reply)] + [Reply(q, reply)] == Twice(s, r);
  }

  /**
   Exactly when nothing was on its way at its opening can a session not be made, by any later
   steps that keep it open, to pay for one command twice: closing a session with a request in
   flight and opening it again breaks the promise.
   */
  lemma OneAnswerExactlyWhenIdle(s0: State, f: string)
    requires Inv(s0) && !IsOpen(s0, f)
    ensures var s := DoOpen(s0, f);
      Idle(s0, f) <==>
      forall steps, c | RunFrom(s, steps) && StaysOpen(s, steps, f) :: Answers(s, steps, f, c) <= 1
  {
    var s := DoOpen(s0, f);
    JustOpened(s0, f);
    if Idle(s0, f) {
      forall steps, c | RunFrom(s, steps) && StaysOpen(s, steps, f)
        ensures Answers(s, steps, f, c) <= 1
      {
        OneAnswerPerCommand(s0, steps, f, c);
      }
    } else {
      var r :| r in s.inFlight && s.inFlight[r].finding == f;
      TwoAnswers(s, r, f, s.inFlight[r].command);
    }
  }

  lemma ThreeSteps(s: State, a: Step, b: Step, c: Step)
    requires Enabled(s, a) && Enabled(Apply(s, a), b) && Enabled(Apply(Apply(s, a), b), c)
    ensures RunFrom(s, [a, b, c]) && Exec(s, [a, b, c]) == Apply(Apply(Apply(s, a), b), c)
  {
    hide Enabled, Apply;
    assert [a, b, c][..2] == [a, b] && [a, b][..1] == [a] && [a][..0] == [];
    assert RunFrom(s, []) && Exec(s, []) == s;
    assert RunFrom(s, [a]) && Exec(s, [a]) == Apply(s, a);
    assert RunFrom(s, [a, b]) && Exec(s, [a, b]) == Apply(Apply(s, a), b);
  }

  lemma FreshIsSane(f: string)
    ensures Inv(FRESH) && !IsOpen(FRESH, f)
  {
  }

  // A command sent from a session that was just opened, and the session closed at once.
  lemma AskedAndClosed(s0: State, f: string, c: Command)
    requires Inv(s0) && !IsOpen(s0, f) && c != Locate
    ensures var s := DoClose(DoAsk(DoOpen(s0, f), f, c), f); !IsOpen(s, f) && !Idle(s, f)
  {
    JustOpened(s0, f);
    var s := DoOpen(s0, f);
    hide DoOpen, DoAsk, Inv;
    AskOutcome(s, f, c, f);
    assert Previous([], c) == None;
    var t := DoAsk(s, f, c);
    assert s.nextRequest in t.inFlight && t.inFlight[s.nextRequest] == Request(f, c);
    assert Find(Without(t.sessions, f), f).None?;
  }

  /** From the start, for every finding: a session closed at once leaves its request in flight. */
  lemma CanCloseWhileAsked(f: string, c: Command)
    requires c != Locate
    ensures RunFrom(FRESH, [Open(f), Ask(f, c), Close(f)])
    ensures var s := Exec(FRESH, [Open(f), Ask(f, c), Close(f)]); Inv(s) && !IsOpen(s, f) && !Idle(s, f)
  {
    FreshIsSane(f);
    AskedAndClosed(FRESH, f, c);
    ThreeSteps(FRESH, Open(f), Ask(f, c), Close(f));
    hide RunFrom, Exec, Inv, IsOpen, Idle, DoOpen, DoAsk, DoClose;
    InvHolds(FRESH, [Open(f), Ask(f, c), Close(f)]);
  }

  // ------------------------------------------------------------ what a session keeps

  /** No step rewrites a session that it leaves open: its messages only grow. */
  lemma HistoryOnlyGrows(s: State, step: Step, f: string)
    requires Inv(s) && Enabled(s, step) && IsOpen(s, f) && IsOpen(Apply(s, step), f)
    ensures Find(s.sessions, f).value.messages <= Find(Apply(s, step).sessions, f).value.messages
  {
    match step
    case Ask(g, d) =>
      if IsOpen(s, g) && Find(s.sessions, g).value.pending.None? {
        AskOutcome(s, g, d, f);
        hide DoAsk;
      }
      hide Response, Find, Inv;
    case Reply(r, result) =>
      var q := s.inFlight[r];
      SayFinds(s.sessions, q.finding, [Arrival(s.nextId, q.command, result)], None, f);
      hide Find, Say, Inv;
    case _ => QuietStep(s, step, f);
  }

  /**
   A reply that finds its session open is shown there and nowhere else: the server's data under the
   command that asked for it, or what went wrong; and the session is free again.
   */
  lemma ReplyIsShown(s: State, r: nat, result: Result<Data, string>)
    requires Inv(s) && r in s.inFlight && IsOpen(s, s.inFlight[r].finding)
    ensures var q, t := s.inFlight[r], Apply(s, Reply(r, result));
      && t.inFlight == s.inFlight - {r} && t.activeId == s.activeId && t.minimized == s.minimized
      && IsOpen(t, q.finding)
      && var x, y := Find(s.sessions, q.finding).value, Find(t.sessions, q.finding).value;
      && |y.messages| == |x.messages| + 1 && y.messages[..|x.messages|] == x.messages && y.pending == None
      && var last := y.messages[|x.messages|];
      && (result.Ok? ==> last == Message.Answer(s.nextId, q.command, result.value))
      && (result.Err? ==> last == Message.Problem(s.nextId, q.command, result.error))
    ensures forall g | g != s.inFlight[r].finding ::
      Find(Apply(s, Reply(r, result)).sessions, g) == Find(s.sessions, g)
  {
    var q := s.inFlight[r];
    var said := [Arrival(s.nextId, q.command, result)];
    forall g
      ensures Find(s.sessions, g).None? ==> Find(Say(s.sessions, q.finding, said, None), g).None?
      ensures Find(s.sessions, g).Some? ==>
        Find(Say(s.sessions, q.finding, said, None), g) == Some(Told(Find(s.sessions, g).value, q.finding, said, None))
    {
      SayFinds(s.sessions, q.finding, said, None, g);
    }
    hide Find, Say, Inv;
  }

  /** A reply whose session is gone changes no session. */
  lemma ReplyWithoutSessionIsDropped(s: State, r: nat, result: Result<Data, string>)
    requires Inv(s) && r in s.inFlight && !IsOpen(s, s.inFlight[r].finding)
    ensures Apply(s, Reply(r, result)).sessions == s.sessions
  {
  }

  /**
   What a command does in a session that is free: locating is answered on the spot; a command
   without an answer so far is sent, and is pending.
   */
  lemma AskIsSent(s: State, f: string, c: Command)
    requires Inv(s) && IsOpen(s, f) && Find(s.sessions, f).value.pending == None
    ensures var x, t := Find(s.sessions, f).value, Apply(s, Ask(f, c));
      && IsOpen(t, f) && t.activeId == s.activeId
      && var y := Find(t.sessions, f).value;
      && (c == Locate ==>
            y.messages == x.messages + [Asked(s.nextId, c), Located(s.nextId + 1)] && y.pending == None
            && t.inFlight == s.inFlight)
      && (c != Locate && (forall m | m in x.messages :: !(m.Answer? && m.command == c)) ==>
            y.messages == x.messages + [Asked(s.nextId, c)] && y.pending == Some(c)
            && t.inFlight == s.inFlight[s.nextRequest := Request(f, c)])
    ensures forall g | g != f :: Find(Apply(s, Ask(f, c)).sessions, g) == Find(s.sessions, g)
  {
    forall g
      ensures g != f ==> Find(DoAsk(s, f, c).sessions, g) == Find(s.sessions, g)
    {
      AskOutcome(s, f, c, g);
    }
    AskOutcome(s, f, c, f);
    hide Find, Inv;
  }

  /** A command to a session that is closed or waiting for an answer does nothing. */
  lemma BusyAskIsIgnored(s: State, f: string, c: Command)
    requires forall x | x in s.sessions && x.finding == f :: x.pending != None
    ensures Apply(s, Ask(f, c)) == s
  {
  }

  /** Opening a finding that had no session keeps the others in order, but for the oldest of four. */
  lemma OpeningDropsTheOldest(s: State, f: string)
    requires Inv(s) && !IsOpen(s, f)
    ensures var kept := if |s.sessions| < 4 then s.sessions else s.sessions[1..];
      && DoOpen(s, f).sessions == kept + [Session(f, [], None)]
      && DoOpen(s, f).activeId == Some(f)
      && forall x | x in s.sessions && x !in kept :: |s.sessions| == 4 && x == s.sessions[0]
  {
    assert s.sessions != [] ==> s.sessions == [s.sessions[0]] + s.sessions[1..];
  }

  lemma {:induction false} WithoutConcat(a: seq<Session>, b: seq<Session>, f: string)
    ensures Without(a + b, f) == Without(a, f) + Without(b, f)
  {
    if b == [] {
      assert a + b == a;
    } else {
      assert (a + b)[..|a + b| - 1] == a + b[..|b| - 1];
      WithoutConcat(a, b[..|b| - 1], f);
    }
  }

  lemma {:induction false} WithoutOthers(ss: seq<Session>, f: string)
    requires forall x | x in ss :: x.finding != f
    ensures Without(ss, f) == ss
  {
    if ss != [] {
      var front, x := ss[..|ss| - 1], ss[|ss| - 1];
      assert ss == front + [x] && x in ss;
      forall y | y in front
        ensures y.finding != f
      {
        assert y in ss;
      }
      WithoutOthers(front, f);
    }
  }

  lemma WithoutOne(before: seq<Session>, x: Session, after: seq<Session>)
    requires forall y | y in before + after :: y.finding != x.finding
    ensures Without(before + [x] + after, x.finding) == before + after
  {
    forall y | y in before || y in after
      ensures y.finding != x.finding
    {
      assert y in before + after;
    }
    WithoutOthers(before, x.finding);
    WithoutOthers(after, x.finding);
    WithoutConcat(before, [x], x.finding);
    WithoutConcat(before + [x], after, x.finding);
    assert Without([x], x.finding) == [];
  }

  /** Closing takes out that one session; if it was active, the last one left becomes active. */
  lemma ClosingKeepsTheOthers(s: State, before: seq<Session>, x: Session, after: seq<Session>)
    requires Inv(s) && s.sessions == before + [x] + after
    ensures var t := DoClose(s, x.finding);
      && t.sessions == before + after
      && (s.activeId != Some(x.finding) ==> t.activeId == s.activeId)
      && (s.activeId == Some(x.finding) && after != [] ==> t.activeId == Some(after[|after| - 1].finding))
      && (s.activeId == Some(x.finding) && after == [] && before != [] ==>
            t.activeId == Some(before[|before| - 1].finding))
      && (before + after == [] ==> !t.minimized)
  {
    assert s.sessions[|before|] == x;
    forall y | y in before + after
      ensures y.finding != x.finding
    {
      var i :| 0 <= i < |before + after| && (before + after)[i] == y;
      assert s.sessions[if i < |before| then i else i + 1] == y;
    }
    WithoutOne(before, x, after);
    hide Without;
  }

  lemma {:induction false} PreviousIsFirst(messages: seq<Message>, c: Command, i: nat)
    requires i < |messages| && messages[i].Answer? && messages[i].command == c
    requires forall j | 0 <= j < i :: !(messages[j].Answer? && messages[j].command == c)
    ensures Previous(messages, c) == Some(messages[i].data)
  {
    if i > 0 {
      PreviousIsFirst(messages[1..], c, i - 1);
    }
  }

  /** What is shown again is the first answer of the session to that command. */
  lemma RepeatShowsTheFirst(s: State, f: string, c: Command, i: nat)
    requires Inv(s) && IsOpen(s, f) && c != Locate && Find(s.sessions, f).value.pending.None?
    requires var ms := Find(s.sessions, f).value.messages;
      && i < |ms| && ms[i].Answer? && ms[i].command == c
      && forall j | 0 <= j < i :: !(ms[j].Answer? && ms[j].command == c)
    ensures var x, t := Find(s.sessions, f).value, Apply(s, Ask(f, c));
      && IsOpen(t, f) && t.inFlight == s.inFlight
      && Find(t.sessions, f).value.messages == x.messages
        + [Asked(s.nextId, c), Answer(s.nextId + 1, c, Data(0, true, x.messages[i].data.body))]
  {
    PreviousIsFirst(Find(s.sessions, f).value.messages, c, i);
    AskOutcome(s, f, c, f);
    hide DoAsk, Inv, Find, Previous;
  }

  /** Asking again what this session has an answer to sends nothing and shows that answer, uncharged. */
  lemma RepeatCostsNothing(s: State, f: string, c: Command)
    requires Inv(s) && IsOpen(s, f) && c != Locate
    requires var x := Find(s.sessions, f).value; x.pending.None? && Previous(x.messages, c).Some?
    ensures var x, t := Find(s.sessions, f).value, DoAsk(s, f, c);
      && t.inFlight == s.inFlight && IsOpen(t, f)
      && var y := Find(t.sessions, f).value; var last := y.messages[|y.messages| - 1];
      && |y.messages| == |x.messages| + 2 && y.pending.None?
      && last.Answer? && last.command == c && last.data.charged == 0 && last.data.alreadyPaid
      && exists m | m in x.messages :: m.Answer? && m.command == c && m.data.body == last.data.body
  {
    AskOutcome(s, f, c, f);
    hide DoAsk, Inv;
  }

  // ------------------------------------------------------------ the store as the panel runs it

  class AssistantStore {
    var sessions: seq<Session>
    var activeId: Option<string>
    var minimized: bool
    var nextId: nat
    var inFlight: map<nat, Request>
    var nextRequest: nat

    function Now(): State
      reads this
    {
      State(sessions, activeId, minimized, nextId, inFlight, nextRequest)
    }

    constructor ()
      ensures Now() == FRESH
    {
      sessions, activeId, minimized, nextId, inFlight, nextRequest := [], None, false, 1, map[], 0;
    }

    method OpenFinding(f: string)
      modifies this
      ensures Now() == Apply(old(Now()), Open(f))
      ensures activeId == Some(f) && !minimized
      ensures (exists x | x in old(sessions) :: x.finding == f) ==> sessions == old(sessions)
    {
      if Find(sessions, f).None? {
        sessions := LastFour(sessions + [Session(f, [], None)]);
      }
      activeId, minimized := Some(f), false;
    }

    method FocusFinding(f: string)
      modifies this
      ensures Now() == Apply(old(Now()), Focus(f))
      ensures activeId == Some(f) && !minimized && sessions == old(sessions)
    {
      activeId, minimized := Some(f), false;
    }

    method MinimizePanel()
      modifies this`minimized
      ensures Now() == Apply(old(Now()), Step.Minimize)
      ensures minimized
    {
      minimized := true;
    }

    method CloseFinding(f: string)
      modifies this
      ensures Now() == Apply(old(Now()), Close(f))
    {
      sessions := Without(sessions, f);
      if activeId == Some(f) {
        activeId := if sessions == [] then None else Some(sessions[|sessions| - 1].finding);
      }
      if sessions == [] {
        minimized := false;
      }
    }

    // run() up to its await, if it gets there: the request it then waits for.
    method BeginRun(f: string, c: Command) returns (request: Option<nat>)
      modifies this
      ensures Now() == Apply(old(Now()), Ask(f, c))
      ensures request == if nextRequest > old(nextRequest) then Some(old(nextRequest)) else None
    {
      var session := Find(sessions, f);
      request := None;
      if session.None? || session.value.pending.Some? {
        return;
      }
      var ask := Asked(nextId, c);
      nextId := nextId + 1;
      if c == Locate {
        sessions := Say(sessions, f, [ask, Located(nextId)], None);
        nextId := nextId + 1;
        return;
      }
      var previous := Previous(session.value.messages, c);
      if previous.Some? {
        var again := previous.value.(charged := 0, alreadyPaid := true);
        sessions := Say(sessions, f, [ask, Answer(nextId, c, again)], None);
        nextId := nextId + 1;
        return;
      }
      sessions := Say(sessions, f, [ask], Some(c));
      request := Some(nextRequest);
      inFlight := inFlight[nextRequest := Request(f, c)];
      nextRequest := nextRequest + 1;
    }

    // run() from its await on.
    method EndRun(r: nat, result: Result<Data, string>)
      requires r in inFlight
      modifies this
      ensures Now() == Apply(old(Now()), Reply(r, result))
    {
      var q := inFlight[r];
      inFlight := inFlight - {r};
      var reply: Message;
      match result {
        case Ok(data) => reply := Answer(nextId, q.command, data);
        case Err(text) => reply := Problem(nextId, q.command, text);
      }
      nextId := nextId + 1;
      sessions := Say(sessions, q.finding, [reply], None);
    }
  }
}
