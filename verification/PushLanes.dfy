/**
 The pushes of an organisation's published set: one in flight at a time, and one later push shared by every act that
 arrives meanwhile. Acts commit, ask for a push, and are answered; a push reads the committed set while it is in flight.
 All of these interleave.
 */
module PushLanes {
  import opened Values

  datatype Phase = Asked | Building | Settled(ok: bool)

  /** A push: the commits there were when it started, and the commits each of its reads of the set saw. */
  datatype Push = Push(phase: Phase, startedAt: nat, seen: seq<nat>)

  /** An organisation that has a push in flight: the later acts' shared push, and what starts it. */
  datatype Lane = Lane(waiting: Option<nat>, start: Option<nat>)

  /** An act: the commits with its own, the push it was given, how many pushes had ended then, and its answer. */
  datatype Act = Act(version: nat, push: Option<nat>, completedThen: nat, answer: Option<bool>)

  /** One organisation. `awaiting` is the push that `serveWaiting` is waiting for. */
  datatype Org = Org(commits: nat, pushes: seq<Push>, completed: nat, lane: Option<Lane>, awaiting: Option<nat>,
                     acts: seq<Act>)

  const IDLE := Org(0, [], 0, None, None, [])

  datatype Step =
    | Commit
    | Resend
    | Request(act: nat)
    | Read(push: nat)
    | Settle(push: nat, ok: bool)
    | Resume
    | Answer(act: nat)

  function Started(o: Org): Push {
    Push(Building, o.commits, [])
  }

  /** `takeTurn`: the push an act gets. */
  function TakeTurn(o: Org): (Org, nat) {
    match o.lane
    case Some(lane) =>
      if lane.waiting.Some? then (o, lane.waiting.value)
      else
        var id := |o.pushes|;
        (o.(pushes := o.pushes + [Push(Asked, 0, [])], lane := Some(Lane(Some(id), Some(id)))), id)
    case None =>
      var id := |o.pushes|;
      (o.(pushes := o.pushes + [Started(o)], lane := Some(Lane(None, None)), awaiting := Some(id)), id)
  }

  predicate CanRequest(o: Org, a: nat) {
    a < |o.acts| && o.acts[a].push.None?
  }

  predicate CanResume(o: Org) {
    o.lane.Some? && o.awaiting.Some? && o.awaiting.value < |o.pushes| && o.pushes[o.awaiting.value].phase.Settled?
  }

  predicate CanAnswer(o: Org, a: nat) {
    a < |o.acts| && o.acts[a].answer.None? && o.acts[a].push.Some? && o.acts[a].push.value < |o.pushes| &&
    o.pushes[o.acts[a].push.value].phase.Settled?
  }

  function StartPush(o: Org, id: nat): seq<Push> {
    if id < |o.pushes| then o.pushes[id := Started(o)] else o.pushes
  }

  /** `serveWaiting` once the push it awaits is over: it starts the shared push, or frees the lane. */
  function Resumed(o: Org): Org
    requires CanResume(o)
  {
    var lane := o.lane.value;
    if lane.waiting.Some? then
      o.(pushes := if lane.start.Some? then StartPush(o, lane.start.value) else o.pushes,
         lane := Some(Lane(None, None)), awaiting := lane.waiting)
    else o.(lane := None, awaiting := None)
  }

  /** One step of one organisation. A step that cannot be taken changes nothing. */
  function After(o: Org, step: Step): Org {
    match step
    case Commit => o.(commits := o.commits + 1, acts := o.acts + [Act(o.commits + 1, None, 0, None)])
    case Resend => o.(acts := o.acts + [Act(o.commits, None, 0, None)])
    case Request(a) =>
      if CanRequest(o, a) then
        var (o', id) := TakeTurn(o);
        o'.(acts := o.acts[a := o.acts[a].(push := Some(id), completedThen := o.completed)])
      else o
    case Read(p) =>
      if p < |o.pushes| && o.pushes[p].phase.Building?
      then o.(pushes := o.pushes[p := o.pushes[p].(seen := o.pushes[p].seen + [o.commits])]) else o
    case Settle(p, ok) =>
      if p < |o.pushes| && o.pushes[p].phase.Building?
      then o.(pushes := o.pushes[p := o.pushes[p].(phase := Settled(ok))], completed := o.completed + 1) else o
    case Resume => if CanResume(o) then Resumed(o) else o
    case Answer(a) =>
      if CanAnswer(o, a)
      then o.(acts := o.acts[a := o.acts[a].(answer := Some(o.pushes[o.acts[a].push.value].phase.ok))]) else o
  }

  function Run(o: Org, steps: seq<Step>): Org
    decreases |steps|
  {
    if steps == [] then o else Run(After(o, steps[0]), steps[1..])
  }

  // ---- the lanes of a server ---------------------------------------------------------------------

  type Orgs = map<string, Org>

  function OrgOf(orgs: Orgs, name: string): Org {
    if name in orgs then orgs[name] else IDLE
  }

  class Server {
    var orgs: Orgs

    constructor ()
      ensures orgs == map[]
    {
      orgs := map[];
    }

    /** An act asks for its push: started at once, or the one every waiting act shares. */
    method Take(name: string, act: nat) returns (push: nat)
      requires CanRequest(OrgOf(orgs, name), act)
      modifies this
      ensures orgs == old(orgs)[name := After(OrgOf(old(orgs), name), Request(act))]
      ensures orgs[name].acts[act].push == Some(push)
    {
      var o := OrgOf(orgs, name);
      var acts := o.acts;
      if o.lane.Some? {
        var lane := o.lane.value;
        if lane.waiting.None? {
          o := o.(pushes := o.pushes + [Push(Asked, 0, [])]);
          lane := Lane(Some(|o.pushes| - 1), Some(|o.pushes| - 1));
          o := o.(lane := Some(lane));
        }
        push := lane.waiting.value;
      } else {
        push := |o.pushes|;
        o := o.(lane := Some(Lane(None, None)));
        o := o.(pushes := o.pushes + [Push(Building, o.commits, [])]);
        o := o.(awaiting := Some(push));
      }
      orgs := orgs[name := o.(acts := acts[act := acts[act].(push := Some(push), completedThen := o.completed)])];
    }

    /** One turn of the loop in `serveWaiting`. */
    method Serve(name: string)
      requires CanResume(OrgOf(orgs, name))
      modifies this
      ensures orgs == old(orgs)[name := After(OrgOf(old(orgs), name), Resume)]
    {
      var o := OrgOf(orgs, name);
      var waiting, start := o.lane.value.waiting, o.lane.value.start;
      if waiting.Some? {
        o := o.(lane := Some(Lane(None, None)));
        if start.Some? {
          o := o.(pushes := StartPush(o, start.value));
        }
        o := o.(awaiting := waiting);
      } else {
        o := o.(lane := None, awaiting := None);
      }
      orgs := orgs[name := o];
    }
  }

  // ---- what every run keeps ----------------------------------------------------------------------

  /** Pushes end in the order they were asked for; the lane is there exactly while one is not over and served. */
  ghost predicate LaneOk(o: Org) {
    (forall p :: 0 <= p < |o.pushes| ==> (o.pushes[p].phase.Settled? <==> p < o.completed)) &&
    match o.lane
    case None => o.awaiting.None? && o.completed == |o.pushes|
    case Some(lane) =>
      o.awaiting.Some? && lane.start == lane.waiting &&
      var id := o.awaiting.value;
      id < |o.pushes| && (o.completed == id || o.completed == id + 1) && !o.pushes[id].phase.Asked? &&
      if lane.waiting.None? then |o.pushes| == id + 1
      else lane.waiting.value == id + 1 && |o.pushes| == id + 2 && o.pushes[id + 1].phase.Asked?
  }

  /** A push that has started saw only what was committed by its start or after it. */
  ghost predicate ReadsOk(p: Push, commits: nat) {
    (p.phase.Asked? ==> p.seen == []) && p.startedAt <= commits &&
    forall k :: 0 <= k < |p.seen| ==> p.startedAt <= p.seen[k] <= commits
  }

  ghost predicate PushesOk(o: Org) {
    (forall p :: 0 <= p < |o.pushes| ==> ReadsOk(o.pushes[p], o.commits)) &&
    (forall p, q :: 0 <= p < q < |o.pushes| && !o.pushes[q].phase.Asked? ==>
     ReadsOk(o.pushes[p], o.pushes[q].startedAt))
  }

  ghost predicate ActOk(a: Act, pushes: seq<Push>, completed: nat, commits: nat) {
    a.version <= commits &&
    (a.push.Some? ==>
      a.push.value < |pushes| && a.completedThen <= completed &&
      a.completedThen <= a.push.value <= a.completedThen + 1 &&
      (!pushes[a.push.value].phase.Asked? ==> a.version <= pushes[a.push.value].startedAt)) &&
    (a.answer.Some? ==> a.push.Some? && pushes[a.push.value].phase == Settled(a.answer.value))
  }

  ghost predicate ActsOk(o: Org) {
    forall a :: 0 <= a < |o.acts| ==> ActOk(o.acts[a], o.pushes, o.completed, o.commits)
  }

  ghost predicate Ok(o: Org) {
    LaneOk(o) && PushesOk(o) && ActsOk(o)
  }

  /** Asking for a turn adds a push, started or waiting, or joins the one that waits. */
  lemma TurnKeepsLane(o: Org)
    requires LaneOk(o) && PushesOk(o)
    ensures LaneOk(TakeTurn(o).0) && PushesOk(TakeTurn(o).0) && TakeTurn(o).0.commits == o.commits
  {
  }

  lemma ResumeKeepsLane(o: Org)
    requires LaneOk(o) && PushesOk(o) && CanResume(o)
    ensures LaneOk(Resumed(o)) && PushesOk(Resumed(o))
  {
  }

  lemma StepKeepsLane(o: Org, step: Step)
    requires Ok(o)
    ensures LaneOk(After(o, step))
  {
    hide TakeTurn, Resumed, ReadsOk, ActOk;
    TurnKeepsLane(o);
    if CanResume(o) { ResumeKeepsLane(o); }
  }

  /** The push that reads is the last one started, so its new read bounds nothing that started later. */
  lemma ReadKeepsPushes(o: Org, p: nat)
    requires LaneOk(o) && PushesOk(o)
    ensures PushesOk(After(o, Read(p)))
  {
    hide TakeTurn, Resumed;
  }

  lemma StepKeepsPushes(o: Org, step: Step)
    requires Ok(o)
    ensures PushesOk(After(o, step))
  {
    hide TakeTurn, Resumed, LaneOk, ActOk;
    if step.Read? { ReadKeepsPushes(o, step.push); }
    TurnKeepsLane(o);
    if CanResume(o) { ResumeKeepsLane(o); }
  }

  lemma StepKeepsActs(o: Org, step: Step)
    requires Ok(o)
    ensures ActsOk(After(o, step))
  {
  }

  lemma {:induction false} RunKeepsOk(o: Org, steps: seq<Step>)
    requires Ok(o)
    ensures Ok(Run(o, steps))
    decreases |steps|
  {
    if steps != [] {
      StepKeepsLane(o, steps[0]);
      StepKeepsPushes(o, steps[0]);
      StepKeepsActs(o, steps[0]);
      hide After, Ok;
      RunKeepsOk(After(o, steps[0]), steps[1..]);
    }
  }

  /** Organisations do not disturb each other: in a run of a whole server each one sees just its own steps. */
  function ServerRun(orgs: Orgs, steps: seq<(string, Step)>): Orgs
    decreases |steps|
  {
    if steps == [] then orgs
    else ServerRun(orgs[steps[0].0 := After(OrgOf(orgs, steps[0].0), steps[0].1)], steps[1..])
  }

  function StepsOf(steps: seq<(string, Step)>, name: string): seq<Step>
    decreases |steps|
  {
    if steps == [] then []
    else (if steps[0].0 == name then [steps[0].1] else []) + StepsOf(steps[1..], name)
  }

  lemma {:induction false} ServerRunIsOrgRuns(orgs: Orgs, steps: seq<(string, Step)>, name: string)
    ensures OrgOf(ServerRun(orgs, steps), name) == Run(OrgOf(orgs, name), StepsOf(steps, name))
    decreases |steps|
  {
    hide After;
    if steps != [] {
      var orgs' := orgs[steps[0].0 := After(OrgOf(orgs, steps[0].0), steps[0].1)];
      ServerRunIsOrgRuns(orgs', steps[1..], name);
      if steps[0].0 == name {
        assert StepsOf(steps, name) == [steps[0].1] + StepsOf(steps[1..], name);
        assert StepsOf(steps, name)[1..] == StepsOf(steps[1..], name);
        assert OrgOf(orgs', name) == After(OrgOf(orgs, name), steps[0].1);
      } else {
        assert StepsOf(steps, name) == StepsOf(steps[1..], name);
      }
    }
  }

  lemma {:induction false} RunTwice(o: Org, steps: seq<Step>, more: seq<Step>)
    ensures Run(Run(o, steps), more) == Run(o, steps + more)
    decreases |steps|
  {
    if steps == [] {
      assert steps + more == more;
    } else {
      RunTwice(After(o, steps[0]), steps[1..], more);
      assert (steps + more)[1..] == steps[1..] + more;
    }
  }

  // ---- freshness, single flight, order -----------------------------------------------------------

  /**
   The push whose outcome an act receives began building after the act committed, shared or not: every read it made saw
   the act's commit. The outcome is that push's own.
   */
  lemma AnAnswerCoversItsAct(steps: seq<Step>, a: nat)
    requires a < |Run(IDLE, steps).acts| && Run(IDLE, steps).acts[a].answer.Some?
    ensures var o := Run(IDLE, steps);
            var act := o.acts[a];
            act.push.Some? && act.push.value < |o.pushes| &&
            o.pushes[act.push.value].phase == Settled(act.answer.value) &&
            o.pushes[act.push.value].startedAt >= act.version &&
            forall v :: v in o.pushes[act.push.value].seen ==> v >= act.version
  {
    RunKeepsOk(IDLE, steps);
    var o := Run(IDLE, steps);
    assert ActOk(o.acts[a], o.pushes, o.completed, o.commits);
    assert ReadsOk(o.pushes[o.acts[a].push.value], o.commits);
  }

  /** An organisation has one push in flight at a time. */
  lemma OnePushInFlight(steps: seq<Step>, p: nat, q: nat)
    requires p < |Run(IDLE, steps).pushes| && Run(IDLE, steps).pushes[p].phase.Building?
    requires q < |Run(IDLE, steps).pushes| && Run(IDLE, steps).pushes[q].phase.Building?
    ensures p == q
  {
    RunKeepsOk(IDLE, steps);
    assert LaneOk(Run(IDLE, steps));
  }

  /** Whatever a push read, no later push reads anything older. */
  lemma PayloadsNeverGoBack(steps: seq<Step>, p: nat, q: nat, older: nat, newer: nat)
    requires p < q < |Run(IDLE, steps).pushes|
    requires older in Run(IDLE, steps).pushes[p].seen && newer in Run(IDLE, steps).pushes[q].seen
    ensures older <= newer
  {
    RunKeepsOk(IDLE, steps);
    var o := Run(IDLE, steps);
    assert ReadsOk(o.pushes[p], o.pushes[q].startedAt) && ReadsOk(o.pushes[q], o.commits);
  }

  predicate NotStarted(o: Org, p: nat) {
    p < |o.pushes| && o.pushes[p].phase.Asked?
  }

  /** Acts that wait for a push not yet started all wait for the same one. */
  lemma LatecomersShareOnePush(steps: seq<Step>, a: nat, b: nat)
    requires a < |Run(IDLE, steps).acts| && Run(IDLE, steps).acts[a].push.Some?
    requires b < |Run(IDLE, steps).acts| && Run(IDLE, steps).acts[b].push.Some?
    requires NotStarted(Run(IDLE, steps), Run(IDLE, steps).acts[a].push.value)
    requires NotStarted(Run(IDLE, steps), Run(IDLE, steps).acts[b].push.value)
    ensures Run(IDLE, steps).acts[a].push == Run(IDLE, steps).acts[b].push
  {
    RunKeepsOk(IDLE, steps);
    var o := Run(IDLE, steps);
    assert ActOk(o.acts[a], o.pushes, o.completed, o.commits) && ActOk(o.acts[b], o.pushes, o.completed, o.commits);
  }

  // ---- no lost waiter, two pushes at most --------------------------------------------------------

  /** An act keeps the push it was given, and pushes once over stay over. */
  lemma StepKeepsTurn(o: Org, step: Step, a: nat)
    requires a < |o.acts| && o.acts[a].push.Some?
    ensures a < |After(o, step).acts| && After(o, step).acts[a].push == o.acts[a].push
    ensures After(o, step).acts[a].completedThen == o.acts[a].completedThen
  {
  }

  lemma {:induction false} RunKeepsTurn(o: Org, steps: seq<Step>, a: nat)
    requires a < |o.acts| && o.acts[a].push.Some?
    ensures a < |Run(o, steps).acts| && Run(o, steps).acts[a].push == o.acts[a].push
    ensures Run(o, steps).acts[a].completedThen == o.acts[a].completedThen
    decreases |steps|
  {
    if steps != [] {
      StepKeepsTurn(o, steps[0], a);
      RunKeepsTurn(After(o, steps[0]), steps[1..], a);
    }
  }

  /** After an act asks, its push is over as soon as two pushes have ended, and after one when nothing was in flight. */
  lemma TwoPushesAreEnough(before: seq<Step>, a: nat, steps: seq<Step>)
    requires CanRequest(Run(IDLE, before), a)
    ensures var o := Run(IDLE, before);
            var later := Run(After(o, Request(a)), steps);
            var needed := if o.lane.Some? then 2 else 1;
            later.completed >= o.completed + needed ==>
              a < |later.acts| && later.acts[a].push.Some? && later.acts[a].push.value < |later.pushes| &&
              later.pushes[later.acts[a].push.value].phase.Settled?
  {
    var o := Run(IDLE, before);
    var asked := After(o, Request(a));
    RunKeepsOk(IDLE, before);
    assert LaneOk(o);
    RunTwice(IDLE, before, [Request(a)] + steps);
    assert Run(o, [Request(a)] + steps) == Run(asked, steps) by {
      assert ([Request(a)] + steps)[1..] == steps;
    }
    RunKeepsOk(IDLE, before + ([Request(a)] + steps));
    RunKeepsTurn(asked, steps, a);
    var later := Run(asked, steps);
    assert ActOk(later.acts[a], later.pushes, later.completed, later.commits);
  }

  /** The steps that serve those who wait: a push ends, the lane moves on, an answer is given. */
  predicate Serves(o: Org, step: Step) {
    match step
    case Settle(p, _) => p < |o.pushes| && o.pushes[p].phase.Building?
    case Resume => CanResume(o)
    case Answer(a) => CanAnswer(o, a)
    case _ => false
  }

  ghost predicate Waits(a: Act) {
    a.push.Some? && a.answer.None?
  }

  ghost function Waiting(acts: seq<Act>): (r: set<int>)
    ensures forall a :: a in r <==> 0 <= a < |acts| && Waits(acts[a])
  {
    set a | 0 <= a < |acts| && Waits(acts[a])
  }

  /** How many steps of service are still owed. */
  ghost function Owed(o: Org): nat
    requires LaneOk(o)
  {
    |Waiting(o.acts)| +
    if o.lane.None? then 0
    else 1 + (if o.completed == o.awaiting.value then 1 else 0) + (if o.lane.value.waiting.Some? then 2 else 0)
  }

  lemma AnswerLowersWaiting(acts: seq<Act>, a: nat, answer: bool)
    requires a < |acts| && Waits(acts[a])
    ensures |Waiting(acts[a := acts[a].(answer := Some(answer))])| == |Waiting(acts)| - 1
  {
    assert Waiting(acts[a := acts[a].(answer := Some(answer))]) == Waiting(acts) - {a};
  }

  lemma {:induction false} ServiceIsBounded(o: Org, step: Step)
    requires Ok(o) && Serves(o, step)
    ensures LaneOk(After(o, step)) && Owed(After(o, step)) == Owed(o) - 1
  {
    StepKeepsLane(o, step);
    match step
    case Answer(a) => AnswerLowersWaiting(o.acts, a, o.pushes[o.acts[a].push.value].phase.ok);
    case _ =>
  }

  /** Only asking for a push adds to what is owed: commits and reads, however many, do not. */
  lemma OnlyRequestsOweMore(o: Org, step: Step)
    requires Ok(o) && !step.Request?
    ensures LaneOk(After(o, step)) && Owed(After(o, step)) <= Owed(o)
  {
    StepKeepsLane(o, step);
    match step
    case Commit => assert Waiting(After(o, step).acts) == Waiting(o.acts);
    case Resend => assert Waiting(After(o, step).acts) == Waiting(o.acts);
    case Read(p) =>
    case _ => if Serves(o, step) { ServiceIsBounded(o, step); }
  }

  /** While an act waits, or a lane is held, there is a step of service to take. */
  lemma SomeoneCanBeServed(o: Org) returns (step: Step)
    requires Ok(o) && Owed(o) > 0
    ensures Serves(o, step)
  {
    if o.lane.Some? {
      step := if o.completed == o.awaiting.value then Settle(o.awaiting.value, true) else Resume;
    } else {
      assert Waiting(o.acts) != {};
      var a :| a in Waiting(o.acts);
      assert ActOk(o.acts[a], o.pushes, o.completed, o.commits);
      step := Answer(a);
    }
  }

  ghost predicate AllServed(o: Org) {
    o.lane.None? && (forall a :: 0 <= a < |o.acts| ==> !Waits(o.acts[a])) &&
    forall p :: 0 <= p < |o.pushes| ==> o.pushes[p].phase.Settled?
  }

  ghost predicate AllServing(o: Org, steps: seq<Step>)
    decreases |steps|
  {
    steps == [] || (Serves(o, steps[0]) && AllServing(After(o, steps[0]), steps[1..]))
  }

  /**
   No waiter is lost. From every reachable state, whatever steps of service are taken in whatever order, at most `Owed`
   of them can be; and when exactly so many have been, every act that asked is answered and the lane is free.
   */
  lemma {:induction false} ServiceReachesEveryone(o: Org, steps: seq<Step>)
    requires Ok(o) && AllServing(o, steps)
    ensures Ok(Run(o, steps)) && Owed(Run(o, steps)) == Owed(o) - |steps|
    ensures |steps| == Owed(o) <==> AllServed(Run(o, steps))
    decreases |steps|
  {
    RunKeepsOk(o, steps);
    if steps == [] {
      if AllServed(o) {
        assert Waiting(o.acts) == {};
      }
    } else {
      ServiceIsBounded(o, steps[0]);
      RunKeepsOk(o, [steps[0]]);
      assert Run(o, [steps[0]]) == After(o, steps[0]) by { assert [steps[0]][1..] == []; }
      ServiceReachesEveryone(After(o, steps[0]), steps[1..]);
    }
  }
}
