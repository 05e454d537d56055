/** Activation: the dev-port queue between `activate` and the supervisor's `startCandidate`,
    and the candidate store. Each stretch between two awaits is one step. */
module Activation {
  import opened Json
  import opened Sessions

  type Port = nat
  type Project = string
  type ProjectRun = nat

  /** A pair that is, or is becoming, the active session. */
  datatype Session = Session(ref: SessionRef, project: Project)

  // ----- the candidate store -----

  datatype Candidates = Candidates(runsByPair: map<string, ProjectRun>, ports: map<ProjectRun, Port>)

  function Remember(c: Candidates, run: ProjectRun, port: Port, ref: SessionRef): Candidates {
    Candidates(c.runsByPair[PairKey(ref) := run], c.ports[run := port])
  }

  function RunOf(c: Candidates, ref: SessionRef): Option<ProjectRun> {
    if PairKey(ref) in c.runsByPair then Some(c.runsByPair[PairKey(ref)]) else None
  }

  function PortOf(c: Candidates, ref: SessionRef): int {
    match RunOf(c, ref)
    case Some(run) => if run in c.ports then c.ports[run] else -1
    case None => -1
  }

  function ClearExcept(c: Candidates, keep: SessionRef): Candidates {
    c.(runsByPair := map key | key in c.runsByPair && key == PairKey(keep) :: c.runsByPair[key])
  }

  // ----- the composition -----

  /** What a request was told. */
  datatype Answer = NotFound | Current(ref: SessionRef) | Refused | Attempting(ref: SessionRef)

  /** The supervisor's part: the active session and the one attempt in flight. */
  datatype Supervisor = Supervisor(active: Option<Session>, attempt: Option<Session>)

  datatype Launch = Launch(request: nat, ref: SessionRef, run: ProjectRun, port: Port)

  datatype Plane = Plane(
    queue: seq<Port>,
    candidates: Candidates,
    supervisor: Supervisor,
    launched: seq<Launch>,
    asked: map<nat, Project>,
    picked: map<nat, Port>,
    reserved: set<SessionRef>,
    desynced: bool)

  const IDLE := Plane([], Candidates(map[], map[]), Supervisor(None, None), [], map[], map[], {}, false)

  /** What the outside contributes to an admission: whether the supervisor admits, the pair
      it reserves, whether the registry still knows the project, and the run that starts. */
  datatype Begin = Begin(admits: bool, ref: SessionRef, rootKnown: bool, run: ProjectRun)

  datatype Event =
    | Ask(request: nat, project: Project, known: bool)
    | PortPicked(request: nat, port: Port, begin: Begin)
    | AttemptEnds(commits: bool)
    | SessionEnds

  /** One attempt at a time: the supervisor admits none beside another, and reserves a new
      pair for each it admits. */
  predicate Possible(p: Plane, e: Event) {
    match e
    case Ask(request, _, _) => request !in p.asked && request !in p.picked
    case PortPicked(request, _, begin) =>
      && request in p.asked && request !in p.picked
      && (begin.admits ==> p.supervisor.attempt.None? && begin.ref !in p.reserved)
      && (begin.run !in p.candidates.ports && forall l :: l in p.launched ==> l.run != begin.run)
    case AttemptEnds(_) => p.supervisor.attempt.Some?
    case SessionEnds => p.supervisor.active.Some?
  }

  predicate AlreadyActive(p: Plane, project: Project) {
    p.supervisor.active.Some? && p.supervisor.active.value.project == project
  }

  /** `startCandidate`, called inside `begin`: it takes the first port of the queue. */
  function StartCandidate(p: Plane, request: nat, begin: Begin): Plane {
    if p.queue == [] then p
    else
      var port, rest := p.queue[0], p.queue[1..];
      if !begin.rootKnown then p.(queue := rest)
      else
        p.(queue := rest,
           candidates := Remember(p.candidates, begin.run, port, begin.ref),
           launched := p.launched + [Launch(request, begin.ref, begin.run, port)])
  }

  /** `pop`, and the throw when it is not the port just pushed. */
  function ReturnPort(p: Plane, port: Port): Plane {
    if p.queue == [] then p.(desynced := true)
    else
      p.(queue := p.queue[..|p.queue| - 1], desynced := p.desynced || p.queue[|p.queue| - 1] != port)
  }

  /** The stretch from the picked port to the await of readiness. */
  function AfterPort(p: Plane, request: nat, port: Port, begin: Begin): (Plane, Answer)
    requires request in p.asked
  {
    var project := p.asked[request];
    var pushed := p.(queue := p.queue + [port], picked := p.picked[request := port]);
    if AlreadyActive(pushed, project) then (ReturnPort(pushed, port), Current(pushed.supervisor.active.value.ref))
    else if !begin.admits then (ReturnPort(pushed, port), Refused)
    else
      var begun := StartCandidate(
        pushed.(supervisor := pushed.supervisor.(attempt := Some(Session(begin.ref, project))),
                reserved := pushed.reserved + {begin.ref}),
        request, begin);
      (begun.(candidates := ClearExcept(begun.candidates, begin.ref)), Attempting(begin.ref))
  }

  function Step(p: Plane, e: Event): Plane
    requires Possible(p, e)
  {
    match e
    case Ask(request, project, known) =>
      if !known || AlreadyActive(p, project) then p else p.(asked := p.asked[request := project])
    case PortPicked(request, port, begin) => AfterPort(p, request, port, begin).0
    case AttemptEnds(commits) =>
      p.(supervisor := Supervisor(if commits then p.supervisor.attempt else p.supervisor.active, None))
    case SessionEnds => p.(supervisor := p.supervisor.(active := None))
  }

  predicate PossibleRun(p: Plane, events: seq<Event>)
    decreases events
  {
    events == [] || (Possible(p, events[0]) && PossibleRun(Step(p, events[0]), events[1..]))
  }

  function Run(p: Plane, events: seq<Event>): Plane
    requires PossibleRun(p, events)
    decreases events
  {
    if events == [] then p else Run(Step(p, events[0]), events[1..])
  }

  // ----- the code -----

  class CandidateStore {
    var ports: map<ProjectRun, Port>
    var runsByPair: map<string, ProjectRun>

    ghost function State(): Candidates
      reads this
    {
      Candidates(runsByPair, ports)
    }

    constructor ()
      ensures State() == Candidates(map[], map[])
    {
      ports, runsByPair := map[], map[];
    }

    method RememberRun(run: ProjectRun, port: Port, ref: SessionRef)
      modifies this
      ensures State() == Remember(old(State()), run, port, ref)
    {
      ports := ports[run := port];
      runsByPair := runsByPair[PairKey(ref) := run];
    }

    /** Deletes key by key, in whatever order the keys come. */
    method ClearAllExcept(keep: SessionRef)
      modifies this
      ensures State() == ClearExcept(old(State()), keep)
    {
      var keepKey := PairKey(keep);
      var keys := runsByPair.Keys;
      while keys != {}
        invariant keys <= runsByPair.Keys <= old(runsByPair).Keys && ports == old(ports)
        invariant forall k :: k in runsByPair ==> runsByPair[k] == old(runsByPair)[k]
        invariant forall k :: k in old(runsByPair) && (k == keepKey || k in keys) ==> k in runsByPair
        invariant forall k :: k in runsByPair && k !in keys ==> k == keepKey
        decreases keys
      {
        var key :| key in keys;
        keys := keys - {key};
        if key != keepKey { runsByPair := runsByPair - {key}; }
      }
    }
  }

  /** The activation half of the composition, over one store. */
  class Composition {
    const store: CandidateStore
    var pendingDevPorts: seq<Port>
    var supervisor: Supervisor
    var launched: seq<Launch>
    var asked: map<nat, Project>
    var picked: map<nat, Port>
    var reserved: set<SessionRef>
    var desynced: bool

    ghost function State(): Plane
      reads this, store
    {
      Plane(pendingDevPorts, store.State(), supervisor, launched, asked, picked, reserved, desynced)
    }

    constructor ()
      ensures State() == IDLE && fresh(store)
    {
      store := new CandidateStore();
      pendingDevPorts, supervisor, launched := [], Supervisor(None, None), [];
      asked, picked, reserved, desynced := map[], map[], {}, false;
    }

    /** Up to the await of the free port. */
    method Activate(request: nat, project: Project, known: bool) returns (answer: Option<Answer>)
      requires Possible(State(), Ask(request, project, known))
      modifies this
      ensures State() == Step(old(State()), Ask(request, project, known))
      ensures answer.Some? <==> !known || AlreadyActive(old(State()), project)
    {
      if !known { return Some(NotFound); }
      if supervisor.active.Some? && supervisor.active.value.project == project {
        return Some(Current(supervisor.active.value.ref));
      }
      asked := asked[request := project];
      answer := None;
    }

    method CandidateStart(request: nat, begin: Begin)
      modifies this, store
      ensures State() == StartCandidate(old(State()), request, begin)
    {
      if pendingDevPorts == [] { return; }
      var port := pendingDevPorts[0];
      pendingDevPorts := pendingDevPorts[1..];
      if !begin.rootKnown { return; }
      launched := launched + [Launch(request, begin.ref, begin.run, port)];
      store.RememberRun(begin.run, port, begin.ref);
    }

    method PopPort(devPort: Port)
      modifies this
      ensures State() == ReturnPort(old(State()), devPort)
    {
      if pendingDevPorts == [] {
        desynced := true;
        return;
      }
      var returned := pendingDevPorts[|pendingDevPorts| - 1];
      pendingDevPorts := pendingDevPorts[..|pendingDevPorts| - 1];
      if returned != devPort { desynced := true; }
    }

    /** From the picked port to the await of readiness. */
    method Continue(request: nat, devPort: Port, begin: Begin) returns (answer: Answer)
      requires Possible(State(), PortPicked(request, devPort, begin))
      modifies this, store
      ensures State() == Step(old(State()), PortPicked(request, devPort, begin))
      ensures answer == AfterPort(old(State()), request, devPort, begin).1
    {
      var project := asked[request];
      pendingDevPorts := pendingDevPorts + [devPort];
      picked := picked[request := devPort];
      if supervisor.active.Some? && supervisor.active.value.project == project {
        PopPort(devPort);
        return Current(supervisor.active.value.ref);
      }
      if !begin.admits {
        PopPort(devPort);
        return Refused;
      }
      supervisor := supervisor.(attempt := Some(Session(begin.ref, project)));
      reserved := reserved + {begin.ref};
      CandidateStart(request, begin);
      store.ClearAllExcept(begin.ref);
      answer := Attempting(begin.ref);
    }
  }

  // ----- what every run keeps -----

  ghost predicate PortsKept(p: Plane) {
    forall l :: l in p.launched ==>
      && l.request in p.picked && l.port == p.picked[l.request]
      && l.run in p.candidates.ports && p.candidates.ports[l.run] == l.port
  }

  ghost predicate PairsLaunched(p: Plane) {
    && (forall key :: key in p.candidates.runsByPair ==>
          exists l :: l in p.launched && key == PairKey(l.ref) && p.candidates.runsByPair[key] == l.run)
    && forall l :: l in p.launched ==> l.ref in p.reserved
  }

  ghost predicate AttemptKept(p: Plane) {
    p.supervisor.attempt.Some? ==>
      forall l :: l in p.launched && l.ref == p.supervisor.attempt.value.ref ==>
        RunOf(p.candidates, l.ref) == Some(l.run)
  }

  ghost predicate Coherent(p: Plane) {
    && p.queue == [] && !p.desynced && |p.candidates.runsByPair| <= 1
    && PortsKept(p) && PairsLaunched(p) && AttemptKept(p)
  }

  /** A port pushed onto the empty queue and not consumed comes straight back. */
  lemma PortReturned(p: Plane, request: nat, port: Port)
    requires p.queue == []
    ensures ReturnPort(p.(queue := p.queue + [port], picked := p.picked[request := port]), port)
         == p.(picked := p.picked[request := port])
  {
    assert [] + [port] == [port] && [port][..0] == [];
  }

  lemma KeepsOne(c: Candidates, keep: SessionRef)
    ensures |ClearExcept(c, keep).runsByPair| <= 1
  {
    var runs := ClearExcept(c, keep).runsByPair;
    assert runs.Keys <= {PairKey(keep)};
    SubsetOfOne(runs.Keys, PairKey(keep));
    assert |runs| == |runs.Keys|;
  }

  lemma SubsetOfOne(s: set<string>, key: string)
    requires s <= {key}
    ensures |s| <= 1
  {
    if key in s { assert s == {key}; } else { assert s == {}; }
  }

  /** What an admission changes when the queue was empty: the request's own port launches. */
  function Admitted(p: Plane, request: nat, port: Port, begin: Begin): Plane
    requires request in p.asked
  {
    var kept := if begin.rootKnown then Remember(p.candidates, begin.run, port, begin.ref) else p.candidates;
    p.(candidates := ClearExcept(kept, begin.ref),
       supervisor := p.supervisor.(attempt := Some(Session(begin.ref, p.asked[request]))),
       launched := p.launched + if begin.rootKnown then [Launch(request, begin.ref, begin.run, port)] else [],
       picked := p.picked[request := port],
       reserved := p.reserved + {begin.ref})
  }

  lemma AdmittedEffect(p: Plane, request: nat, port: Port, begin: Begin)
    requires p.queue == [] && Possible(p, PortPicked(request, port, begin)) && begin.admits
      && !AlreadyActive(p, p.asked[request])
    ensures Step(p, PortPicked(request, port, begin)) == Admitted(p, request, port, begin)
  {
    assert [] + [port] == [port] && [port][1..] == [];
    assert p.launched + [] == p.launched;
    hide ClearExcept, Remember;
  }

  lemma AdmittedCoherent(p: Plane, request: nat, port: Port, begin: Begin)
    requires Coherent(p) && Possible(p, PortPicked(request, port, begin)) && begin.admits
      && !AlreadyActive(p, p.asked[request])
    ensures Coherent(Admitted(p, request, port, begin))
  {
    hide PairKey;
    if begin.rootKnown {
      KeepsOne(Remember(p.candidates, begin.run, port, begin.ref), begin.ref);
      LaunchedCoherent(p, request, port, begin);
    } else {
      KeepsOne(p.candidates, begin.ref);
      assert p.launched + [] == p.launched;
    }
  }

  lemma LaunchedCoherent(p: Plane, request: nat, port: Port, begin: Begin)
    requires Coherent(p) && Possible(p, PortPicked(request, port, begin)) && begin.admits && begin.rootKnown
    requires |ClearExcept(Remember(p.candidates, begin.run, port, begin.ref), begin.ref).runsByPair| <= 1
    ensures Coherent(Admitted(p, request, port, begin))
  {
    hide PairKey, PortsKept, PairsLaunched, AttemptKept;
    LaunchedPorts(p, request, port, begin);
    LaunchedPairs(p, request, port, begin);
    LaunchedAttempt(p, request, port, begin);
  }

  lemma LaunchedPorts(p: Plane, request: nat, port: Port, begin: Begin)
    requires PortsKept(p) && Possible(p, PortPicked(request, port, begin)) && begin.rootKnown
    ensures PortsKept(Admitted(p, request, port, begin))
  {
    hide PairKey;
    var q := Admitted(p, request, port, begin);
    assert forall l :: l in q.launched ==> l in p.launched || l == Launch(request, begin.ref, begin.run, port);
  }

  lemma LaunchedPairs(p: Plane, request: nat, port: Port, begin: Begin)
    requires PairsLaunched(p) && request in p.asked && begin.rootKnown
    ensures PairsLaunched(Admitted(p, request, port, begin))
  {
    hide PairKey;
    var q, launch := Admitted(p, request, port, begin), Launch(request, begin.ref, begin.run, port);
    assert launch in q.launched && forall l :: l in q.launched ==> l in p.launched || l == launch;
  }

  lemma LaunchedAttempt(p: Plane, request: nat, port: Port, begin: Begin)
    requires PairsLaunched(p) && request in p.asked && begin.rootKnown && begin.ref !in p.reserved
    ensures AttemptKept(Admitted(p, request, port, begin))
  {
    hide PairKey;
    var q, launch := Admitted(p, request, port, begin), Launch(request, begin.ref, begin.run, port);
    assert forall l :: l in q.launched ==> l in p.launched || l == launch;
  }

  lemma StepCoherent(p: Plane, e: Event)
    requires Coherent(p) && Possible(p, e)
    ensures Coherent(Step(p, e))
  {
    match e {
      case PortPicked(request, port, begin) =>
        PortReturned(p, request, port);
        if begin.admits && !AlreadyActive(p, p.asked[request]) {
          AdmittedEffect(p, request, port, begin);
          AdmittedCoherent(p, request, port, begin);
        }
      case _ =>
    }
  }

  lemma {:induction false} RunCoherent(p: Plane, events: seq<Event>)
    requires Coherent(p) && PossibleRun(p, events)
    ensures Coherent(Run(p, events))
    decreases events
  {
    if events != [] {
      StepCoherent(p, events[0]);
      hide Coherent, Step, Possible;
      RunCoherent(Step(p, events[0]), events[1..]);
    }
  }

  /** Ports are never swapped: at every await the queue is empty, no desync was thrown, at
      most one pair is remembered, and every run launched so far got the port its own
      request picked. */
  lemma PortsNeverSwapped(events: seq<Event>)
    requires PossibleRun(IDLE, events)
    ensures var p := Run(IDLE, events);
      && p.queue == [] && !p.desynced && |p.candidates.runsByPair| <= 1
      && forall l :: l in p.launched ==> l.request in p.picked && l.port == p.picked[l.request]
  {
    RunCoherent(IDLE, events);
  }

  /** At every point of every run: a new request can be made; one that was recorded can get
      its port once, to be refused, or admitted where no attempt is in flight, with a pair and
      a run never used before; an attempt and a session can end when there is one. */
  lemma NothingIsRuledOut(events: seq<Event>, request: nat, project: Project, known: bool, port: Port, begin: Begin,
                          commits: bool)
    requires PossibleRun(IDLE, events)
    ensures var p := Run(IDLE, events);
      && (Possible(p, Ask(request, project, known)) <==> request !in p.asked && request !in p.picked)
      && (request in p.asked && request !in p.picked && begin.run !in p.candidates.ports
          && (begin.admits ==> p.supervisor.attempt == None && begin.ref !in p.reserved) ==>
            Possible(p, PortPicked(request, port, begin)))
      && (Possible(p, AttemptEnds(commits)) <==> p.supervisor.attempt != None)
      && (Possible(p, SessionEnds) <==> p.supervisor.active != None)
  {
    RunCoherent(IDLE, events);
    hide Run, PossibleRun, PairsLaunched, AttemptKept;
  }

  /** The port the store names for a launched pair it still holds is the one picked for it. */
  lemma StoredPort(events: seq<Event>, launch: Launch)
    requires PossibleRun(IDLE, events) && launch in Run(IDLE, events).launched
    requires RunOf(Run(IDLE, events).candidates, launch.ref) == Some(launch.run)
    ensures var p := Run(IDLE, events);
      launch.request in p.picked && PortOf(p.candidates, launch.ref) == launch.port == p.picked[launch.request]
  {
    RunCoherent(IDLE, events);
  }

  /** The store names a port for exactly the pairs it remembers; any other has none, which is
      told by -1. */
  lemma RememberedHavePorts(events: seq<Event>, ref: SessionRef)
    requires PossibleRun(IDLE, events)
    ensures var c := Run(IDLE, events).candidates;
      match RunOf(c, ref)
      case Some(run) => run in c.ports && PortOf(c, ref) == c.ports[run]
      case None => PortOf(c, ref) == -1
  {
    RunCoherent(IDLE, events);
  }

  /** The session active for the project, if it is this project's. */
  ghost predicate Ours(p: Plane, project: Project, session: Session) {
    p.supervisor.active == Some(session) && session.project == project
  }

  /** A request is recorded when its project is known and the active session is of another. */
  lemma AskMeans(p: Plane, request: nat, project: Project, known: bool)
    requires Possible(p, Ask(request, project, known))
    ensures Step(p, Ask(request, project, known))
      == if known && !(exists session :: Ours(p, project, session)) then p.(asked := p.asked[request := project]) else p
  {
    if p.supervisor.active.Some? && p.supervisor.active.value.project == project {
      assert Ours(p, project, p.supervisor.active.value);
    }
  }

  /** With its port it is answered with the active session if that is its project's by now, and
      else refused or attempted as the supervisor decides. */
  lemma AnswerMeans(p: Plane, request: nat, port: Port, begin: Begin)
    requires Possible(p, PortPicked(request, port, begin))
    ensures var answer := AfterPort(p, request, port, begin).1;
      && (forall ref :: answer == Current(ref) <==>
            exists session :: Ours(p, p.asked[request], session) && session.ref == ref)
      && (answer == Refused <==> !begin.admits && !(exists session :: Ours(p, p.asked[request], session)))
      && (answer.Attempting? <==> begin.admits && !(exists session :: Ours(p, p.asked[request], session)))
      && (answer.Attempting? ==> answer.ref == begin.ref)
  {
    hide ReturnPort, StartCandidate, ClearExcept;
    if p.supervisor.active.Some? && p.supervisor.active.value.project == p.asked[request] {
      assert Ours(p, p.asked[request], p.supervisor.active.value);
    }
  }

  /** An attempt is of the project asked for, leaves the active session alone, and launches its
      run with its port unless the registry has lost the project. */
  lemma AttemptMeans(p: Plane, request: nat, port: Port, begin: Begin)
    requires p.queue == [] && Possible(p, PortPicked(request, port, begin))
    ensures var (q, answer) := AfterPort(p, request, port, begin);
      && q.supervisor.active == p.supervisor.active
      && (if answer.Attempting? then
            && q.supervisor.attempt == Some(Session(begin.ref, p.asked[request]))
            && q.launched
                 == p.launched + (if begin.rootKnown then [Launch(request, begin.ref, begin.run, port)] else [])
          else q.supervisor == p.supervisor && q.launched == p.launched)
  {
    assert [] + [port] == [port] && [port][0] == port;
    hide Remember, ClearExcept, AlreadyActive;
  }

  /** Attempts become the active session when they commit, and only then. */
  lemma AttemptsCommit(p: Plane, commits: bool)
    requires Possible(p, AttemptEnds(commits))
    ensures var q := Step(p, AttemptEnds(commits));
      && q.supervisor.attempt == None
      && q.supervisor.active == if commits then p.supervisor.attempt else p.supervisor.active
  {
  }

  /** A refused request, and one for the session already active, change nothing but which
      port was picked. */
  lemma RefusedChangesNothing(events: seq<Event>, request: nat, port: Port, begin: Begin)
    requires PossibleRun(IDLE, events) && Possible(Run(IDLE, events), PortPicked(request, port, begin))
    requires var p := Run(IDLE, events); !begin.admits || AlreadyActive(p, p.asked[request])
    ensures var p := Run(IDLE, events);
      Step(p, PortPicked(request, port, begin)) == p.(picked := p.picked[request := port])
  {
    RunCoherent(IDLE, events);
    PortReturned(Run(IDLE, events), request, port);
  }

  /** The run of the attempt in flight stays remembered until the attempt ends. */
  lemma AttemptRemembered(events: seq<Event>, launch: Launch)
    requires PossibleRun(IDLE, events) && launch in Run(IDLE, events).launched
    requires var p := Run(IDLE, events);
      p.supervisor.attempt.Some? && p.supervisor.attempt.value.ref == launch.ref
    ensures RunOf(Run(IDLE, events).candidates, launch.ref) == Some(launch.run)
  {
    RunCoherent(IDLE, events);
  }
}
