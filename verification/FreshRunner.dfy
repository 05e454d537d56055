/** The fresh-runner passes that share one hot transport: each pass pins `send` listeners when
    its runner is created, and proves after close that it left none behind. Every stretch
    between two awaits is one step; any number of passes interleave. */
module FreshRunner {
  import opened Json

  type Listener = nat

  /** The transport: its `send` listeners in order, and the registry of listeners that
      passes pinned and have not been seen to release. */
  datatype Transport = Transport(roster: seq<Listener>, openPinned: set<Listener>)

  /** What a pass keeps between its create block and its proof block. */
  datatype Pass = Pass(before: set<Listener>, countBefore: nat, pinned: seq<Listener>)

  datatype Residue = Own | Foreign

  /** What an awaited call rejects with: anything, `undefined` included. */
  datatype Call = Resolved | RejectedWith(reason: string) | RejectedWithUndefined

  /** How the awaited calls of a pass ended, and whether its runner then says it is closed. */
  datatype Settled = Settled(inspection: Call, close: Call, closed: bool)

  /** The counts bracket the pass. */
  datatype Counts = Counts(before: nat, after: nat)

  datatype Cleanup =
    | OpenRunner(counts: Counts, cause: Option<string>)
    | SendListeners(residue: Residue, counts: Counts, cause: Option<string>)
    | CloseFailed(reason: string)

  /** A pass that returns hands on the inspection's result, if there is one. */
  datatype Outcome =
    | Returned(hasResult: bool, counts: Counts)
    | Threw(inspection: Option<string>, cleanup: Option<Cleanup>)

  /** What a `catch` leaves in the variable that is tested against `undefined` later. */
  function Caught(call: Call): Option<string> {
    if call.RejectedWith? then Some(call.reason) else None
  }

  function Members(s: seq<Listener>): set<Listener> {
    set l | l in s
  }

  /** What `create` pins: the listeners the roster did not hold before, in roster order. */
  function NewListeners(roster: seq<Listener>, before: set<Listener>): (r: seq<Listener>)
    ensures forall l :: l in r <==> l in roster && l !in before
  {
    if roster == [] then []
    else if roster[0] in before then NewListeners(roster[1..], before)
    else [roster[0]] + NewListeners(roster[1..], before)
  }

  lemma NewListenersFrom(roster: seq<Listener>, i: nat, before: set<Listener>)
    requires i < |roster|
    ensures NewListeners(roster[i..], before)
      == (if roster[i] in before then [] else [roster[i]]) + NewListeners(roster[i + 1..], before)
  {
    assert roster[i..][1..] == roster[i + 1..];
  }

  lemma NoneNew(before: set<Listener>)
    ensures NewListeners([], before) == []
  {
  }

  /** A create block around a constructor that leaves the transport with `after`. */
  function PassOf(t: Transport, after: seq<Listener>): Pass {
    Pass(Members(t.roster), |t.roster|, NewListeners(after, Members(t.roster)))
  }

  function AfterCreate(t: Transport, after: seq<Listener>): Transport {
    Transport(after, t.openPinned + Members(PassOf(t, after).pinned))
  }

  /** The registry keeps what a pass leaked. */
  function AfterProof(t: Transport, pass: Pass): Transport {
    t.(openPinned := t.openPinned - (Members(pass.pinned) - Members(t.roster)))
  }

  function ResidueOf(pass: Pass, after: seq<Listener>, openPinned: set<Listener>): Option<Residue> {
    if exists l :: l in pass.pinned && l in after then Some(Own)
    else if exists l :: l in after && l !in pass.before && l !in openPinned then Some(Foreign)
    else None
  }

  function OutcomeOf(t: Transport, pass: Pass, settled: Settled): Outcome {
    var residue := ResidueOf(pass, t.roster, AfterProof(t, pass).openPinned);
    var counts := Counts(pass.countBefore, |t.roster|);
    var inspection, close := Caught(settled.inspection), Caught(settled.close);
    var cleanup :=
      if !settled.closed then Some(OpenRunner(counts, close))
      else if residue.Some? then Some(SendListeners(residue.value, counts, close))
      else if close.Some? then Some(CloseFailed(close.value))
      else None;
    if cleanup.Some? || inspection.Some? then Threw(inspection, cleanup)
    else Returned(settled.inspection.Resolved?, counts)
  }

  // ----- the code of the two blocks -----

  method ListenerResidue(before: set<Listener>, pinned: seq<Listener>, after: seq<Listener>, openPinned: set<Listener>)
    returns (r: Option<Residue>)
    ensures r == ResidueOf(Pass(before, 0, pinned), after, openPinned)
  {
    for i := 0 to |pinned|
      invariant forall j :: 0 <= j < i ==> pinned[j] !in after
    {
      if pinned[i] in after { return Some(Own); }
    }
    for i := 0 to |after|
      invariant forall j :: 0 <= j < i ==> after[j] in before || after[j] in openPinned
    {
      if after[i] !in before && after[i] !in openPinned { return Some(Foreign); }
    }
    r := None;
  }

  class HotTransport {
    var roster: seq<Listener>
    var openPinned: set<Listener>

    ghost function State(): Transport
      reads this
    {
      Transport(roster, openPinned)
    }

    constructor (ambient: seq<Listener>)
      ensures State() == Transport(ambient, {})
    {
      roster, openPinned := ambient, {};
    }

    /** The create block, around a constructor that leaves the transport with `after`: it may
        add listeners and remove others. */
    method Create(after: seq<Listener>) returns (pass: Pass)
      modifies this
      ensures pass == PassOf(old(State()), after)
      ensures State() == AfterCreate(old(State()), after)
    {
      var beforeRoster := set l | l in roster;
      var sendListenersBefore := |roster|;
      roster := after;
      var pinned := Added(roster, beforeRoster);
      Register(pinned);
      pass := Pass(beforeRoster, sendListenersBefore, pinned);
    }

    /** The filter over the roster after the create. */
    static method Added(roster: seq<Listener>, beforeRoster: set<Listener>) returns (pinned: seq<Listener>)
      ensures pinned == NewListeners(roster, beforeRoster)
    {
      hide NewListeners;
      pinned := [];
      assert roster[0..] == roster && roster[|roster|..] == [];
      NoneNew(beforeRoster);
      for i := 0 to |roster|
        invariant pinned + NewListeners(roster[i..], beforeRoster) == NewListeners(roster, beforeRoster)
      {
        NewListenersFrom(roster, i, beforeRoster);
        if roster[i] !in beforeRoster { pinned := pinned + [roster[i]]; }
      }
    }

    method Register(pinned: seq<Listener>)
      modifies this
      ensures roster == old(roster) && openPinned == old(openPinned) + Members(pinned)
    {
      for i := 0 to |pinned|
        invariant roster == old(roster)
        invariant openPinned == old(openPinned) + set j | 0 <= j < i :: pinned[j]
      {
        openPinned := openPinned + {pinned[i]};
      }
    }

    /** What follows the inspection: the errors caught, and the proof block after close has
        settled. */
    method Prove(pass: Pass, settled: Settled) returns (outcome: Outcome)
      modifies this
      ensures outcome == OutcomeOf(old(State()), pass, settled)
      ensures State() == AfterProof(old(State()), pass)
    {
      var hasResult := false;
      var inspectionError: Option<string> := None;
      match settled.inspection {
        case Resolved => hasResult := true;
        case RejectedWith(reason) => inspectionError := Some(reason);
        case RejectedWithUndefined =>
      }
      var closeError := if settled.close.RejectedWith? then Some(settled.close.reason) else None;
      for i := 0 to |pass.pinned|
        invariant roster == old(roster)
        invariant openPinned == old(openPinned) - set j | 0 <= j < i && pass.pinned[j] !in roster :: pass.pinned[j]
      {
        if pass.pinned[i] !in roster { openPinned := openPinned - {pass.pinned[i]}; }
      }
      var verdict := ListenerResidue(pass.before, pass.pinned, roster, openPinned);
      var counts := Counts(pass.countBefore, |roster|);
      var cleanup: Option<Cleanup> := None;
      if !settled.closed {
        cleanup := Some(OpenRunner(counts, closeError));
      } else if verdict.Some? {
        cleanup := Some(SendListeners(verdict.value, counts, closeError));
      } else if closeError.Some? {
        cleanup := Some(CloseFailed(closeError.value));
      }
      if cleanup.Some? || inspectionError.Some? {
        return Threw(inspectionError, cleanup);
      }
      outcome := Returned(hasResult, counts);
    }
  }

  // ----- runs -----

  /** A create block, a proof block, and whatever else leaves the transport with `after`: a
      close, an outsider, a constructor that throws. */
  datatype Event =
    | Create(pass: nat, after: seq<Listener>)
    | Change(after: seq<Listener>)
    | Prove(pass: nat)

  /** When a listener appeared, and the pass that pinned it if one did. */
  datatype Birth = Birth(time: nat, owner: Option<nat>)

  /** The transport, the passes in flight, and what has happened so far. */
  datatype World = World(
    transport: Transport,
    passes: map<nat, Pass>,
    clock: nat,
    born: map<Listener, Birth>,
    begun: map<nat, nat>)

  function Start(ambient: seq<Listener>): World {
    World(Transport(ambient, {}), map[], 0, map l | l in ambient :: Birth(0, None), map[])
  }

  /** A step that can happen: passes begin once and prove once, and every listener that
      appears is a new function. */
  predicate Possible(w: World, e: Event) {
    match e
    case Create(p, after) => p !in w.begun && AppearNew(w, after)
    case Change(after) => AppearNew(w, after)
    case Prove(p) => p in w.passes
  }

  predicate AppearNew(w: World, after: seq<Listener>) {
    forall l :: l in after && l in w.born ==> l in w.transport.roster
  }

  /** The listeners that are not on the transport yet. */
  function Fresh(w: World, after: seq<Listener>): set<Listener> {
    set l | l in after && l !in w.transport.roster
  }

  function Step(w: World, e: Event): World
    requires Possible(w, e)
  {
    var now := w.clock + 1;
    match e
    case Create(p, after) =>
      World(AfterCreate(w.transport, after), w.passes[p := PassOf(w.transport, after)], now,
            w.born + (map l | l in Fresh(w, after) :: Birth(now, Some(p))), w.begun[p := now])
    case Change(after) =>
      w.(transport := w.transport.(roster := after), clock := now,
         born := w.born + (map l | l in Fresh(w, after) :: Birth(now, None)))
    case Prove(p) => w.(transport := AfterProof(w.transport, w.passes[p]), passes := w.passes - {p}, clock := now)
  }

  /** What a step leaves on the transport: what the constructor or the outsider left, or what
      was there; and in the registry: also the listeners that appeared in a create block,
      and after a proof no longer those of its pass that are gone. */
  lemma StepMeans(w: World, e: Event)
    requires Possible(w, e)
    ensures var t, u := w.transport, Step(w, e).transport;
      match e
      case Create(p, after) =>
        && u.roster == after && u.openPinned == t.openPinned + Fresh(w, after)
        && p in Step(w, e).passes && Step(w, e).passes[p].countBefore == |t.roster|
      case Change(after) => u.roster == after && u.openPinned == t.openPinned
      case Prove(p) =>
        && u.roster == t.roster
        && forall l :: l in u.openPinned <==> l in t.openPinned && (l in t.roster || l !in w.passes[p].pinned)
  {
    hide AppearNew;
  }

  predicate PossibleRun(w: World, events: seq<Event>)
    decreases events
  {
    events == [] || (Possible(w, events[0]) && PossibleRun(Step(w, events[0]), events[1..]))
  }

  function Run(w: World, events: seq<Event>): World
    requires PossibleRun(w, events)
    decreases events
  {
    if events == [] then w else Run(Step(w, events[0]), events[1..])
  }

  /** What the events bring onto the transport outside every create block. */
  function Brought(w: World, events: seq<Event>): set<Listener>
    requires PossibleRun(w, events)
    decreases events
  {
    if events == [] then {}
    else
      (if events[0].Change? then Fresh(w, events[0].after) else {}) + Brought(Step(w, events[0]), events[1..])
  }

  /** Every listener on the transport is dated, and the registry holds exactly the present
      listeners that passes pinned. */
  ghost predicate Dated(w: World) {
    && (forall l :: l in w.transport.roster ==> l in w.born)
    && (forall l :: l in w.transport.openPinned ==> l in w.born)
    && (forall l :: l in w.born ==> w.born[l].time <= w.clock)
    && (forall l :: l in w.transport.roster ==> (l in w.transport.openPinned <==> w.born[l].owner.Some?))
    && (forall p :: p in w.passes ==> p in w.begun)
    && (forall p, l :: p in w.passes && (l in w.passes[p].before || l in w.passes[p].pinned) ==> l in w.born)
    && (forall p :: p in w.begun ==> w.begun[p] <= w.clock)
    && (forall l :: l in w.born && w.born[l].owner.Some? ==> w.born[l].owner.value in w.begun)
  }

  /** A pass saw exactly the listeners that are older than it, and pinned its own. */
  ghost predicate Witnessed(w: World, p: nat)
    requires p in w.passes && p in w.begun && forall l :: l in w.transport.roster ==> l in w.born
  {
    forall l :: l in w.transport.roster ==>
      && (l in w.passes[p].before <==> w.born[l].time < w.begun[p])
      && (l in w.passes[p].pinned <==> w.born[l].owner == Some(p))
      && (w.born[l].owner == Some(p) ==> w.born[l].time == w.begun[p])
      && (w.born[l].time == w.begun[p] ==> w.born[l].owner == Some(p))
  }

  ghost predicate Coherent(w: World) {
    Dated(w) && forall p :: p in w.passes ==> Witnessed(w, p)
  }

  lemma StartCoherent(ambient: seq<Listener>)
    ensures Coherent(Start(ambient))
  {
  }

  /** What a create block changes, listener by listener. */
  lemma CreateEffect(w: World, p: nat, after: seq<Listener>)
    requires Dated(w) && Possible(w, Create(p, after))
    ensures var v := Step(w, Create(p, after));
      && v.clock == w.clock + 1 && v.begun == w.begun[p := v.clock]
      && v.passes == w.passes[p := PassOf(w.transport, after)]
      && v.transport.roster == after
      && (forall l :: l in v.transport.openPinned <==> l in w.transport.openPinned || l in Fresh(w, after))
      && (forall l :: l in v.born <==> l in w.born || l in Fresh(w, after))
      && (forall l :: l in w.born ==> v.born[l] == w.born[l])
      && (forall l :: l in Fresh(w, after) ==> l !in w.born && v.born[l] == Birth(v.clock, Some(p)))
      && (forall l :: l in v.passes[p].pinned <==> l in Fresh(w, after))
  {
    hide NewListeners;
  }

  lemma CreateDated(w: World, p: nat, after: seq<Listener>)
    requires Coherent(w) && Possible(w, Create(p, after))
    ensures Dated(Step(w, Create(p, after)))
  {
    CreateEffect(w, p, after);
    hide NewListeners, Witnessed, Step, AfterCreate;
  }

  /** A pass stays witnessed while present listeners keep their dates and new ones are
      neither its own nor older than it. */
  lemma WitnessedStays(w: World, v: World, q: nat)
    requires Dated(w) && Dated(v) && q in w.passes && Witnessed(w, q)
    requires q in v.passes && v.passes[q] == w.passes[q] && v.begun[q] == w.begun[q]
    requires forall l :: l in v.transport.roster ==>
      if l in w.transport.roster then v.born[l] == w.born[l]
      else l !in w.born && v.born[l].time > w.begun[q] && v.born[l].owner != Some(q)
    ensures Witnessed(v, q)
  {
  }

  lemma CreatorWitnessed(w: World, p: nat, after: seq<Listener>)
    requires Dated(w) && Possible(w, Create(p, after)) && Dated(Step(w, Create(p, after)))
    ensures Witnessed(Step(w, Create(p, after)), p)
  {
    CreateEffect(w, p, after);
    hide NewListeners, Step;
  }

  lemma CreateCoherent(w: World, p: nat, after: seq<Listener>)
    requires Coherent(w) && Possible(w, Create(p, after))
    ensures Coherent(Step(w, Create(p, after)))
  {
    CreateDated(w, p, after);
    CreatorWitnessed(w, p, after);
    CreateEffect(w, p, after);
    hide NewListeners, Step, Witnessed;
    var v := Step(w, Create(p, after));
    forall q | q in v.passes ensures Witnessed(v, q) {
      if q != p { WitnessedStays(w, v, q); }
    }
  }

  lemma ProveCoherent(w: World, p: nat)
    requires Coherent(w) && Possible(w, Prove(p))
    ensures Coherent(Step(w, Prove(p)))
  {
    hide Witnessed;
    var v := Step(w, Prove(p));
    assert Dated(v);
    forall q | q in v.passes ensures Witnessed(v, q) {
      WitnessedStays(w, v, q);
    }
  }

  lemma ChangeCoherent(w: World, after: seq<Listener>)
    requires Coherent(w) && Possible(w, Change(after))
    ensures Coherent(Step(w, Change(after)))
  {
    hide Witnessed;
    var v := Step(w, Change(after));
    assert forall l :: l in Fresh(w, after) ==> l !in w.born && v.born[l] == Birth(v.clock, None);
    assert Dated(v);
    forall q | q in v.passes ensures Witnessed(v, q) {
      WitnessedStays(w, v, q);
    }
  }

  lemma StepCoherent(w: World, e: Event)
    requires Coherent(w) && Possible(w, e)
    ensures Coherent(Step(w, e))
  {
    match e {
      case Create(p, after) => CreateCoherent(w, p, after);
      case Change(after) => ChangeCoherent(w, after);
      case Prove(p) => ProveCoherent(w, p);
    }
  }

  // ----- what a verdict says about the run -----

  lemma {:induction false} RunsCompose(w: World, pre: seq<Event>, post: seq<Event>)
    requires PossibleRun(w, pre + post)
    ensures PossibleRun(w, pre) && PossibleRun(Run(w, pre), post) && Run(w, pre + post) == Run(Run(w, pre), post)
    decreases pre
  {
    if pre == [] {
      assert pre + post == post;
    } else {
      assert (pre + post)[1..] == pre[1..] + post;
      RunsCompose(Step(w, pre[0]), pre[1..], post);
    }
  }

  /** What happened between `w` and `v`: dates stay, every listener nobody pinned that is new
      was brought from outside, and no pass that had begun pinned another. */
  ghost predicate Elapsed(w: World, v: World, brought: set<Listener>) {
    && w.clock <= v.clock
    && (forall l :: l in w.born ==> l in v.born && v.born[l] == w.born[l])
    && (forall p :: p in w.begun ==> p in v.begun && v.begun[p] == w.begun[p])
    && (forall p :: p in v.passes && p in w.begun ==> p in w.passes && v.passes[p] == w.passes[p])
    && (forall l :: l in brought ==> l in v.born && v.born[l].owner == None && v.born[l].time > w.clock)
    && (forall l :: l in v.born && l !in w.born && v.born[l].owner == None ==> l in brought)
    && (forall l :: l in v.born && l !in w.born && v.born[l].owner.Some? ==> v.born[l].owner.value !in w.begun)
  }

  lemma StepElapses(w: World, e: Event)
    requires Dated(w) && Possible(w, e)
    ensures Elapsed(w, Step(w, e), if e.Change? then Fresh(w, e.after) else {})
  {
    hide NewListeners;
  }

  lemma ElapsedThrough(w: World, u: World, v: World, first: set<Listener>, rest: set<Listener>)
    requires Elapsed(w, u, first) && Elapsed(u, v, rest)
    ensures Elapsed(w, v, first + rest)
  {
  }

  lemma {:induction false} RunElapses(w: World, events: seq<Event>)
    requires Coherent(w) && PossibleRun(w, events)
    ensures Elapsed(w, Run(w, events), Brought(w, events)) && Coherent(Run(w, events))
    decreases events
  {
    if events == [] {
      assert Elapsed(w, w, {});
    } else {
      var e, u := events[0], Step(w, events[0]);
      StepCoherent(w, e);
      StepElapses(w, e);
      hide Coherent, Elapsed, Possible, Step, Fresh;
      RunElapses(u, events[1..]);
      ElapsedThrough(w, u, Run(u, events[1..]), if e.Change? then Fresh(w, e.after) else {}, Brought(u, events[1..]));
    }
  }

  /** At every point of every run a new pass can begin and anything else can change the
      transport, with listeners that are there or were never seen; and every pass that has
      begun and not proved can prove. */
  lemma NothingIsRuledOut(ambient: seq<Listener>, events: seq<Event>, p: nat, after: seq<Listener>)
    requires PossibleRun(Start(ambient), events)
    requires var w := Run(Start(ambient), events); forall l :: l in after ==> Present(w, l) || l !in w.born
    ensures var w := Run(Start(ambient), events);
      && (p !in w.begun ==> Possible(w, Create(p, after)) && p in Step(w, Create(p, after)).passes)
      && Possible(w, Change(after))
      && (Possible(w, Prove(p)) <==> p in w.passes)
      && (p in w.passes ==> p !in Step(w, Prove(p)).passes)
  {
    hide Run, PossibleRun, NewListeners;
  }

  /** The registry and the ambient listeners account for everything on the transport as
      long as nothing is brought from outside. */
  lemma AmbientOrRegistered(ambient: seq<Listener>, events: seq<Event>, l: Listener)
    requires PossibleRun(Start(ambient), events) && Brought(Start(ambient), events) == {}
    requires l in Run(Start(ambient), events).transport.roster
    ensures l in ambient || l in Run(Start(ambient), events).transport.openPinned
  {
    StartCoherent(ambient);
    RunElapses(Start(ambient), events);
  }

  /** The verdict of a pass in flight, read off the birth dates. */
  lemma VerdictByBirth(w: World, p: nat)
    requires Coherent(w) && p in w.passes
    ensures var roster := w.transport.roster;
      var residue := ResidueOf(w.passes[p], roster, AfterProof(w.transport, w.passes[p]).openPinned);
      var own := exists l :: l in roster && w.born[l].owner == Some(p);
      && (residue == Some(Own) <==> own)
      && (residue == Some(Foreign) <==>
            !own && exists l :: l in roster && w.born[l].owner == None && w.born[l].time > w.begun[p])
  {
    assert Witnessed(w, p);
  }

  ghost predicate Present(w: World, l: Listener) {
    l in w.transport.roster
  }

  /** The run up to the proof block of pass `p`: what came before, its create block, and
      everything interleaved since. */
  function PassRun(pre: seq<Event>, p: nat, after: seq<Listener>, since: seq<Event>): seq<Event> {
    pre + [Create(p, after)] + since
  }

  /** The stages of such a run: the world before the create block, and after it. */
  lemma PassStages(ambient: seq<Listener>, pre: seq<Event>, p: nat, after: seq<Listener>, since: seq<Event>)
    requires PossibleRun(Start(ambient), PassRun(pre, p, after, since))
    ensures var w0, create := Start(ambient), Create(p, after);
      && PossibleRun(w0, pre) && Coherent(Run(w0, pre)) && Possible(Run(w0, pre), create)
      && PossibleRun(Step(Run(w0, pre), create), since)
      && Run(w0, PassRun(pre, p, after, since)) == Run(Step(Run(w0, pre), create), since)
  {
    var w0, create := Start(ambient), Create(p, after);
    StartCoherent(ambient);
    RunsCompose(w0, pre + [create], since);
    RunsCompose(w0, pre, [create]);
    RunElapses(w0, pre);
    hide Coherent, Start, Step, Possible;
    assert Run(Run(w0, pre), [create]) == Step(Run(w0, pre), create);
  }

  /** No false alarm and no missed leak: the verdict is `Own` exactly when a listener that
      appeared in the pass's create block is still there, and `Foreign` exactly when
      otherwise one that appeared outside every create block since is. Siblings and their
      leaks never count. */
  lemma PassVerdict(ambient: seq<Listener>, pre: seq<Event>, p: nat, after: seq<Listener>, since: seq<Event>)
    requires PossibleRun(Start(ambient), PassRun(pre, p, after, since))
    requires p in Run(Start(ambient), PassRun(pre, p, after, since)).passes
    ensures PossibleRun(Start(ambient), pre) && Possible(Run(Start(ambient), pre), Create(p, after))
    ensures var before := Run(Start(ambient), pre);
      var created := Step(before, Create(p, after));
      var w := Run(Start(ambient), PassRun(pre, p, after, since));
      var residue := ResidueOf(w.passes[p], w.transport.roster, AfterProof(w.transport, w.passes[p]).openPinned);
      var own := exists l :: l in Fresh(before, after) && Present(w, l);
      && PossibleRun(created, since)
      && (residue == Some(Own) <==> own)
      && (residue == Some(Foreign) <==> !own && exists l :: l in Brought(created, since) && Present(w, l))
  {
    hide Coherent, Step, Start, Run, PossibleRun, Possible, NewListeners, AfterProof, PassRun, Fresh, Brought;
    PassStages(ambient, pre, p, after, since);
    var w := Run(Start(ambient), pre);
    OwnAndOutside(w, p, after, since);
    VerdictByBirth(Run(Step(w, Create(p, after)), since), p);
  }

  lemma OwnAndOutside(w: World, p: nat, after: seq<Listener>, since: seq<Event>)
    requires Coherent(w) && Possible(w, Create(p, after)) && PossibleRun(Step(w, Create(p, after)), since)
    ensures var u := Step(w, Create(p, after));
      var v := Run(u, since);
      && Coherent(v) && p in v.begun
      && (forall l :: Present(v, l) ==> l in v.born && (v.born[l].owner == Some(p) <==> l in Fresh(w, after)))
      && (forall l :: Present(v, l) ==>
            (v.born[l].owner == None && v.born[l].time > v.begun[p] <==> l in Brought(u, since)))
  {
    var u := Step(w, Create(p, after));
    StepCoherent(w, Create(p, after));
    RunElapses(u, since);
    CreateEffect(w, p, after);
    hide NewListeners, Run, PossibleRun, Witnessed, Step, Fresh, Brought;
  }

  /** What a pass ends with, in terms of the run: whether a listener of its own create block is
      present, whether one brought from outside since is, and how its calls ended. */
  ghost predicate EndsAs(outcome: Outcome, settled: Settled, own: bool, brought: bool) {
    var close := if settled.close.RejectedWith? then Some(settled.close.reason) else None;
    var cleanup := if outcome.Threw? then outcome.cleanup else None;
    && (cleanup.Some? && cleanup.value.OpenRunner? <==> !settled.closed)
    && (cleanup.Some? && cleanup.value.SendListeners? <==> settled.closed && (own || brought))
    && (cleanup.Some? && cleanup.value.SendListeners? ==> cleanup.value.residue == if own then Own else Foreign)
    && (cleanup.Some? && cleanup.value.CloseFailed? <==> settled.closed && !own && !brought && close.Some?)
    && (cleanup.Some? && cleanup.value.CloseFailed? ==> cleanup.value.reason == close.value)
    && (cleanup.Some? && !cleanup.value.CloseFailed? ==> cleanup.value.cause == close)
    && (outcome.Returned? <==>
          !settled.inspection.RejectedWith? && close.None? && settled.closed && !own && !brought)
    && (outcome.Returned? ==> (outcome.hasResult <==> settled.inspection.Resolved?))
    && (outcome.Threw? ==>
          outcome.inspection == if settled.inspection.RejectedWith? then Some(settled.inspection.reason) else None)
  }

  lemma OutcomeEnds(t: Transport, pass: Pass, settled: Settled, own: bool, brought: bool)
    requires var residue := ResidueOf(pass, t.roster, AfterProof(t, pass).openPinned);
      (residue == Some(Own) <==> own) && (residue == Some(Foreign) <==> !own && brought)
    ensures EndsAs(OutcomeOf(t, pass, settled), settled, own, brought)
  {
    var residue := ResidueOf(pass, t.roster, AfterProof(t, pass).openPinned);
    hide ResidueOf, AfterProof;
    match residue {
      case None =>
      case Some(Own) =>
      case Some(Foreign) =>
    }
  }

  /** Under any interleaving: a runner that is still open is what a pass rejects with first,
      then a listener of its own create block that is still there, then one brought from
      outside since, then the reason its close rejected with, which is the cause of the others;
      the reason its inspection rejected with is reported beside them. It returns when there is
      none of these. */
  lemma PassOutcome(ambient: seq<Listener>, pre: seq<Event>, p: nat, after: seq<Listener>, since: seq<Event>,
                    settled: Settled)
    requires PossibleRun(Start(ambient), PassRun(pre, p, after, since))
    requires p in Run(Start(ambient), PassRun(pre, p, after, since)).passes
    ensures PossibleRun(Start(ambient), pre) && Possible(Run(Start(ambient), pre), Create(p, after))
    ensures var before := Run(Start(ambient), pre);
      var created := Step(before, Create(p, after));
      var w := Run(Start(ambient), PassRun(pre, p, after, since));
      && PossibleRun(created, since)
      && EndsAs(OutcomeOf(w.transport, w.passes[p], settled), settled,
                exists l :: l in Fresh(before, after) && Present(w, l),
                exists l :: l in Brought(created, since) && Present(w, l))
  {
    hide *;
    PassVerdict(ambient, pre, p, after, since);
    var before := Run(Start(ambient), pre);
    var w := Run(Start(ambient), PassRun(pre, p, after, since));
    OutcomeEnds(w.transport, w.passes[p], settled,
      exists l :: l in Fresh(before, after) && Present(w, l),
      exists l :: l in Brought(Step(before, Create(p, after)), since) && Present(w, l));
  }

  /** A failed inspection goes unreported exactly when it rejected with `undefined`; and the
      pass then even returns exactly when it would have, had the inspection succeeded. */
  lemma UnreportedInspection(t: Transport, pass: Pass, settled: Settled)
    requires !settled.inspection.Resolved?
    ensures var outcome := OutcomeOf(t, pass, settled);
      && (!(outcome.Threw? && outcome.inspection.Some?) <==> settled.inspection.RejectedWithUndefined?)
      && (outcome.Returned? <==>
            && settled.inspection.RejectedWithUndefined?
            && OutcomeOf(t, pass, settled.(inspection := Resolved)).Returned?)
  {
    hide ResidueOf, AfterProof;
  }

  /** The input: an inspection that rejects with `undefined`, a close that does or does not,
      and a clean transport. The pass returns, without a result. */
  lemma UndefinedRejectionReturns(t: Transport, pass: Pass, close: Call)
    requires ResidueOf(pass, t.roster, AfterProof(t, pass).openPinned) == None && !close.RejectedWith?
    ensures OutcomeOf(t, pass, Settled(RejectedWithUndefined, close, true))
         == Returned(false, Counts(pass.countBefore, |t.roster|))
  {
    hide ResidueOf, AfterProof;
  }

  function CountsOf(outcome: Outcome): Option<Counts> {
    match outcome
    case Returned(_, counts) => Some(counts)
    case Threw(_, Some(OpenRunner(counts, _))) => Some(counts)
    case Threw(_, Some(SendListeners(_, counts, _))) => Some(counts)
    case _ => None
  }

  lemma CountsBracket(t: Transport, pass: Pass, settled: Settled)
    ensures var counts := CountsOf(OutcomeOf(t, pass, settled));
      counts.Some? ==> counts.value == Counts(pass.countBefore, |t.roster|)
  {
    hide ResidueOf, AfterProof;
  }

  /** The counts in the evidence of a pass that returns, and in a cleanup error that names
      them, are those just before its runner was created and at its proof. */
  lemma PassEvidence(ambient: seq<Listener>, pre: seq<Event>, p: nat, after: seq<Listener>, since: seq<Event>,
                     settled: Settled)
    requires PossibleRun(Start(ambient), PassRun(pre, p, after, since)) && PossibleRun(Start(ambient), pre)
    requires p in Run(Start(ambient), PassRun(pre, p, after, since)).passes
    ensures var w := Run(Start(ambient), PassRun(pre, p, after, since));
      var outcome := OutcomeOf(w.transport, w.passes[p], settled);
      CountsOf(outcome).Some? ==>
        CountsOf(outcome).value == Counts(|Run(Start(ambient), pre).transport.roster|, |w.transport.roster|)
  {
    hide Coherent, Start, Run, PossibleRun, NewListeners, PassRun, Step, Possible, Brought, OutcomeOf, CountsOf;
    PassStages(ambient, pre, p, after, since);
    var w := Run(Start(ambient), pre);
    CoherentIsDated(w);
    StepCoherent(w, Create(p, after));
    CreateEffect(w, p, after);
    RunElapses(Step(w, Create(p, after)), since);
    var v := Run(Step(w, Create(p, after)), since);
    CountsBracket(v.transport, v.passes[p], settled);
  }

  lemma CoherentIsDated(w: World)
    requires Coherent(w)
    ensures Dated(w)
  {
  }

  /** Without new identities growth can hide, on any transport: a listener that one pass
      leaked stays registered, so when it is gone as the next pass begins and an outsider has
      added it again by the proof, that pass does not see it. */
  lemma StaleRegistrationHidesGrowth(t: Transport, leaking: seq<Listener>, between: seq<Listener>, after: seq<Listener>,
                                     final: seq<Listener>, l: Listener)
    requires l in leaking && l !in t.roster && l !in between && l !in after && l in final
    requires forall k :: k in final ==> k == l || k in between
    ensures var leaked := AfterProof(AfterCreate(t, leaking), PassOf(t, leaking));
      var gone := leaked.(roster := between);
      var pass, back := PassOf(gone, after), AfterCreate(gone, after).(roster := final);
      l !in pass.before && ResidueOf(pass, final, AfterProof(back, pass).openPinned) == None
  {
    hide NewListeners;
    var leaked := AfterProof(AfterCreate(t, leaking), PassOf(t, leaking));
    assert l in PassOf(t, leaking).pinned && l in leaked.openPinned;
  }
}
