/** The table of write executors: one forked child per session, evicted by failed readiness,
    exits, hung disposals and revocations, all between awaits. */
module WriteExecutors {
  import opened Json
  import opened Sessions

  type Handle = nat

  /** The table with its exit listeners, and what has become of every child spawned. */
  datatype State = State(
    table: map<string, Handle>,
    tracked: map<Handle, string>,
    keyOf: map<Handle, string>,
    awaitingReady: set<Handle>,
    told: set<Handle>,
    exited: set<Handle>,
    observed: set<Handle>)

  const EMPTY_STATE := State(map[], map[], map[], {}, {}, {}, {})

  /** One stretch between two awaits. `Acquire` is an edit asking for its session's executor
      and names the child it would spawn; an exit happens before its listener runs. */
  datatype Event =
    | Acquire(session: SessionRef, rootKnown: bool, child: Handle)
    | ReadySettled(handle: Handle)
    | ReadyFailed(handle: Handle)
    | ChildExits(handle: Handle)
    | ExitObserved(handle: Handle)
    | HungDisposed(session: SessionRef, handle: Handle)
    | Evicted(session: SessionRef)

  /** Deletes the entry under `key` if it still holds `handle`. */
  function Guarded(table: map<string, Handle>, key: string, handle: Handle): map<string, Handle> {
    if key in table && table[key] == handle then table - {key} else table
  }

  function Track(s: State, key: string, handle: Handle): State {
    if handle in s.tracked then s else s.(tracked := s.tracked[handle := key])
  }

  function Spawn(s: State, key: string, child: Handle): State {
    Track(s.(table := s.table[key := child], keyOf := s.keyOf[child := key],
             awaitingReady := s.awaitingReady + {child}), key, child)
  }

  predicate Possible(s: State, e: Event) {
    match e
    case Acquire(_, _, child) => child !in s.keyOf && child !in s.tracked && child !in s.told + s.exited + s.observed
    case ReadySettled(h) => h in s.awaitingReady
    case ReadyFailed(h) => h in s.awaitingReady && h in s.keyOf
    case ChildExits(h) => h in s.keyOf
    case ExitObserved(h) => h in s.tracked && h in s.exited
    case HungDisposed(session, h) => h in s.keyOf && s.keyOf[h] == PairKey(session)
    case Evicted(_) => true
  }

  function Step(s: State, e: Event): State
    requires Possible(s, e)
  {
    match e
    case Acquire(session, rootKnown, child) =>
      var key := PairKey(session);
      if key in s.table then Track(s, key, s.table[key])
      else if !rootKnown then s
      else Spawn(s, key, child)
    case ReadySettled(h) => s.(awaitingReady := s.awaitingReady - {h})
    case ReadyFailed(h) => s.(table := Guarded(s.table, s.keyOf[h], h), awaitingReady := s.awaitingReady - {h},
      told := s.told + {h})
    case ChildExits(h) => s.(exited := s.exited + {h})
    case ExitObserved(h) => s.(table := Guarded(s.table, s.tracked[h], h), observed := s.observed + {h})
    case HungDisposed(session, h) => s.(table := Guarded(s.table, PairKey(session), h), told := s.told + {h})
    case Evicted(session) =>
      var key := PairKey(session);
      if key in s.table then s.(table := s.table - {key}, told := s.told + {s.table[key]}) else s
  }

  predicate PossibleRun(s: State, events: seq<Event>)
    decreases events
  {
    events == [] || (Possible(s, events[0]) && PossibleRun(Step(s, events[0]), events[1..]))
  }

  function Run(s: State, events: seq<Event>): State
    requires PossibleRun(s, events)
    decreases events
  {
    if events == [] then s else Run(Step(s, events[0]), events[1..])
  }

  // ----- the code -----

  class ExecutorTable {
    var writeExecutors: map<string, Handle>
    var exitTracked: map<Handle, string>
    var keyOf: map<Handle, string>
    var awaitingReady: set<Handle>
    var told: set<Handle>
    var exited: set<Handle>
    var observed: set<Handle>

    ghost function Snapshot(): State
      reads this
    {
      State(writeExecutors, exitTracked, keyOf, awaitingReady, told, exited, observed)
    }

    constructor ()
      ensures Snapshot() == EMPTY_STATE
    {
      writeExecutors, exitTracked, keyOf := map[], map[], map[];
      awaitingReady, told, exited, observed := {}, {}, {}, {};
    }

    method TrackExecutorExit(key: string, handle: Handle)
      modifies this
      ensures Snapshot() == Track(old(Snapshot()), key, handle)
    {
      if handle in exitTracked { return; }
      exitTracked := exitTracked[handle := key];
    }

    /** Up to the await of the spawned child's readiness. */
    method WriteExecutorFor(session: SessionRef, rootKnown: bool, child: Handle) returns (handle: Option<Handle>)
      requires Possible(Snapshot(), Acquire(session, rootKnown, child))
      modifies this
      ensures Snapshot() == Step(old(Snapshot()), Acquire(session, rootKnown, child))
      ensures handle.Some? ==> PairKey(session) in writeExecutors && handle.value == writeExecutors[PairKey(session)]
      ensures handle.None? <==> PairKey(session) !in old(writeExecutors) && !rootKnown
    {
      var key := PairKey(session);
      if key in writeExecutors {
        var existing := writeExecutors[key];
        TrackExecutorExit(key, existing);
        return Some(existing);
      }
      if !rootKnown { return None; }
      keyOf := keyOf[child := key];
      awaitingReady := awaitingReady + {child};
      writeExecutors := writeExecutors[key := child];
      TrackExecutorExit(key, child);
      handle := Some(child);
    }

    /** The catch around the await of readiness. */
    method ReadyRejected(key: string, handle: Handle)
      requires Possible(Snapshot(), ReadyFailed(handle)) && keyOf[handle] == key
      modifies this
      ensures Snapshot() == Step(old(Snapshot()), ReadyFailed(handle))
    {
      if key in writeExecutors && writeExecutors[key] == handle { writeExecutors := writeExecutors - {key}; }
      awaitingReady := awaitingReady - {handle};
      told := told + {handle};
    }

    /** The exit listener attached under `key`. */
    method OnExit(key: string, handle: Handle)
      requires Possible(Snapshot(), ExitObserved(handle)) && exitTracked[handle] == key
      modifies this
      ensures Snapshot() == Step(old(Snapshot()), ExitObserved(handle))
    {
      if key in writeExecutors && writeExecutors[key] == handle { writeExecutors := writeExecutors - {key}; }
      observed := observed + {handle};
    }

    method DisposeHungExecutor(session: SessionRef, handle: Handle)
      requires Possible(Snapshot(), HungDisposed(session, handle))
      modifies this
      ensures Snapshot() == Step(old(Snapshot()), HungDisposed(session, handle))
    {
      var key := PairKey(session);
      if key in writeExecutors && writeExecutors[key] == handle { writeExecutors := writeExecutors - {key}; }
      told := told + {handle};
    }

    /** The eviction fires the stop pass before the entry goes. */
    method EvictGrants(session: SessionRef)
      modifies this
      ensures Snapshot() == Step(old(Snapshot()), Evicted(session))
    {
      var key := PairKey(session);
      if key in writeExecutors {
        told := told + {writeExecutors[key]};
        writeExecutors := writeExecutors - {key};
      }
    }
  }

  // ----- what every run keeps -----

  /** The child has exited, has been told to stop, or is its session's table entry. */
  ghost predicate AccountedFor(s: State, h: Handle)
    requires h in s.keyOf
  {
    h in s.exited || h in s.told || (s.keyOf[h] in s.table && s.table[s.keyOf[h]] == h)
  }

  ghost predicate Coherent(s: State) {
    && (forall h :: h in s.keyOf ==> AccountedFor(s, h))
    && (forall k :: k in s.table ==> s.table[k] in s.keyOf && s.keyOf[s.table[k]] == k)
    && (forall k :: k in s.table ==> s.table[k] in s.tracked && s.table[k] !in s.observed + s.told)
    && (forall h :: h in s.tracked ==> h in s.keyOf && s.tracked[h] == s.keyOf[h])
    && s.awaitingReady + s.told + s.exited + s.observed <= s.keyOf.Keys
    && s.observed <= s.exited
  }

  lemma StepCoherent(s: State, e: Event)
    requires Coherent(s) && Possible(s, e)
    ensures Coherent(Step(s, e))
  {
    hide PairKey;
    if e.Acquire? { AcquireCoherent(s, e); }
  }

  lemma AcquireCoherent(s: State, e: Event)
    requires Coherent(s) && Possible(s, e) && e.Acquire?
    ensures Coherent(Step(s, e))
  {
    hide PairKey;
  }

  lemma {:induction false} RunCoherent(s: State, events: seq<Event>)
    requires Coherent(s) && PossibleRun(s, events)
    ensures Coherent(Run(s, events))
    decreases events
  {
    if events != [] {
      StepCoherent(s, events[0]);
      hide Coherent, Step, Possible;
      RunCoherent(Step(s, events[0]), events[1..]);
    }
  }

  /** Every live child is accounted for, over all interleavings. */
  lemma EveryChildAccountedFor(events: seq<Event>, h: Handle)
    requires PossibleRun(EMPTY_STATE, events) && h in Run(EMPTY_STATE, events).keyOf
    ensures AccountedFor(Run(EMPTY_STATE, events), h)
  {
    RunCoherent(EMPTY_STATE, events);
  }

  /** At every point of every run: a session whose root is known can be edited with a child
      never seen before; any child can exit, its exit can be observed once it has, it can be
      disposed of in its own session, and while its readiness is awaited that can settle
      either way; any session can be evicted. */
  lemma NothingIsRuledOut(events: seq<Event>, session: SessionRef, rootKnown: bool, child: Handle, h: Handle)
    requires PossibleRun(EMPTY_STATE, events)
    ensures var s := Run(EMPTY_STATE, events);
      && (child !in s.keyOf ==> Possible(s, Acquire(session, rootKnown, child)))
      && (Possible(s, ChildExits(h)) <==> h in s.keyOf)
      && (Possible(s, ExitObserved(h)) <==> h in s.exited && h in s.tracked)
      && (h in s.keyOf && s.keyOf[h] == PairKey(session) ==> Possible(s, HungDisposed(session, h)))
      && (Possible(s, ReadySettled(h)) <==> h in s.awaitingReady)
      && (Possible(s, ReadyFailed(h)) <==> h in s.awaitingReady)
      && Possible(s, Evicted(session))
  {
    RunCoherent(EMPTY_STATE, events);
    hide Run, PossibleRun, PairKey;
  }

  /** An edit of a session without an entry spawns, enters, tracks and awaits its child, if the
      root is known; one of a session with an entry gets that. */
  lemma EditMeans(s: State, session: SessionRef, rootKnown: bool, child: Handle)
    requires Coherent(s) && Possible(s, Acquire(session, rootKnown, child))
    ensures var key, t := PairKey(session), Step(s, Acquire(session, rootKnown, child));
      && (key in s.table || !rootKnown ==> t == s)
      && (key !in s.table && rootKnown ==>
            && t.table == s.table[key := child] && t.tracked == s.tracked[child := key]
            && t.keyOf == s.keyOf[child := key] && t.awaitingReady == s.awaitingReady + {child}
            && t.told == s.told && t.exited == s.exited && t.observed == s.observed)
  {
    hide PairKey;
  }

  /** At most one live child that nobody told to stop exists per session. */
  lemma OneLiveChild(events: seq<Event>, a: Handle, b: Handle, session: SessionRef)
    requires PossibleRun(EMPTY_STATE, events)
    requires var s := Run(EMPTY_STATE, events);
      && a in s.keyOf && b in s.keyOf && s.keyOf[a] == PairKey(session) == s.keyOf[b]
      && a !in s.exited + s.told && b !in s.exited + s.told
    ensures a == b
  {
    EveryChildAccountedFor(events, a);
    EveryChildAccountedFor(events, b);
  }

  /** A late reaction evicts exactly its own handle, never a successor's or another
      session's entry. */
  lemma OnlyItsOwnEntry(events: seq<Event>, e: Event, other: string)
    requires PossibleRun(EMPTY_STATE, events) && Possible(Run(EMPTY_STATE, events), e)
    requires e.ReadyFailed? || e.ExitObserved? || e.HungDisposed?
    ensures var s := Run(EMPTY_STATE, events);
      (other in Step(s, e).table <==> other in s.table && s.table[other] != e.handle)
      && (other in Step(s, e).table ==> Step(s, e).table[other] == s.table[other])
  {
    RunCoherent(EMPTY_STATE, events);
  }

  /** Failed readiness and a hung disposal tell their own child to stop, whether or not it still
      has its entry, and no other; an exit observed is recorded; and a readiness that settles
      either way is awaited no more. */
  lemma ReactionsTell(s: State, e: Event)
    requires Possible(s, e)
    requires e.ReadyFailed? || e.HungDisposed? || e.ExitObserved? || e.ReadySettled? || e.ChildExits?
    ensures var t := Step(s, e);
      && t.told == (if e.ReadyFailed? || e.HungDisposed? then s.told + {e.handle} else s.told)
      && t.observed == (if e.ExitObserved? then s.observed + {e.handle} else s.observed)
      && t.exited == (if e.ChildExits? then s.exited + {e.handle} else s.exited)
      && t.awaitingReady
           == (if e.ReadyFailed? || e.ReadySettled? then s.awaitingReady - {e.handle} else s.awaitingReady)
      && t.keyOf == s.keyOf && t.tracked == s.tracked
      && (e.ReadySettled? || e.ChildExits? ==> t.table == s.table)
  {
    hide PairKey, Guarded;
  }

  /** An entry is only ever lost with its child told to stop or its exit observed, and never
      replaced while it stands. */
  lemma EntriesGoWithTheirChild(s: State, e: Event, k: string)
    requires Coherent(s) && Possible(s, e) && k in s.table
    ensures var t := Step(s, e);
      if k in t.table then t.table[k] == s.table[k] else s.table[k] in t.told || s.table[k] in t.observed
  {
  }

  /** Once its exit has been observed a child is never handed out again: the next edit of a
      session without an entry spawns a new one. */
  lemma ObservedNeverServes(events: seq<Event>, session: SessionRef, child: Handle)
    requires PossibleRun(EMPTY_STATE, events) && Possible(Run(EMPTY_STATE, events), Acquire(session, true, child))
    ensures var t := Step(Run(EMPTY_STATE, events), Acquire(session, true, child));
      PairKey(session) in t.table && t.table[PairKey(session)] !in t.observed
  {
    RunCoherent(EMPTY_STATE, events);
    StepCoherent(Run(EMPTY_STATE, events), Acquire(session, true, child));
  }

  /** An eviction leaves its session without an entry and tells the child it had to stop; other
      sessions' entries and children are not touched. */
  lemma EvictionStops(s: State, session: SessionRef, other: string, h: Handle)
    ensures var key, t := PairKey(session), Step(s, Evicted(session));
      && key !in t.table
      && (key in s.table ==> s.table[key] in t.told)
      && (other != key ==> (other in t.table <==> other in s.table))
      && (other in t.table ==> t.table[other] == s.table[other])
      && (h in t.told && h !in s.told ==> key in s.table && h == s.table[key])
      && t.keyOf == s.keyOf && t.tracked == s.tracked && t.exited == s.exited && t.observed == s.observed
  {
  }

  lemma {:induction false} ToldGrows(s: State, events: seq<Event>)
    requires PossibleRun(s, events)
    ensures s.told <= Run(s, events).told
    decreases events
  {
    if events != [] { ToldGrows(Step(s, events[0]), events[1..]); }
  }

  /** No later edit is served a child that was told to stop. */
  lemma ToldNeverServes(before: seq<Event>, since: seq<Event>, session: SessionRef, rootKnown: bool, child: Handle,
                        h: Handle)
    requires PossibleRun(EMPTY_STATE, before) && PossibleRun(Run(EMPTY_STATE, before), since)
    requires h in Run(EMPTY_STATE, before).told
    requires Possible(Run(Run(EMPTY_STATE, before), since), Acquire(session, rootKnown, child))
    ensures var t := Step(Run(Run(EMPTY_STATE, before), since), Acquire(session, rootKnown, child));
      PairKey(session) in t.table ==> t.table[PairKey(session)] != h
  {
    var s := Run(Run(EMPTY_STATE, before), since);
    RunCoherent(EMPTY_STATE, before);
    RunCoherent(Run(EMPTY_STATE, before), since);
    ToldGrows(Run(EMPTY_STATE, before), since);
    StepCoherent(s, Acquire(session, rootKnown, child));
    hide Run, PairKey;
  }

  /** A crashed child leaves the table as soon as its exit is observed: every entry has its
      listener, under its own key. */
  lemma CrashEvicts(events: seq<Event>, k: string)
    requires PossibleRun(EMPTY_STATE, events) && k in Run(EMPTY_STATE, events).table
    ensures var s := Run(EMPTY_STATE, events);
      var h := s.table[k];
      && Possible(s, ChildExits(h)) && Possible(Step(s, ChildExits(h)), ExitObserved(h))
      && k !in Step(Step(s, ChildExits(h)), ExitObserved(h)).table
  {
    RunCoherent(EMPTY_STATE, events);
  }

  /** Different sessions never share an entry. */
  lemma SessionsApart(events: seq<Event>, a: SessionRef, b: SessionRef)
    requires PossibleRun(EMPTY_STATE, events) && a != b
    requires var s := Run(EMPTY_STATE, events); PairKey(a) in s.table && PairKey(b) in s.table
    ensures var s := Run(EMPTY_STATE, events); s.table[PairKey(a)] != s.table[PairKey(b)]
  {
    RunCoherent(EMPTY_STATE, events);
    if PairKey(a) == PairKey(b) { PairKeyInjective(a, b); }
  }
}
