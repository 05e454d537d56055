/** The bounded stop pass over write executors, in time. */
module StopPass {
  import opened Json

  /** When a child's stop promise and its exit settle, counted from the start of the pass;
      never is nothing. A settlement at the very deadline wins or loses the race. */
  datatype Child = Child(stopSettles: Option<nat>, exits: Option<nat>, winsTies: bool)

  datatype Verdict = Settled | TimedOut

  datatype Report = Stopped | PassTimedOut

  /** Whether a settlement comes before a timer armed `from` fires `deadline` later. */
  predicate InTime(settles: Option<nat>, from: nat, deadline: nat, winsTies: bool) {
    settles.Some? && (settles.value < from + deadline || (settles.value == from + deadline && winsTies))
  }

  /** The race, started at `from`: its verdict and when it is decided. */
  function Race(settles: Option<nat>, from: nat, deadline: nat, winsTies: bool): (r: (Verdict, nat))
    ensures from <= r.1 <= from + deadline
  {
    if InTime(settles, from, deadline, winsTies)
    then (Settled, if settles.value < from then from else settles.value)
    else (TimedOut, from + deadline)
  }

  /** The stop missed the deadline. */
  predicate Missed(c: Child, deadline: nat) {
    !InTime(c.stopSettles, 0, deadline, c.winsTies)
  }

  /** When the pass is through with one handle: with its stop, if that comes in time, else
      with the exit observed after the kill, or when waiting for that has run out too. */
  predicate ThroughAt(c: Child, deadline: nat, t: nat) {
    if !Missed(c, deadline) then c.stopSettles == Some(t)
    else if InTime(c.exits, deadline, deadline, c.winsTies) then
      t == if c.exits.value < deadline then deadline else c.exits.value
    else t == 2 * deadline
  }

  function Latest(a: nat, b: nat): nat {
    if a < b then b else a
  }

  /** The pass over handles that all start together: the report, whom it killed, and when
      the last of them is done. */
  method StopOwnedWriteExecutors(handles: seq<Child>, deadline: nat) returns (report: Report, killed: set<nat>,
                                 ended: nat)
    ensures ended <= 2 * deadline
    ensures forall i :: i in killed <==> 0 <= i < |handles| && Missed(handles[i], deadline)
    ensures report == Stopped <==> forall i :: 0 <= i < |handles| ==> !Missed(handles[i], deadline)
    ensures report == Stopped ==> ended <= deadline
    ensures forall i, t: nat :: 0 <= i < |handles| && ThroughAt(handles[i], deadline, t) ==> t <= ended
    ensures handles != [] ==> exists i :: 0 <= i < |handles| && ThroughAt(handles[i], deadline, ended)
  {
    report, killed, ended := Stopped, {}, 0;
    ghost var last := 0;
    for i := 0 to |handles|
      invariant i == 0 ==> ended == 0
      invariant ended <= 2 * deadline && (report == Stopped ==> ended <= deadline)
      invariant forall j :: j in killed <==> 0 <= j < i && Missed(handles[j], deadline)
      invariant report == Stopped <==> forall j :: 0 <= j < i ==> !Missed(handles[j], deadline)
      invariant forall j, t: nat :: 0 <= j < i && ThroughAt(handles[j], deadline, t) ==> t <= ended
      invariant i > 0 ==> 0 <= last < i && ThroughAt(handles[last], deadline, ended)
    {
      var handle := handles[i];
      var race := Race(handle.stopSettles, 0, deadline, handle.winsTies);
      var done := race.1;
      if race.0 == TimedOut {
        report := PassTimedOut;
        killed := killed + {i};
        var exit := Race(handle.exits, race.1, deadline, handle.winsTies);
        done := exit.1;
      }
      if i == 0 || done > ended { last := i; }
      ended := Latest(ended, done);
    }
  }

  /** The races in terms of the clock: a stop misses when it never settles, settles after the
      deadline, or loses the tie at it; the pass is through with such a child when its exit,
      observed no sooner than the kill, comes in time, and at twice the deadline otherwise. */
  lemma DeadlinesMean(c: Child, deadline: nat, t: nat)
    ensures Missed(c, deadline) <==>
              || c.stopSettles == None || c.stopSettles.value > deadline
              || (c.stopSettles.value == deadline && !c.winsTies)
    ensures !Missed(c, deadline) ==> (ThroughAt(c, deadline, t) <==> c.stopSettles == Some(t))
    ensures Missed(c, deadline) ==>
      var inTime := c.exits.Some?
        && (c.exits.value < 2 * deadline || (c.exits.value == 2 * deadline && c.winsTies));
      ThroughAt(c, deadline, t) <==>
        t == if !inTime then 2 * deadline else if c.exits.value < deadline then deadline else c.exits.value
  {
  }
}
