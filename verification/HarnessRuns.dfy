/** Whole runs of the harness: output cut into chunks anywhere, with waiters that join, are
    answered and time out in between. */
module HarnessRuns {
  import opened Json
  import opened Splitting
  import opened Text
  import opened LineProtocol
  import opened HarnessLines

  /** What happens to a harness: a chunk of output arrives, or somebody asks for something. */
  datatype Op<!E> = Chunk(text: string) | Ask(request: Request<E>)

  /** The same with the output as complete lines. */
  datatype Step<!E> = Line(raw: string) | Made(request: Request<E>)

  ghost function Run<E>(h: Harness<E>, ops: seq<Op<E>>, prefix: string, parse: string -> Option<E>): Harness<E>
    decreases ops
  {
    if ops == [] then h
    else
      var g := match ops[0] case Chunk(text) => Pumped(h, text, prefix, parse) case Ask(r) => Served(h, r);
      Run(g, ops[1..], prefix, parse)
  }

  ghost function Take<E>(h: Harness<E>, step: Step<E>, prefix: string, parse: string -> Option<E>): Harness<E> {
    match step case Line(raw) => Observe(h, raw, prefix, parse) case Made(r) => Served(h, r)
  }

  ghost function TakeAll<E>(h: Harness<E>, steps: seq<Step<E>>, prefix: string, parse: string -> Option<E>): Harness<E>
    decreases steps
  {
    if steps == [] then h else TakeAll(Take(h, steps[0], prefix, parse), steps[1..], prefix, parse)
  }

  function Lines<E>(raws: seq<string>): (r: seq<Step<E>>)
    ensures |r| == |raws| && forall i :: 0 <= i < |r| ==> r[i] == Line(raws[i])
  {
    seq(|raws|, i requires 0 <= i < |raws| => Line(raws[i]))
  }

  /** The lines of a run with the requests between them, and what is left unfinished. */
  function Steps<E>(remainder: string, ops: seq<Op<E>>): (seq<Step<E>>, string)
    decreases ops
  {
    if ops == [] then ([], remainder)
    else
      match ops[0]
      case Chunk(text) =>
        var (later, rest) := Steps(Rest(remainder + text, BREAK), ops[1..]);
        (Lines(Pieces(remainder + text, BREAK)) + later, rest)
      case Ask(r) =>
        var (later, rest) := Steps(remainder, ops[1..]);
        ([Made(r)] + later, rest)
  }

  function TextOf<E>(ops: seq<Op<E>>): string {
    if ops == [] then "" else (if ops[0].Chunk? then ops[0].text else "") + TextOf(ops[1..])
  }

  function RequestsOf<E>(ops: seq<Op<E>>): seq<Request<E>> {
    if ops == [] then [] else (if ops[0].Ask? then [ops[0].request] else []) + RequestsOf(ops[1..])
  }

  function LinesIn<E>(steps: seq<Step<E>>): seq<string> {
    if steps == [] then [] else (if steps[0].Line? then [steps[0].raw] else []) + LinesIn(steps[1..])
  }

  function RequestsIn<E>(steps: seq<Step<E>>): seq<Request<E>> {
    if steps == [] then [] else (if steps[0].Made? then [steps[0].request] else []) + RequestsIn(steps[1..])
  }

  // ----- cutting -----

  lemma {:induction false} TakeAppend<E>(h: Harness<E>, a: seq<Step<E>>, b: seq<Step<E>>, prefix: string,
                                         parse: string -> Option<E>)
    ensures TakeAll(h, a + b, prefix, parse) == TakeAll(TakeAll(h, a, prefix, parse), b, prefix, parse)
    decreases a
  {
    if a == [] {
      assert a + b == b;
    } else {
      assert (a + b)[1..] == a[1..] + b;
      TakeAppend(Take(h, a[0], prefix, parse), a[1..], b, prefix, parse);
    }
  }

  lemma {:induction false} TakeLines<E>(h: Harness<E>, raws: seq<string>, prefix: string, parse: string -> Option<E>)
    ensures TakeAll(h, Lines(raws), prefix, parse) == ObserveAll(h, raws, prefix, parse)
    decreases raws
  {
    hide Observe;
    if raws != [] {
      assert Lines<E>(raws)[1..] == Lines(raws[1..]) && Lines<E>(raws)[0] == Step.Line(raws[0]);
      TakeLines(Observe(h, raws[0], prefix, parse), raws[1..], prefix, parse);
    }
  }

  lemma {:induction false} TakeAside<E>(h: Harness<E>, remainder: string, steps: seq<Step<E>>, prefix: string,
                                        parse: string -> Option<E>)
    ensures TakeAll(h.(stdoutRemainder := remainder), steps, prefix, parse)
         == TakeAll(h, steps, prefix, parse).(stdoutRemainder := remainder)
    decreases steps
  {
    if steps != [] {
      var g := Take(h, steps[0], prefix, parse);
      assert Take(h.(stdoutRemainder := remainder), steps[0], prefix, parse) == g.(stdoutRemainder := remainder);
      TakeAside(g, remainder, steps[1..], prefix, parse);
    }
  }

  /** However the output is cut, the harness ends as if every line had come at once, each
      request between the lines finished before it and those finished after. */
  lemma {:induction false} ChunkingInvisible<E>(h: Harness<E>, ops: seq<Op<E>>, prefix: string,
                                                parse: string -> Option<E>)
    ensures var (steps, rest) := Steps(h.stdoutRemainder, ops);
      Run(h, ops, prefix, parse) == TakeAll(h, steps, prefix, parse).(stdoutRemainder := rest)
    decreases ops
  {
    hide Take, Pieces, Rest;
    if ops != [] {
      match ops[0] {
        case Chunk(text) =>
          var all := h.stdoutRemainder + text;
          var raws, g := Pieces(all, BREAK), Pumped(h, text, prefix, parse);
          var (later, rest) := Steps(Rest(all, BREAK), ops[1..]);
          ChunkingInvisible(g, ops[1..], prefix, parse);
          TakeAppend(h, Lines(raws), later, prefix, parse);
          TakeLines(h, raws, prefix, parse);
          TakeAside(ObserveAll(h, raws, prefix, parse), Rest(all, BREAK), later, prefix, parse);
        case Ask(r) =>
          var (later, rest) := Steps(h.stdoutRemainder, ops[1..]);
          ServedAside(h, r);
          ChunkingInvisible(Served(h, r), ops[1..], prefix, parse);
          assert ([Made(r)] + later)[1..] == later;
          TakeMade(h, r, prefix, parse);
      }
    }
  }

  lemma ServedAside<E>(h: Harness<E>, r: Request<E>)
    ensures Served(h, r).stdoutRemainder == h.stdoutRemainder && Served(h, r).events == h.events
  {
  }

  lemma TakeMade<E>(h: Harness<E>, r: Request<E>, prefix: string, parse: string -> Option<E>)
    ensures Take(h, Made(r), prefix, parse) == Served(h, r)
  {
  }

  lemma {:induction false} LinesInAppend<E>(a: seq<Step<E>>, b: seq<Step<E>>)
    ensures LinesIn(a + b) == LinesIn(a) + LinesIn(b)
    ensures RequestsIn(a + b) == RequestsIn(a) + RequestsIn(b)
  {
    if a == [] {
      assert a + b == b;
    } else {
      assert (a + b)[1..] == a[1..] + b && (a + b)[0] == a[0];
      LinesInAppend(a[1..], b);
      var line := if a[0].Line? then [a[0].raw] else [];
      var made := if a[0].Made? then [a[0].request] else [];
      assert line + (LinesIn(a[1..]) + LinesIn(b)) == (line + LinesIn(a[1..])) + LinesIn(b);
      assert made + (RequestsIn(a[1..]) + RequestsIn(b)) == (made + RequestsIn(a[1..])) + RequestsIn(b);
    }
  }

  lemma {:induction false} LinesInLines<E>(raws: seq<string>)
    ensures LinesIn<E>(Lines(raws)) == raws && RequestsIn<E>(Lines(raws)) == []
  {
    if raws != [] {
      assert Lines<E>(raws)[1..] == Lines(raws[1..]);
      LinesInLines<E>(raws[1..]);
    }
  }

  /** The lines are those of the whole text split once, and the requests come in their own
      order: a cut only moves them past each other. */
  lemma {:induction false} StepsOfWholeText<E>(remainder: string, ops: seq<Op<E>>)
    requires Find(remainder, BREAK).None?
    ensures var (steps, rest) := Steps(remainder, ops);
      var text := remainder + TextOf(ops);
      && LinesIn(steps) == Pieces(text, BREAK) && rest == Rest(text, BREAK)
      && RequestsIn(steps) == RequestsOf(ops)
    decreases ops
  {
    hide Find;
    if ops == [] {
      assert remainder + "" == remainder;
      Uncut(remainder, BREAK);
    } else {
      match ops[0] {
        case Chunk(text) =>
          var first, others := remainder + text, TextOf(ops[1..]);
          assert remainder + TextOf(ops) == first + others;
          Reassembles(first, BREAK);
          StepsOfWholeText(Rest(first, BREAK), ops[1..]);
          SplitExtends(first, others, BREAK);
          LinesInLines<E>(Pieces(first, BREAK));
          LinesInAppend(Lines(Pieces(first, BREAK)), Steps(Rest(first, BREAK), ops[1..]).0);
          assert [] + RequestsOf(ops[1..]) == RequestsOf(ops[1..]);
        case Ask(r) =>
          assert "" + TextOf(ops[1..]) == TextOf(ops[1..]);
          StepsOfWholeText(remainder, ops[1..]);
          LinesInAppend([Made(r)], Steps(remainder, ops[1..]).0);
          assert [Made(r)][1..] == [];
      }
    }
  }

  // ----- lines and events -----

  lemma KeepsLine<E>(h: Harness<E>, raw: string, prefix: string, parse: string -> Option<E>)
    ensures Observe(h, raw, prefix, parse).stdoutLines
      == if Trim(raw) == "" then h.stdoutLines else Last(h.stdoutLines + [Trim(raw)], MAX_LINES)
  {
    hide Trim, Last, Reported;
  }

  lemma SpokenCons(raw: string, raws: seq<string>)
    ensures Spoken([raw] + raws) == (if Trim(raw) == "" then [] else [Trim(raw)]) + Spoken(raws)
  {
    assert ([raw] + raws)[1..] == raws;
  }

  /** The kept lines are the last of all non-blank ones. */
  lemma {:induction false} KeptLines<E>(h: Harness<E>, steps: seq<Step<E>>, prefix: string, parse: string -> Option<E>)
    requires |h.stdoutLines| <= 500
    ensures TakeAll(h, steps, prefix, parse).stdoutLines == Last(h.stdoutLines + Spoken(LinesIn(steps)), 500)
    decreases steps
  {
    hide Trim, Observe, Last, Spoken;
    if steps == [] {
      SpokenNothing();
      LastOfFew(h.stdoutLines, MAX_LINES);
      assert h.stdoutLines + [] == h.stdoutLines;
    } else {
      if steps[0].Line? { KeepsLine(h, steps[0].raw, prefix, parse); }
      KeptLines(Take(h, steps[0], prefix, parse), steps[1..], prefix, parse);
      match steps[0] {
        case Line(raw) =>
          SpokenCons(raw, LinesIn(steps[1..]));
          var rest := Spoken(LinesIn(steps[1..]));
          if Trim(raw) != "" { LastThen(h.stdoutLines, Trim(raw), rest, MAX_LINES); } else { assert [] + rest == rest; }
        case Made(_) => assert [] + LinesIn(steps[1..]) == LinesIn(steps[1..]);
      }
    }
  }

  lemma SpokenNothing()
    ensures Spoken([]) == []
  {
  }

  lemma NoEvents<E>(prefix: string, parse: string -> Option<E>)
    ensures ReportedBy(Spoken(LinesIn<E>([])), prefix, parse) == []
  {
  }

  lemma {:induction false} SpokenAppend(a: seq<string>, b: seq<string>)
    ensures Spoken(a + b) == Spoken(a) + Spoken(b)
  {
    if a == [] {
      assert a + b == b && [] + Spoken(b) == Spoken(b);
    } else {
      assert (a + b)[0] == a[0] && (a + b)[1..] == a[1..] + b;
      SpokenAppend(a[1..], b);
      var first := if Trim(a[0]) == "" then [] else [Trim(a[0])];
      assert first + (Spoken(a[1..]) + Spoken(b)) == (first + Spoken(a[1..])) + Spoken(b);
    }
  }

  lemma NewEvents<E>(h: Harness<E>, step: Step<E>, prefix: string, parse: string -> Option<E>)
    ensures Take(h, step, prefix, parse).events == h.events + ReportedBy(Spoken(LinesIn([step])), prefix, parse)
  {
    hide Trim, Last, Reported, Served;
    assert [step][1..] == [];
    match step {
      case Line(raw) =>
        assert LinesIn([step]) == [raw] && [raw][1..] == [];
        if Trim(raw) != "" { ReportedOne(Trim(raw), prefix, parse); }
      case Made(r) => ServedAside(h, r);
    }
  }

  /** The events are all those the non-blank lines report. */
  lemma {:induction false} AllEvents<E>(h: Harness<E>, steps: seq<Step<E>>, prefix: string, parse: string -> Option<E>)
    ensures TakeAll(h, steps, prefix, parse).events == h.events + ReportedBy(Spoken(LinesIn(steps)), prefix, parse)
    decreases steps
  {
    hide Take, Spoken, ReportedBy, LinesIn;
    if steps == [] {
      NoEvents(prefix, parse);
      assert h.events + [] == h.events;
    } else {
      AllEvents(Take(h, steps[0], prefix, parse), steps[1..], prefix, parse);
      NewEvents(h, steps[0], prefix, parse);
      LinesInAppend([steps[0]], steps[1..]);
      assert steps == [steps[0]] + steps[1..];
      SpokenAppend(LinesIn([steps[0]]), LinesIn(steps[1..]));
      ReportedAppend(Spoken(LinesIn([steps[0]])), Spoken(LinesIn(steps[1..])), prefix, parse);
    }
  }

  // ----- waiters -----

  /** Whose request it is, if it is a wait. */
  function AskedBy<E>(r: Request<E>): Option<nat> {
    match r case WaitForNext(waiter) => Some(waiter.id) case WaitFor(id, _) => Some(id) case Expire(_) => None
  }

  /** No wait in the steps is `id`'s. */
  ghost predicate NeverAsks<E>(steps: seq<Step<E>>, id: nat) {
    forall i :: 0 <= i < |steps| && steps[i].Made? ==> AskedBy(steps[i].request) != Some(id)
  }

  /** The events `id` was answered with. */
  ghost function Answered<E>(answers: seq<Answer<E>>, id: nat): seq<E> {
    if answers == [] then []
    else (if answers[0].id == id then [answers[0].event] else []) + Answered(answers[1..], id)
  }

  lemma {:induction false} AnsweredAppend<E>(a: seq<Answer<E>>, b: seq<Answer<E>>, id: nat)
    ensures Answered(a + b, id) == Answered(a, id) + Answered(b, id)
  {
    if a == [] {
      assert a + b == b;
    } else {
      assert (a + b)[1..] == a[1..] + b && (a + b)[0] == a[0];
      AnsweredAppend(a[1..], b, id);
      var first := if a[0].id == id then [a[0].event] else [];
      assert Answered(a, id) == first + Answered(a[1..], id) && Answered(a + b, id) == first + Answered(a[1..] + b, id);
    }
  }

  lemma OneAnswer<E>(other: nat, event: E, id: nat)
    ensures Answered([Answer(other, event)], id) == if other == id then [event] else []
    ensures Answered<E>([], id) == []
  {
    assert [Answer(other, event)][1..] == [];
  }

  lemma {:induction false} AnswersInTurn<E>(waiters: seq<Waiter<E>>, more: seq<Waiter<E>>, event: E, at: nat)
    ensures AnswersTo(waiters + more, event, at) == AnswersTo(waiters, event, at) + AnswersTo(more, event, at)
  {
    if waiters == [] {
      assert waiters + more == more;
    } else {
      assert (waiters + more)[1..] == waiters[1..] + more && (waiters + more)[0] == waiters[0];
      AnswersInTurn(waiters[1..], more, event, at);
      var w, rest := waiters[0], AnswersTo(waiters[1..], event, at);
      assert AnswersTo(waiters + more, event, at)
        == (if w.matches(event, at) then [Answer(w.id, event)] else []) + (rest + AnswersTo(more, event, at));
    }
  }

  lemma OneAnswered<E>(w: Waiter<E>, event: E, at: nat)
    requires w.matches(event, at)
    ensures AnswersTo([w], event, at) == [Answer(w.id, event)]
  {
    assert [w][1..] == [];
  }

  /** First come, first served: an event both of two waiters want answers those before them,
      then the one that asked first, then the other; and waits are rejected as they time out. */
  lemma FirstComeFirstServed<E>(h: Harness<E>, v: Waiter<E>, w: Waiter<E>, event: E)
    requires v.matches(event, |h.events|) && w.matches(event, |h.events|)
    ensures var both := Served(Served(h, Request.WaitForNext(v)), Request.WaitForNext(w));
      && Offer(both, event).answers
           == h.answers + AnswersTo(h.waiters, event, |h.events|) + [Answer(v.id, event), Answer(w.id, event)]
      && (!Absent(h.waiters, v.id) ==> Served(h, Request.Expire(v.id)).timedOut == h.timedOut + [v.id])
  {
    assert h.waiters + [v] + [w] == h.waiters + [v, w];
    AnswersInTurn(h.waiters, [v, w], event, |h.events|);
    var answers := [Answer(v.id, event), Answer(w.id, event)];
    AnswersInTurn([v], [w], event, |h.events|);
    assert [v] + [w] == [v, w];
    OneAnswered(v, event, |h.events|);
    OneAnswered(w, event, |h.events|);
    var earlier := AnswersTo(h.waiters, event, |h.events|);
    assert h.answers + (earlier + answers) == h.answers + earlier + answers;
  }

  lemma {:induction false} AbsentIsNotAnswered<E>(waiters: seq<Waiter<E>>, event: E, at: nat, id: nat)
    requires Absent(waiters, id)
    ensures Answered(AnswersTo(waiters, event, at), id) == [] && Absent(Unmatched(waiters, event, at), id)
  {
    if waiters != [] {
      var w := waiters[0];
      AbsentIsNotAnswered(waiters[1..], event, at, id);
      var first := if w.matches(event, at) then [Answer(w.id, event)] else [];
      AnsweredAppend(first, AnswersTo(waiters[1..], event, at), id);
    }
  }

  /** `w` is the one waiter with its id. */
  ghost predicate WaitsAs<E>(waiters: seq<Waiter<E>>, w: Waiter<E>) {
    && waiters != []
    && if waiters[0] == w then Absent(waiters[1..], w.id) else waiters[0].id != w.id && WaitsAs(waiters[1..], w)
  }

  /** One event: a waiter that matches is answered and leaves, any other stays. */
  lemma {:induction false} OneEvent<E>(waiters: seq<Waiter<E>>, event: E, at: nat, w: Waiter<E>)
    requires WaitsAs(waiters, w)
    ensures var left := Unmatched(waiters, event, at);
      if w.matches(event, at)
      then Absent(left, w.id) && Answered(AnswersTo(waiters, event, at), w.id) == [event]
      else WaitsAs(left, w) && Answered(AnswersTo(waiters, event, at), w.id) == []
  {
    var v, others := waiters[0], waiters[1..];
    AnsweredAppend(if v.matches(event, at) then [Answer(v.id, event)] else [], AnswersTo(others, event, at), w.id);
    OneAnswer(v.id, event, w.id);
    assert ([v] + Unmatched(others, event, at))[1..] == Unmatched(others, event, at);
    if v == w {
      AbsentIsNotAnswered(others, event, at, w.id);
    } else {
      OneEvent(others, event, at, w);
      var rest := Unmatched(others, event, at);
      assert [] + rest == rest;
      if !w.matches(event, at) { assert WaitsAs([v] + rest, w); }
    }
  }

  /** A line changes nothing but the kept lines, or adds one event and offers it. */
  lemma ObserveOffers<E>(h: Harness<E>, raw: string, prefix: string, parse: string -> Option<E>)
    ensures var g := Observe(h, raw, prefix, parse);
      && g.timedOut == h.timedOut
      && if g.events == h.events then g.waiters == h.waiters && g.answers == h.answers
         else
           && |g.events| == |h.events| + 1 && g.events[..|h.events|] == h.events
           && g.waiters == Unmatched(h.waiters, g.events[|h.events|], |h.events|)
           && g.answers == h.answers + AnswersTo(h.waiters, g.events[|h.events|], |h.events|)
  {
    hide Trim, Last, Reported, Unmatched, AnswersTo;
  }

  /** What `id` has got so far. */
  datatype Standing<!E> = Standing(answered: seq<E>, timedOut: bool)

  ghost function StandingOf<E>(h: Harness<E>, id: nat): Standing<E> {
    Standing(Answered(h.answers, id), id in h.timedOut)
  }

  /** A step leaves who neither waits nor asks as they stand. */
  lemma StepPasses<E>(h: Harness<E>, step: Step<E>, prefix: string, parse: string -> Option<E>, id: nat)
    requires Absent(h.waiters, id) && (step.Made? ==> AskedBy(step.request) != Some(id))
    ensures var g := Take(h, step, prefix, parse); Absent(g.waiters, id) && StandingOf(g, id) == StandingOf(h, id)
  {
    match step {
      case Line(raw) =>
        hide Observe;
        ObserveOffers(h, raw, prefix, parse);
        var g := Observe(h, raw, prefix, parse);
        if g.events != h.events {
          var event := g.events[|h.events|];
          AbsentIsNotAnswered(h.waiters, event, |h.events|, id);
          AnsweredAppend(h.answers, AnswersTo(h.waiters, event, |h.events|), id);
        }
      case Made(r) => RequestPasses(h, r, id);
    }
  }

  lemma RequestPasses<E>(h: Harness<E>, r: Request<E>, id: nat)
    requires Absent(h.waiters, id) && AskedBy(r) != Some(id)
    ensures var g := Served(h, r); Absent(g.waiters, id) && StandingOf(g, id) == StandingOf(h, id)
  {
    match r {
      case WaitForNext(_) =>
      case WaitFor(other, wants) =>
        var seen := FirstSeen(h.events, wants);
        if seen.Some? {
          AnsweredAppend(h.answers, [Answer(other, seen.value)], id);
          assert [Answer(other, seen.value)][1..] == [];
        }
      case Expire(other) => if !Absent(h.waiters, other) { WithoutKeepsAbsent(h.waiters, other, id); }
    }
  }

  lemma {:induction false} WithoutKeepsAbsent<E>(waiters: seq<Waiter<E>>, other: nat, id: nat)
    requires Absent(waiters, id)
    ensures Absent(Without(waiters, other), id)
    ensures !Absent(waiters, other) ==> other != id
  {
    if waiters != [] { WithoutKeepsAbsent(waiters[1..], other, id); }
  }

  lemma {:induction false} StepsPass<E>(h: Harness<E>, steps: seq<Step<E>>, prefix: string, parse: string -> Option<E>,
                                        id: nat)
    requires Absent(h.waiters, id) && NeverAsks(steps, id)
    ensures var g := TakeAll(h, steps, prefix, parse); Absent(g.waiters, id) && StandingOf(g, id) == StandingOf(h, id)
    decreases steps
  {
    hide Take, StandingOf, Absent;
    if steps != [] {
      StepPasses(h, steps[0], prefix, parse, id);
      StepsPass(Take(h, steps[0], prefix, parse), steps[1..], prefix, parse, id);
    }
  }

  lemma {:induction false} JoinedWaits<E>(waiters: seq<Waiter<E>>, v: Waiter<E>, w: Waiter<E>)
    requires if v == w then Absent(waiters, w.id) else v.id != w.id && WaitsAs(waiters, w)
    ensures WaitsAs(waiters + [v], w)
  {
    if waiters == [] {
      assert [] + [v] == [v] && [v][1..] == [];
    } else {
      assert (waiters + [v])[1..] == waiters[1..] + [v];
      if v == w || waiters[0] != w { JoinedWaits(waiters[1..], v, w); }
    }
  }

  lemma {:induction false} WithoutOther<E>(waiters: seq<Waiter<E>>, id: nat, w: Waiter<E>)
    requires WaitsAs(waiters, w)
    ensures if id == w.id then Absent(Without(waiters, id), id) else WaitsAs(Without(waiters, id), w)
    ensures !Absent(waiters, w.id)
  {
    if waiters[0] == w {
      if id != w.id {
        WithoutKeepsAbsent(waiters[1..], id, w.id);
        assert ([w] + Without(waiters[1..], id))[1..] == Without(waiters[1..], id);
      }
    } else {
      WithoutOther(waiters[1..], id, w);
      assert ([waiters[0]] + Without(waiters[1..], id))[1..] == Without(waiters[1..], id);
    }
  }

  /** A request of somebody else's leaves `w` waiting; the end of its own wait takes it out. */
  lemma RequestAndWaiter<E>(h: Harness<E>, r: Request<E>, w: Waiter<E>)
    requires WaitsAs(h.waiters, w) && AskedBy(r) != Some(w.id)
    ensures var g := Served(h, r);
      && Answered(g.answers, w.id) == Answered(h.answers, w.id)
      && if r == Expire(w.id) then Absent(g.waiters, w.id) && w.id in g.timedOut
         else WaitsAs(g.waiters, w) && (w.id in g.timedOut <==> w.id in h.timedOut)
  {
    match r {
      case WaitForNext(v) => JoinedWaits(h.waiters, v, w);
      case WaitFor(other, wants) =>
        var seen := FirstSeen(h.events, wants);
        if seen.Some? {
          AnsweredAppend(h.answers, [Answer(other, seen.value)], w.id);
          assert [Answer(other, seen.value)][1..] == [];
        } else {
          JoinedWaits(h.waiters, Wanting(other, wants), w);
        }
      case Expire(other) => WithoutOther(h.waiters, other, w);
    }
  }

  /** The first event from `from` on that `w` matches. */
  ghost function FirstMatch<E>(w: Waiter<E>, events: seq<E>, from: nat): (r: Option<nat>)
    ensures r.Some? ==> from <= r.value < |events|
    decreases |events| - from
  {
    if from >= |events| then None
    else if w.matches(events[from], from) then Some(from)
    else FirstMatch(w, events, from + 1)
  }

  lemma {:induction false} EventsOnlyGrow<E>(h: Harness<E>, steps: seq<Step<E>>, prefix: string,
                                             parse: string -> Option<E>)
    ensures h.events <= TakeAll(h, steps, prefix, parse).events
    decreases steps
  {
    if steps != [] {
      hide Observe;
      if steps[0].Line? { ObserveOffers(h, steps[0].raw, prefix, parse); }
      EventsOnlyGrow(Take(h, steps[0], prefix, parse), steps[1..], prefix, parse);
    }
  }

  /** How many events there are when the timer of `id` goes off, if it does. */
  ghost function ExpiresAt<E>(h: Harness<E>, steps: seq<Step<E>>, prefix: string, parse: string -> Option<E>, id: nat):
      (r: Option<nat>)
    decreases steps
  {
    if steps == [] then None
    else if steps[0] == Made(Expire(id)) then Some(|h.events|)
    else ExpiresAt(Take(h, steps[0], prefix, parse), steps[1..], prefix, parse, id)
  }

  /** What becomes of a waiter, from the events and its timer alone: the first event it
      matches answers it, unless its timer goes off before. */
  ghost predicate Settled<E>(h: Harness<E>, g: Harness<E>, w: Waiter<E>, first: Option<nat>, expires: Option<nat>)
    requires first.Some? ==> first.value < |g.events|
  {
    if first.Some? && (expires.None? || first.value < expires.value) then
      && Absent(g.waiters, w.id) && Answered(g.answers, w.id) == Answered(h.answers, w.id) + [g.events[first.value]]
      && (w.id in g.timedOut <==> w.id in h.timedOut)
    else if expires.Some? then
      Absent(g.waiters, w.id) && Answered(g.answers, w.id) == Answered(h.answers, w.id) && w.id in g.timedOut
    else
      && WaitsAs(g.waiters, w) && Answered(g.answers, w.id) == Answered(h.answers, w.id)
      && (w.id in g.timedOut <==> w.id in h.timedOut)
  }

  lemma {:induction false} ExpiresLater<E>(h: Harness<E>, steps: seq<Step<E>>, prefix: string,
                                           parse: string -> Option<E>, id: nat)
    ensures var t := ExpiresAt(h, steps, prefix, parse, id); t.Some? ==> |h.events| <= t.value
    decreases steps
  {
    if steps != [] {
      hide Observe;
      if steps[0].Line? { ObserveOffers(h, steps[0].raw, prefix, parse); }
      ExpiresLater(Take(h, steps[0], prefix, parse), steps[1..], prefix, parse, id);
    }
  }

  /** Over every run, whatever else is asked in between: a waiter is answered at most once,
      with the first event it matches that comes after it asked, unless its timer goes off
      first; until then it keeps waiting. */
  lemma {:induction false} FirstMatchAnswers<E>(h: Harness<E>, steps: seq<Step<E>>, prefix: string,
                                                parse: string -> Option<E>, w: Waiter<E>)
    requires WaitsAs(h.waiters, w) && NeverAsks(steps, w.id)
    ensures var g := TakeAll(h, steps, prefix, parse);
      Settled(h, g, w, FirstMatch(w, g.events, |h.events|), ExpiresAt(h, steps, prefix, parse, w.id))
    decreases steps
  {
    hide Observe, Unmatched, AnswersTo, Answered, Absent, WaitsAs;
    if steps != [] {
      var g, later := Take(h, steps[0], prefix, parse), steps[1..];
      EventsOnlyGrow(g, later, prefix, parse);
      ExpiresLater(g, later, prefix, parse, w.id);
      if steps[0].Made? {
        RequestAndWaiter(h, steps[0].request, w);
        if steps[0].request == Expire(w.id) {
          StepsPass(g, later, prefix, parse, w.id);
        } else {
          FirstMatchAnswers(g, later, prefix, parse, w);
        }
      } else {
        ObserveOffers(h, steps[0].raw, prefix, parse);
        if g.events == h.events {
          FirstMatchAnswers(g, later, prefix, parse, w);
        } else {
          var event := g.events[|h.events|];
          OneEvent(h.waiters, event, |h.events|, w);
          AnsweredAppend(h.answers, AnswersTo(h.waiters, event, |h.events|), w.id);
          if w.matches(event, |h.events|) {
            StepsPass(g, later, prefix, parse, w.id);
          } else {
            FirstMatchAnswers(g, later, prefix, parse, w);
          }
        }
      }
    }
  }

  /** The same for output cut anywhere. */
  lemma RunAnswers<E>(h: Harness<E>, ops: seq<Op<E>>, prefix: string, parse: string -> Option<E>, w: Waiter<E>)
    requires WaitsAs(h.waiters, w) && Find(h.stdoutRemainder, BREAK).None?
    requires forall r :: r in RequestsOf(ops) ==> AskedBy(r) != Some(w.id)
    ensures var g := Run(h, ops, prefix, parse);
      var steps := Steps(h.stdoutRemainder, ops).0;
      Settled(h, g, w, FirstMatch(w, g.events, |h.events|), ExpiresAt(h, steps, prefix, parse, w.id))
  {
    var steps := Steps(h.stdoutRemainder, ops).0;
    ChunkingInvisible(h, ops, prefix, parse);
    StepsOfWholeText(h.stdoutRemainder, ops);
    RequestsAmong(steps);
    hide Run, Steps, TakeAll, Find;
    FirstMatchAnswers(h, steps, prefix, parse, w);
  }

  lemma {:induction false} RequestsAmong<E>(steps: seq<Step<E>>)
    ensures forall i :: 0 <= i < |steps| && steps[i].Made? ==> steps[i].request in RequestsIn(steps)
  {
    if steps != [] {
      RequestsAmong(steps[1..]);
      forall i | 0 <= i < |steps| && steps[i].Made? ensures steps[i].request in RequestsIn(steps) {
        if i > 0 { assert steps[i] == steps[1..][i - 1]; }
      }
    }
  }

  /** Asking for an event that may have been seen: the first of all events, old and new, that
      is wanted, unless the timer goes off before it comes. */
  lemma WaitForAnswers<E>(h: Harness<E>, steps: seq<Step<E>>, prefix: string, parse: string -> Option<E>, id: nat,
                          wants: E -> bool)
    requires Absent(h.waiters, id) && NeverAsks(steps, id)
    ensures var asked := Served(h, WaitFor(id, wants));
      var g := TakeAll(asked, steps, prefix, parse);
      var w := Wanting(id, wants);
      match FirstMatch(w, h.events, 0)
      case Some(k) => Absent(g.waiters, id) && Answered(g.answers, id) == Answered(h.answers, id) + [h.events[k]]
      case None => Settled(h, g, w, FirstMatch(w, g.events, 0), ExpiresAt(asked, steps, prefix, parse, id))
  {
    var asked := Served(h, WaitFor(id, wants));
    var w := Wanting(id, wants);
    var g := TakeAll(asked, steps, prefix, parse);
    SeenIsMatch(h.events, 0, id, wants);
    assert h.events[0..] == h.events;
    EventsOnlyGrow(asked, steps, prefix, parse);
    hide Served, TakeAll;
    if FirstMatch(w, h.events, 0).Some? {
      AskedAndSeen(h, id, wants);
      StepsPass(asked, steps, prefix, parse, id);
    } else {
      AskedAndWaits(h, id, wants);
      FirstMatchAnswers(asked, steps, prefix, parse, w);
      MatchLater(w, h.events, g.events, 0);
    }
  }

  lemma {:induction false} SeenIsMatch<E>(events: seq<E>, from: nat, id: nat, wants: E -> bool)
    requires from <= |events|
    ensures FirstSeen(events[from..], wants)
      == match FirstMatch(Wanting(id, wants), events, from) case Some(k) => Some(events[k]) case None => None
    decreases |events| - from
  {
    if from < |events| {
      assert events[from..][1..] == events[from + 1..];
      SeenIsMatch(events, from + 1, id, wants);
    }
  }

  lemma AskedAndSeen<E>(h: Harness<E>, id: nat, wants: E -> bool)
    requires FirstSeen(h.events, wants).Some?
    ensures var g := Served(h, WaitFor(id, wants));
      g.waiters == h.waiters && g.events == h.events
      && Answered(g.answers, id) == Answered(h.answers, id) + [FirstSeen(h.events, wants).value]
  {
    var a := Answer(id, FirstSeen(h.events, wants).value);
    AnsweredAppend(h.answers, [a], id);
    assert [a][1..] == [];
  }

  lemma AskedAndWaits<E>(h: Harness<E>, id: nat, wants: E -> bool)
    requires FirstSeen(h.events, wants).None? && Absent(h.waiters, id)
    ensures var g := Served(h, WaitFor(id, wants));
      WaitsAs(g.waiters, Wanting(id, wants)) && g == h.(waiters := g.waiters)
  {
    JoinedWaits(h.waiters, Wanting(id, wants), Wanting(id, wants));
  }

  lemma {:induction false} MatchLater<E>(w: Waiter<E>, early: seq<E>, all: seq<E>, from: nat)
    requires early <= all && from <= |early| && FirstMatch(w, early, from).None?
    ensures FirstMatch(w, all, from) == FirstMatch(w, all, |early|)
    decreases |early| - from
  {
    if from < |early| { MatchLater(w, early, all, from + 1); }
  }
}
