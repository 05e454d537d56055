/** Two readers of a child's standard output that carry the partial last line from chunk to
    chunk: the desktop harness with its waiters, and the boot observer. */
module LineProtocol {
  import opened Json
  import opened Splitting
  import opened Text

  const BREAK := "\n"

  /** The trimmed lines that are not blank. */
  function Spoken(raws: seq<string>): seq<string> {
    if raws == [] then []
    else (if Trim(raws[0]) == "" then [] else [Trim(raws[0])]) + Spoken(raws[1..])
  }

  /** The event a line reports, unless it lacks the prefix or does not parse. */
  function Reported<E>(line: string, prefix: string, parse: string -> Option<E>): Option<E> {
    if prefix <= line then parse(line[|prefix|..]) else None
  }

  function ReportedBy<E>(lines: seq<string>, prefix: string, parse: string -> Option<E>): seq<E> {
    if lines == [] then []
    else
      (match Reported(lines[0], prefix, parse) case Some(e) => [e] case None => [])
      + ReportedBy(lines[1..], prefix, parse)
  }

  lemma {:induction false} ReportedAppend<E>(a: seq<string>, b: seq<string>, prefix: string, parse: string -> Option<E>)
    ensures ReportedBy(a + b, prefix, parse) == ReportedBy(a, prefix, parse) + ReportedBy(b, prefix, parse)
  {
    if a == [] {
      assert a + b == b;
    } else {
      assert (a + b)[1..] == a[1..] + b;
      ReportedAppend(a[1..], b, prefix, parse);
    }
  }

  lemma ReportedOne<E>(line: string, prefix: string, parse: string -> Option<E>)
    ensures ReportedBy([line], prefix, parse) == match Reported(line, prefix, parse) case Some(e) => [e] case None => []
  {
    assert [line][1..] == [];
  }

  /** The reports as a child prints them, each on a line of its own. */
  function Printed(payloads: seq<string>, prefix: string): string {
    if payloads == [] then "" else prefix + payloads[0] + "\n" + Printed(payloads[1..], prefix)
  }

  function Parsed<E>(payloads: seq<string>, parse: string -> Option<E>): seq<E> {
    if payloads == [] then []
    else (match parse(payloads[0]) case Some(e) => [e] case None => []) + Parsed(payloads[1..], parse)
  }

  /** What is printed is what is reported: of payloads on one line each, without white space
      at the ends of the line, those that parse, in order, and nothing is left over. */
  lemma {:induction false} PrintedIsReported<E>(payloads: seq<string>, prefix: string, parse: string -> Option<E>)
    requires prefix != "" && '\n' !in prefix
    requires forall i :: 0 <= i < |payloads| ==> '\n' !in payloads[i] && Trimmed(prefix + payloads[i])
    ensures ReportedBy(Spoken(Pieces(Printed(payloads, prefix), BREAK)), prefix, parse) == Parsed(payloads, parse)
    ensures Rest(Printed(payloads, prefix), BREAK) == ""
  {
    hide Find, At, Trimmed, Trim;
    if payloads == [] {
      NothingPrinted<E>(prefix, parse);
    } else {
      var line, rest := prefix + payloads[0], Printed(payloads[1..], prefix);
      assert Printed(payloads, prefix) == line + "\n" + rest;
      FirstLine(line, rest);
      TrimmedStays(line);
      PrintedIsReported(payloads[1..], prefix, parse);
      var more := Spoken(Pieces(rest, BREAK));
      assert ([line] + Pieces(rest, BREAK))[1..] == Pieces(rest, BREAK);
      assert Spoken([line] + Pieces(rest, BREAK)) == [line] + more;
      ReportedAppend([line], more, prefix, parse);
      ReportedOne(line, prefix, parse);
      assert line[|prefix|..] == payloads[0];
    }
  }

  lemma NothingPrinted<E>(prefix: string, parse: string -> Option<E>)
    ensures Pieces("", BREAK) == [] && Rest("", BREAK) == "" && ReportedBy(Spoken([]), prefix, parse) == []
  {
  }

  lemma TrimmedStays(line: string)
    requires Trimmed(line)
    ensures Trim(line) == line
  {
    assert "" + line + "" == line;
    TrimCore("", line, "");
  }

  lemma FirstLine(line: string, rest: string)
    requires '\n' !in line
    ensures var s := line + "\n" + rest;
      Pieces(s, BREAK) == [line] + Pieces(rest, BREAK) && Rest(s, BREAK) == Rest(rest, BREAK)
  {
    var s := line + "\n" + rest;
    assert s[|line|..|line| + 1] == "\n" && s[..|line|] == line && s[|line| + 1..] == rest;
    assert At(s, |line|, BREAK);
    forall j: nat | j < |line| ensures !At(s, j, BREAK) {
      assert s[j] == line[j] && line[j] in line;
      if At(s, j, BREAK) { AtBreak(s, j); }
    }
    assert Find(s, BREAK) == Some(|line|);
  }

  lemma AtBreak(s: string, j: nat)
    requires At(s, j, BREAK)
    ensures s[j] == '\n'
  {
    assert s[j..j + 1][0] == s[j];
  }
}

/** The harness: `pump`, its bounded line tail and its waiters. */
module HarnessLines {
  import opened Json
  import opened Splitting
  import opened Text
  import opened LineProtocol

  const MAX_LINES := 500

  /** Someone waiting for the first event that matches, from the moment of asking. */
  datatype Waiter<!E> = Waiter(id: nat, matches: (E, nat) -> bool)

  /** Who was answered, with which event. */
  datatype Answer<E> = Answer(id: nat, event: E)

  datatype Harness<!E> = Harness(
    stdoutLines: seq<string>,
    events: seq<E>,
    stdoutRemainder: string,
    waiters: seq<Waiter<E>>,
    answers: seq<Answer<E>>,
    timedOut: seq<nat>)

  /** What a caller or a timer asks of the harness between two chunks: the first future event
      that matches, the first one seen or future, or that a wait come to its end. */
  datatype Request<!E> = WaitForNext(waiter: Waiter<E>) | WaitFor(id: nat, wants: E -> bool) | Expire(id: nat)

  ghost predicate Absent<E>(waiters: seq<Waiter<E>>, id: nat) {
    forall i :: 0 <= i < |waiters| ==> waiters[i].id != id
  }

  ghost function Without<E>(waiters: seq<Waiter<E>>, id: nat): seq<Waiter<E>> {
    if waiters == [] then []
    else if waiters[0].id == id then waiters[1..]
    else [waiters[0]] + Without(waiters[1..], id)
  }

  function FirstSeen<E>(events: seq<E>, wants: E -> bool): Option<E> {
    if events == [] then None else if wants(events[0]) then Some(events[0]) else FirstSeen(events[1..], wants)
  }

  /** A waiter that does not care when the event comes. */
  function Wanting<E>(id: nat, wants: E -> bool): Waiter<E> {
    Waiter(id, (event, at) => wants(event))
  }

  ghost function Served<E>(h: Harness<E>, r: Request<E>): Harness<E> {
    match r
    case WaitForNext(waiter) => h.(waiters := h.waiters + [waiter])
    case WaitFor(id, wants) =>
      (match FirstSeen(h.events, wants)
       case Some(event) => h.(answers := h.answers + [Answer(id, event)])
       case None => h.(waiters := h.waiters + [Wanting(id, wants)]))
    case Expire(id) =>
      if Absent(h.waiters, id) then h else h.(waiters := Without(h.waiters, id), timedOut := h.timedOut + [id])
  }

  ghost function Unmatched<E>(waiters: seq<Waiter<E>>, event: E, at: nat): seq<Waiter<E>> {
    if waiters == [] then []
    else (if waiters[0].matches(event, at) then [] else [waiters[0]]) + Unmatched(waiters[1..], event, at)
  }

  ghost function AnswersTo<E>(waiters: seq<Waiter<E>>, event: E, at: nat): seq<Answer<E>> {
    if waiters == [] then []
    else
      (if waiters[0].matches(event, at) then [Answer(waiters[0].id, event)] else [])
      + AnswersTo(waiters[1..], event, at)
  }

  ghost function Offer<E>(h: Harness<E>, event: E): Harness<E> {
    h.(events := h.events + [event],
       waiters := Unmatched(h.waiters, event, |h.events|),
       answers := h.answers + AnswersTo(h.waiters, event, |h.events|))
  }

  ghost function Observe<E>(h: Harness<E>, raw: string, prefix: string, parse: string -> Option<E>): Harness<E> {
    var line := Trim(raw);
    if line == "" then h
    else
      var kept := h.(stdoutLines := Last(h.stdoutLines + [line], MAX_LINES));
      match Reported(line, prefix, parse)
      case None => kept
      case Some(event) => Offer(kept, event)
  }

  ghost function ObserveAll<E>(h: Harness<E>, raws: seq<string>, prefix: string, parse: string -> Option<E>): Harness<E>
    decreases raws
  {
    if raws == [] then h else ObserveAll(Observe(h, raws[0], prefix, parse), raws[1..], prefix, parse)
  }

  /** One chunk: its complete lines are observed, the last fragment is carried. */
  ghost function Pumped<E>(h: Harness<E>, chunk: string, prefix: string, parse: string -> Option<E>): Harness<E> {
    var text := h.stdoutRemainder + chunk;
    ObserveAll(h, Pieces(text, BREAK), prefix, parse).(stdoutRemainder := Rest(text, BREAK))
  }

  // ----- the code -----

  class HarnessRun<!E> {
    var events: seq<E>
    var stdoutLines: seq<string>
    var stdoutRemainder: string
    var waiters: seq<Waiter<E>>
    var answers: seq<Answer<E>>
    var timedOut: seq<nat>
    const reportPrefix: string
    const parse: string -> Option<E>

    ghost function State(): Harness<E>
      reads this
    {
      Harness(stdoutLines, events, stdoutRemainder, waiters, answers, timedOut)
    }

    constructor (reportPrefix: string, parse: string -> Option<E>)
      ensures State() == Harness([], [], "", [], [], [])
      ensures this.reportPrefix == reportPrefix && this.parse == parse
    {
      events, stdoutLines, stdoutRemainder, waiters, answers, timedOut := [], [], "", [], [], [];
      this.reportPrefix, this.parse := reportPrefix, parse;
    }

    method WaitForNext(waiter: Waiter<E>)
      modifies this
      ensures State() == Served(old(State()), Request.WaitForNext(waiter))
    {
      waiters := waiters + [waiter];
    }

    /** Events already seen count too, in whatever order they are looked through. */
    method WaitFor(id: nat, wants: E -> bool)
      modifies this
      ensures State() == Served(old(State()), Request.WaitFor(id, wants))
    {
      for i := 0 to |events|
        invariant State() == old(State()) && FirstSeen(events, wants) == FirstSeen(events[i..], wants)
      {
        if wants(events[i]) {
          answers := answers + [Answer(id, events[i])];
          return;
        }
        assert events[i..][1..] == events[i + 1..];
      }
      assert events[|events|..] == [];
      WaitForNext(Wanting(id, wants));
    }

    /** A wait's timer: the waiter is spliced out if it still waits, and rejected. */
    method Expire(id: nat)
      modifies this
      ensures State() == Served(old(State()), Request.Expire(id))
    {
      for at := 0 to |waiters|
        invariant State() == old(State()) && forall i :: 0 <= i < at ==> waiters[i].id != id
      {
        if waiters[at].id == id {
          WithoutAt(waiters, id, at);
          waiters := waiters[..at] + waiters[at + 1..];
          timedOut := timedOut + [id];
          return;
        }
      }
    }

    method Pump(chunk: string)
      modifies this
      ensures State() == Pumped(old(State()), chunk, reportPrefix, parse)
    {
      hide Observe, Find;
      var text := stdoutRemainder + chunk;
      var lines := Pieces(text, BREAK) + [Rest(text, BREAK)];
      stdoutRemainder := lines[|lines| - 1];
      lines := lines[..|lines| - 1];
      ghost var start := old(State()).(stdoutRemainder := stdoutRemainder);
      assert lines == Pieces(text, BREAK) && lines[0..] == lines;
      for i := 0 to |lines|
        invariant ObserveAll(State(), lines[i..], reportPrefix, parse) == ObserveAll(start, lines, reportPrefix, parse)
      {
        PumpLine(lines[i]);
      }
      assert lines[|lines|..] == [];
      RemainderAside(old(State()), start.stdoutRemainder, lines, reportPrefix, parse);
    }

    /** The body of the line loop. */
    method PumpLine(raw: string)
      modifies this
      ensures State() == Observe(old(State()), raw, reportPrefix, parse)
    {
      hide Trim, Last, Reported;
      var line := Trim(raw);
      if |line| == 0 { return; }
      stdoutLines := stdoutLines + [line];
      while |stdoutLines| > MAX_LINES
        invariant State() == old(State()).(stdoutLines := stdoutLines)
        invariant Last(stdoutLines, MAX_LINES) == Last(old(stdoutLines) + [line], MAX_LINES)
      {
        LastWithoutFirst(stdoutLines, MAX_LINES);
        stdoutLines := stdoutLines[1..];
      }
      LastOfFew(stdoutLines, MAX_LINES);
      var event := Reported(line, reportPrefix, parse);
      if event.None? { return; }
      var seqNo := |events|;
      events := events + [event.value];
      AnswerWaiters(event.value, seqNo);
    }

    /** The waiter loop: answered waiters are spliced out in place. */
    method AnswerWaiters(event: E, seqNo: nat)
      modifies this
      ensures State() == old(State()).(
        waiters := Unmatched(old(waiters), event, seqNo),
        answers := old(answers) + AnswersTo(old(waiters), event, seqNo))
    {
      hide Unmatched, AnswersTo;
      var index := 0;
      while index < |waiters|
        invariant 0 <= index <= |waiters|
        invariant State() == old(State()).(waiters := waiters, answers := answers)
        invariant waiters[..index] + Unmatched(waiters[index..], event, seqNo) == Unmatched(old(waiters), event, seqNo)
        invariant answers + AnswersTo(waiters[index..], event, seqNo)
          == old(answers) + AnswersTo(old(waiters), event, seqNo)
        decreases |waiters| - index
      {
        var waiter := waiters[index];
        OneWaiter(waiters[index..], event, seqNo);
        assert waiters[index..][1..] == waiters[index + 1..];
        if waiter.matches(event, seqNo) {
          ghost var rest := waiters[index + 1..];
          waiters := waiters[..index] + waiters[index + 1..];
          assert waiters[index..] == rest;
          answers := answers + [Answer(waiter.id, event)];
          index := index - 1;
        }
        index := index + 1;
      }
      NoWaiter(event, seqNo);
      assert waiters[index..] == [];
    }
  }

  lemma {:induction false} WithoutAt<E>(waiters: seq<Waiter<E>>, id: nat, at: nat)
    requires at < |waiters| && waiters[at].id == id && forall i :: 0 <= i < at ==> waiters[i].id != id
    ensures Without(waiters, id) == waiters[..at] + waiters[at + 1..]
  {
    if at > 0 {
      WithoutAt(waiters[1..], id, at - 1);
      assert [waiters[0]] + waiters[1..][..at - 1] == waiters[..at];
      assert waiters[1..][at..] == waiters[at + 1..];
    }
  }

  lemma OneWaiter<E>(waiters: seq<Waiter<E>>, event: E, at: nat)
    requires waiters != []
    ensures Unmatched(waiters, event, at)
      == (if waiters[0].matches(event, at) then [] else [waiters[0]]) + Unmatched(waiters[1..], event, at)
    ensures AnswersTo(waiters, event, at)
      == (if waiters[0].matches(event, at) then [Answer(waiters[0].id, event)] else [])
        + AnswersTo(waiters[1..], event, at)
  {
  }

  lemma NoWaiter<E>(event: E, at: nat)
    ensures Unmatched([], event, at) == [] && AnswersTo([], event, at) == []
  {
  }

  lemma {:induction false} RemainderAside<E>(h: Harness<E>, remainder: string, raws: seq<string>, prefix: string,
                                             parse: string -> Option<E>)
    ensures ObserveAll(h.(stdoutRemainder := remainder), raws, prefix, parse)
         == ObserveAll(h, raws, prefix, parse).(stdoutRemainder := remainder)
    decreases raws
  {
    if raws != [] {
      assert Observe(h.(stdoutRemainder := remainder), raws[0], prefix, parse)
          == Observe(h, raws[0], prefix, parse).(stdoutRemainder := remainder);
      RemainderAside(Observe(h, raws[0], prefix, parse), remainder, raws[1..], prefix, parse);
    }
  }
}

/** The boot observer of the registry lease. */
module BootObserver {
  import opened Json
  import opened Splitting
  import opened Text
  import opened LineProtocol

  const TAIL_LINES := 50
  const PRODUCT := "astroix-desktop: "

  datatype Boot = Boot(lines: seq<string>, booted: bool, stdoutRemainder: string)

  /** `isBoot` says which payloads parse to a `control-plane-booted` event. */
  predicate ReportsBoot(line: string, isBoot: string -> bool) {
    PRODUCT <= line && isBoot(line[|PRODUCT|..])
  }

  function ObserveLine(b: Boot, raw: string, isBoot: string -> bool): Boot {
    var line := Trim(raw);
    if line == "" then b
    else b.(lines := Last(b.lines + [line], TAIL_LINES), booted := b.booted || ReportsBoot(line, isBoot))
  }

  function ObserveAll(b: Boot, raws: seq<string>, isBoot: string -> bool): Boot
    decreases raws
  {
    if raws == [] then b else ObserveAll(ObserveLine(b, raws[0], isBoot), raws[1..], isBoot)
  }

  function OnData(b: Boot, chunk: string, isBoot: string -> bool): Boot {
    var text := b.stdoutRemainder + chunk;
    ObserveAll(b, Pieces(text, BREAK), isBoot).(stdoutRemainder := Rest(text, BREAK))
  }

  function OnEnd(b: Boot, isBoot: string -> bool): Boot {
    ObserveLine(b.(stdoutRemainder := ""), b.stdoutRemainder, isBoot)
  }

  function OnAll(b: Boot, chunks: seq<string>, isBoot: string -> bool): Boot
    decreases chunks
  {
    if chunks == [] then b else OnAll(OnData(b, chunks[0], isBoot), chunks[1..], isBoot)
  }

  /** A line reports the boot exactly when it is a payload that does, behind the product's name. */
  lemma BootLine(payload: string, line: string, isBoot: string -> bool)
    ensures ReportsBoot("astroix-desktop: " + payload, isBoot) <==> isBoot(payload)
    ensures ReportsBoot(line, isBoot) ==> "astroix-desktop: " <= line
  {
    assert ("astroix-desktop: " + payload)[|PRODUCT|..] == payload;
  }

  class Observer {
    var lines: seq<string>
    var booted: bool
    var stdoutRemainder: string
    const isBoot: string -> bool

    ghost function State(): Boot
      reads this
    {
      Boot(lines, booted, stdoutRemainder)
    }

    constructor (isBoot: string -> bool)
      ensures State() == Boot([], false, "") && this.isBoot == isBoot
    {
      lines, booted, stdoutRemainder, this.isBoot := [], false, "", isBoot;
    }

    method Observe(raw: string)
      modifies this
      ensures State() == ObserveLine(old(State()), raw, isBoot)
    {
      hide Trim;
      var line := Trim(raw);
      if |line| == 0 { return; }
      lines := lines + [line];
      if |lines| > TAIL_LINES { lines := lines[|lines| - TAIL_LINES..]; }
      if PRODUCT <= line {
        var payload := line[|PRODUCT|..];
        if isBoot(payload) { booted := true; }
      }
    }

    method Data(chunk: string)
      modifies this
      ensures State() == OnData(old(State()), chunk, isBoot)
    {
      hide ObserveLine, Find;
      var text := stdoutRemainder + chunk;
      var parts := Pieces(text, BREAK) + [Rest(text, BREAK)];
      stdoutRemainder := parts[|parts| - 1];
      parts := parts[..|parts| - 1];
      ghost var start := old(State()).(stdoutRemainder := stdoutRemainder);
      assert parts == Pieces(text, BREAK) && parts[0..] == parts;
      for i := 0 to |parts|
        invariant ObserveAll(State(), parts[i..], isBoot) == ObserveAll(start, parts, isBoot)
      {
        Observe(parts[i]);
      }
      assert parts[|parts|..] == [];
      RemainderAside(old(State()), start.stdoutRemainder, parts, isBoot);
    }

    method End()
      modifies this
      ensures State() == OnEnd(old(State()), isBoot)
    {
      var final := stdoutRemainder;
      stdoutRemainder := "";
      Observe(final);
    }
  }

  lemma {:induction false} RemainderAside(b: Boot, remainder: string, raws: seq<string>, isBoot: string -> bool)
    ensures ObserveAll(b.(stdoutRemainder := remainder), raws, isBoot)
         == ObserveAll(b, raws, isBoot).(stdoutRemainder := remainder)
    decreases raws
  {
    if raws != [] {
      assert ObserveLine(b.(stdoutRemainder := remainder), raws[0], isBoot)
          == ObserveLine(b, raws[0], isBoot).(stdoutRemainder := remainder);
      RemainderAside(ObserveLine(b, raws[0], isBoot), remainder, raws[1..], isBoot);
    }
  }

  lemma {:induction false} ObserveAppend(b: Boot, p: seq<string>, q: seq<string>, isBoot: string -> bool)
    ensures ObserveAll(b, p + q, isBoot) == ObserveAll(ObserveAll(b, p, isBoot), q, isBoot)
    decreases p
  {
    if p == [] {
      assert p + q == q;
    } else {
      assert (p + q)[1..] == p[1..] + q;
      ObserveAppend(ObserveLine(b, p[0], isBoot), p[1..], q, isBoot);
    }
  }

  lemma {:induction false} ChunksObserved(b: Boot, chunks: seq<string>, isBoot: string -> bool)
    requires Find(b.stdoutRemainder, BREAK).None?
    ensures var text := b.stdoutRemainder + Concat(chunks);
      OnAll(b, chunks, isBoot) == ObserveAll(b, Pieces(text, BREAK), isBoot).(stdoutRemainder := Rest(text, BREAK))
    decreases chunks
  {
    hide ObserveLine, Find;
    if chunks == [] {
      assert b.stdoutRemainder + "" == b.stdoutRemainder;
      Uncut(b.stdoutRemainder, BREAK);
    } else {
      var first, others := b.stdoutRemainder + chunks[0], Concat(chunks[1..]);
      assert first + others == b.stdoutRemainder + Concat(chunks);
      Reassembles(first, BREAK);
      ChunksObserved(OnData(b, chunks[0], isBoot), chunks[1..], isBoot);
      SplitExtends(first, others, BREAK);
      ObserveAppend(b, Pieces(first, BREAK), Pieces(Rest(first, BREAK) + others, BREAK), isBoot);
      RemainderAside(ObserveAll(b, Pieces(first, BREAK), isBoot), Rest(first, BREAK),
                     Pieces(Rest(first, BREAK) + others, BREAK), isBoot);
    }
  }

  lemma {:induction false} ObservedLines(b: Boot, raws: seq<string>, isBoot: string -> bool)
    requires |b.lines| <= TAIL_LINES
    ensures ObserveAll(b, raws, isBoot).lines == Last(b.lines + Spoken(raws), TAIL_LINES)
    decreases raws
  {
    hide Trim, Last, ReportsBoot;
    if raws == [] {
      LastOfFew(b.lines, TAIL_LINES);
      assert b.lines + [] == b.lines;
    } else {
      var line, rest := Trim(raws[0]), Spoken(raws[1..]);
      ObservedLines(ObserveLine(b, raws[0], isBoot), raws[1..], isBoot);
      if line != "" {
        LastThen(b.lines, line, rest, TAIL_LINES);
        assert Spoken(raws) == [line] + rest;
      } else {
        assert Spoken(raws) == rest;
      }
    }
  }

  lemma {:induction false} ObservedBoot(b: Boot, raws: seq<string>, isBoot: string -> bool)
    ensures ObserveAll(b, raws, isBoot).booted
       <==> b.booted || exists line :: line in Spoken(raws) && ReportsBoot(line, isBoot)
    decreases raws
  {
    hide Trim, Last, ReportsBoot;
    if raws != [] {
      ObservedBoot(ObserveLine(b, raws[0], isBoot), raws[1..], isBoot);
    }
  }

  /** However the output is cut, once it has ended the boot is seen exactly when some line of
      the whole text reports it, and the tail is the last lines of the whole text. */
  lemma BootSeen(chunks: seq<string>, isBoot: string -> bool)
    ensures var text := Concat(chunks);
      var said := Spoken(Pieces(text, BREAK) + [Rest(text, BREAK)]);
      var b := OnEnd(OnAll(Boot([], false, ""), chunks, isBoot), isBoot);
      && b.lines == Last(said, 50)
      && (b.booted <==> exists line :: line in said && ReportsBoot(line, isBoot))
  {
    var text, start := Concat(chunks), Boot([], false, "");
    var raws := Pieces(text, BREAK) + [Rest(text, BREAK)];
    assert "" + text == text;
    ChunksObserved(start, chunks, isBoot);
    ObserveAppend(start, Pieces(text, BREAK), [Rest(text, BREAK)], isBoot);
    ObservedLines(start, raws, isBoot);
    ObservedBoot(start, raws, isBoot);
    assert [] + Spoken(raws) == Spoken(raws);
    hide Pieces, Rest, Spoken, OnAll, Trim;
    LastLine(ObserveAll(start, Pieces(text, BREAK), isBoot), Rest(text, BREAK), isBoot);
  }

  lemma LastLine(b: Boot, rest: string, isBoot: string -> bool)
    ensures var c := OnEnd(b.(stdoutRemainder := rest), isBoot);
      ObserveAll(b, [rest], isBoot) == c.(stdoutRemainder := b.stdoutRemainder)
  {
    assert [rest][1..] == [];
  }
}
