/** Reading server-sent event frames off a response body. */
module FrameStream {
  import opened Json
  import opened Splitting

  const BLANK_LINE := "\n\n"
  const DATA := "data: "

  /** One frame as an event, unless it is no data frame or does not parse. */
  function EventOf<E>(frame: string, parse: string -> Option<E>): Option<E> {
    if DATA <= frame then parse(frame[|DATA|..]) else None
  }

  function EventsOf<E>(frames: seq<string>, parse: string -> Option<E>): seq<E> {
    if frames == [] then []
    else (match EventOf(frames[0], parse) case Some(e) => [e] case None => []) + EventsOf(frames[1..], parse)
  }

  lemma {:induction false} EventsAppend<E>(a: seq<string>, b: seq<string>, parse: string -> Option<E>)
    ensures EventsOf(a + b, parse) == EventsOf(a, parse) + EventsOf(b, parse)
  {
    if a == [] {
      assert a + b == b;
    } else {
      assert (a + b)[1..] == a[1..] + b;
      EventsAppend(a[1..], b, parse);
    }
  }

  datatype Ended = Finished | Aborted

  /** The body's chunks, each with whether the caller had aborted once it was handled. */
  datatype Chunk = Chunk(text: string, aborted: bool)

  function TextOf(chunks: seq<Chunk>): string {
    if chunks == [] then "" else chunks[0].text + TextOf(chunks[1..])
  }

  lemma {:induction false} TextOfMore(chunks: seq<Chunk>, i: nat)
    requires i < |chunks|
    ensures TextOf(chunks[..i + 1]) == TextOf(chunks[..i]) + chunks[i].text
    decreases chunks
  {
    if i > 0 {
      assert chunks[..i + 1][1..] == chunks[1..][..i] && chunks[..i][1..] == chunks[1..][..i - 1];
      TextOfMore(chunks[1..], i - 1);
    } else {
      assert chunks[..1][1..] == [];
    }
  }

  /** How many chunks are handled: all of them, or those up to the abort. */
  function Handled(chunks: seq<Chunk>): (n: nat)
    ensures n <= |chunks|
  {
    if chunks == [] then 0 else if chunks[0].aborted then 1 else 1 + Handled(chunks[1..])
  }

  lemma {:induction false} HandledIs(chunks: seq<Chunk>, i: nat)
    requires i <= |chunks| && forall j :: 0 <= j < i ==> !chunks[j].aborted
    ensures Handled(chunks) == i + Handled(chunks[i..])
    decreases i
  {
    if i > 0 {
      HandledIs(chunks[1..], i - 1);
      assert chunks[1..][i - 1..] == chunks[i..];
    } else {
      assert chunks[0..] == chunks;
    }
  }

  /** One turn of the inner loop: the first frame moves from the buffer to the delivered. */
  lemma FrameDelivered<E>(frames: seq<string>, buffer: string, parse: string -> Option<E>)
    requires Find(buffer, BLANK_LINE).Some?
    ensures var i := Find(buffer, BLANK_LINE).value;
      var event := EventOf(buffer[..i], parse);
      && frames + Pieces(buffer, BLANK_LINE) == (frames + [buffer[..i]]) + Pieces(buffer[i + 2..], BLANK_LINE)
      && Rest(buffer, BLANK_LINE) == Rest(buffer[i + 2..], BLANK_LINE)
      && EventsOf(frames + [buffer[..i]], parse)
           == EventsOf(frames, parse) + (match event case Some(e) => [e] case None => [])
  {
    hide Find, At, EventOf;
    var frame := buffer[..Find(buffer, BLANK_LINE).value];
    EventsAppend(frames, [frame], parse);
    assert [frame][1..] == [];
  }

  lemma NothingRead<E>(chunks: seq<Chunk>, parse: string -> Option<E>)
    ensures TextOf(chunks[..0]) == "" && Pieces("", BLANK_LINE) == [] && Rest("", BLANK_LINE) == ""
      && EventsOf([], parse) == []
  {
  }

  /** The read loop. What it delivers depends on the text alone, not on the chunks. */
  method DeliverFrames<E>(chunks: seq<Chunk>, parse: string -> Option<E>) returns (delivered: seq<E>,
                          buffer: string, ended: Ended)
    ensures var text := TextOf(chunks[..Handled(chunks)]);
      delivered == EventsOf(Pieces(text, BLANK_LINE), parse) && buffer == Rest(text, BLANK_LINE)
    ensures ended == if exists i :: 0 <= i < |chunks| && chunks[i].aborted then Aborted else Finished
  {
    hide Find, At, EventOf, Pieces, Rest, EventsOf, TextOf;
    delivered, buffer := [], "";
    ghost var frames: seq<string> := [];
    NothingRead(chunks, parse);
    for i := 0 to |chunks|
      invariant forall j :: 0 <= j < i ==> !chunks[j].aborted
      invariant frames == Pieces(TextOf(chunks[..i]), BLANK_LINE) && buffer == Rest(TextOf(chunks[..i]), BLANK_LINE)
      invariant delivered == EventsOf(frames, parse)
    {
      SplitExtends(TextOf(chunks[..i]), chunks[i].text, BLANK_LINE);
      TextOfMore(chunks, i);
      ghost var whole := TextOf(chunks[..i + 1]);
      buffer := buffer + chunks[i].text;
      var boundary := Find(buffer, BLANK_LINE);
      while boundary.Some?
        invariant boundary == Find(buffer, BLANK_LINE)
        invariant frames + Pieces(buffer, BLANK_LINE) == Pieces(whole, BLANK_LINE)
        invariant Rest(buffer, BLANK_LINE) == Rest(whole, BLANK_LINE)
        invariant delivered == EventsOf(frames, parse)
        decreases |buffer|
      {
        FrameDelivered(frames, buffer, parse);
        var frame := buffer[..boundary.value];
        buffer := buffer[boundary.value + 2..];
        var event := EventOf(frame, parse);
        frames := frames + [frame];
        if event.Some? { delivered := delivered + [event.value]; }
        boundary := Find(buffer, BLANK_LINE);
      }
      Uncut(buffer, BLANK_LINE);
      if chunks[i].aborted {
        HandledIs(chunks, i);
        assert chunks[i..][0].aborted && frames + [] == frames;
        return delivered, buffer, Aborted;
      }
    }
    HandledIs(chunks, |chunks|);
    ended := Finished;
  }

  /** Two ways of cutting the same text deliver the same events. */
  lemma ChunkingInvisible<E>(a: seq<Chunk>, b: seq<Chunk>, parse: string -> Option<E>)
    requires TextOf(a) == TextOf(b)
    requires forall c :: c in a || c in b ==> !c.aborted
    ensures EventsOf(Pieces(TextOf(a[..Handled(a)]), BLANK_LINE), parse)
         == EventsOf(Pieces(TextOf(b[..Handled(b)]), BLANK_LINE), parse)
  {
    AllHandled(a);
    AllHandled(b);
  }

  lemma AllHandled(chunks: seq<Chunk>)
    requires forall c :: c in chunks ==> !c.aborted
    ensures Handled(chunks) == |chunks| && chunks[..Handled(chunks)] == chunks
  {
    HandledIs(chunks, |chunks|);
    assert chunks[|chunks|..] == [];
  }

  /** The events as a server writes them. */
  function Sent(payloads: seq<string>): string {
    if payloads == [] then "" else "data: " + payloads[0] + "\n\n" + Sent(payloads[1..])
  }

  function Parsed<E>(payloads: seq<string>, parse: string -> Option<E>): seq<E> {
    if payloads == [] then []
    else (match parse(payloads[0]) case Some(e) => [e] case None => []) + Parsed(payloads[1..], parse)
  }

  /** What is sent is what is received: of payloads on one line each, those that parse, in
      order, and nothing is left over. */
  lemma {:induction false} SentIsReceived<E>(payloads: seq<string>, parse: string -> Option<E>)
    requires forall i :: 0 <= i < |payloads| ==> '\n' !in payloads[i]
    ensures EventsOf(Pieces(Sent(payloads), BLANK_LINE), parse) == Parsed(payloads, parse)
    ensures Rest(Sent(payloads), BLANK_LINE) == ""
  {
    hide Find, At;
    if payloads == [] {
      NothingRead<E>([], parse);
    } else {
      var frame, rest := "data: " + payloads[0], Sent(payloads[1..]);
      FirstFrame(frame, rest);
      assert Sent(payloads) == frame + "\n\n" + rest;
      SentIsReceived(payloads[1..], parse);
      assert frame[|DATA|..] == payloads[0];
      var pieces := [frame] + Pieces(rest, BLANK_LINE);
      assert pieces[0] == frame && pieces[1..] == Pieces(rest, BLANK_LINE);
    }
  }

  lemma FirstFrame(frame: string, rest: string)
    requires '\n' !in frame
    ensures var s := frame + "\n\n" + rest;
      Pieces(s, BLANK_LINE) == [frame] + Pieces(rest, BLANK_LINE) && Rest(s, BLANK_LINE) == Rest(rest, BLANK_LINE)
  {
    var s := frame + "\n\n" + rest;
    assert s[|frame|..|frame| + 2] == "\n\n" && s[..|frame|] == frame && s[|frame| + 2..] == rest;
    assert At(s, |frame|, BLANK_LINE);
    forall j: nat | j < |frame| ensures !At(s, j, BLANK_LINE) {
      assert s[j] == frame[j] && frame[j] in frame;
      if At(s, j, BLANK_LINE) { AtStarts(s, j); }
    }
    assert Find(s, BLANK_LINE) == Some(|frame|);
  }

  lemma AtStarts(s: string, j: nat)
    requires At(s, j, BLANK_LINE)
    ensures s[j] == '\n'
  {
    assert s[j..j + 2][0] == s[j];
  }

  /** Other frames say nothing. */
  lemma OtherFramesSayNothing<E>(frame: string, parse: string -> Option<E>)
    requires !("data: " <= frame)
    ensures EventOf(frame, parse) == None
  {
  }
}
