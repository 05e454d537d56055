/** Parsing what the serializer wrote gives the draft back. */
module EntryRoundTrip {
  import opened Json
  import opened EntryDocument
  import opened EntrySplice
  import opened EntryWrite
  import opened EntryPaths
  import opened EntryAnchors
  import opened EntryTies
  import opened EntryRoot
  import opened EntryFile
  import opened Text

  // ----- finding the fence again -----

  /** `raw` is a block between fences and what follows: the opening fence with its line break,
      the YAML text, an optional break, the closing fence, and its line end. */
  ghost predicate Fences(raw: string, open: string, yaml: string, gap: string, close: string, body: string) {
    && raw == "---" + open + yaml + gap + "---" + close + body
    && open in {"\n", "\r\n"} && gap in {"", "\n", "\r", "\r\n"}
    && (close in {"\n", "\r\n"} || (close == "" && body == ""))
  }

  lemma OpeningOf(open: string, rest: string)
    requires open in {"\n", "\r\n"}
    ensures Opening("---" + open + rest) == 3 + |open|
  {
    var raw := "---" + open + rest;
    assert open == "\n" ==> raw[..4] == "---\n";
    assert open == "\r\n" ==> raw[..5] == "---\r\n" && raw[3] == '\r';
  }

  lemma GapAt(front: string, gap: string, rest: string)
    requires gap in {"", "\n", "\r", "\r\n"} && rest != "" && rest[0] == '-'
    ensures PastBreak(front + gap + rest, |front|) == |front + gap|
  {
    var s := front + gap + rest;
    assert s[|front + gap|] == '-';
    assert gap != "" ==> s[|front|] == gap[0];
    assert |gap| == 2 ==> s[|front| + 1] == gap[1];
  }

  lemma CloseAfter(front: string, close: string, body: string)
    requires close in {"\n", "\r\n"} || (close == "" && body == "")
    ensures LineEnd(front + close + body, |front|).Some?
  {
    var s := front + close + body;
    assert close != "" ==> s[|front|] == close[0];
    assert |close| == 2 ==> s[|front| + 1] == close[1];
  }

  lemma DashesAfter(front: string, tail: string)
    ensures DashesAt(front + "---" + tail, |front|)
  {
    var s := front + "---" + tail;
    assert s[|front|] == "---"[0] && s[|front| + 1] == "---"[1] && s[|front| + 2] == "---"[2];
  }

  /** A closing fence behind `front`, whatever comes before. */
  lemma FenceAfter(front: string, gap: string, close: string, body: string)
    requires gap in {"", "\n", "\r", "\r\n"}
    requires close in {"\n", "\r\n"} || (close == "" && body == "")
    ensures FenceAt(front + gap + "---" + close + body, |front|)
  {
    var raw, rest := front + gap + "---" + close + body, "---" + close + body;
    GapAt(front, gap, rest);
    DashesAfter(front + gap, close + body);
    CloseAfter(front + gap + "---", close, body);
    hide PastBreak, DashesAt, LineEnd;
    assert raw == front + gap + rest && raw == (front + gap) + "---" + (close + body);
  }

  lemma FencesAt(raw: string, open: string, yaml: string, gap: string, close: string, body: string)
    requires Fences(raw, open, yaml, gap, close, body)
    ensures Opening(raw) == 3 + |open| && |raw| >= Opening(raw) + |yaml| && FenceAt(raw, Opening(raw) + |yaml|)
  {
    hide Opening, FenceAt;
    OpeningOf(open, yaml + gap + "---" + close + body);
    FenceAfter("---" + open + yaml, gap, close, body);
    assert raw == "---" + open + (yaml + gap + "---" + close + body);
  }

  lemma BreakAfterDashes(raw: string)
    requires Opening(raw) != 0
    ensures raw[..3] == "---" && raw[3..Opening(raw)] == if Opening(raw) == 4 then "\n" else "\r\n"
  {
    assert Opening(raw) == 4 ==> raw[..4] == "---\n" && raw[..4][..3] == raw[..3] && raw[..4][3..] == raw[3..4];
    assert Opening(raw) == 5 ==> raw[..5] == "---\r\n" && raw[..5][..3] == raw[..3] && raw[..5][3..] == raw[3..5];
  }

  lemma CloseIs(raw: string, i: nat)
    requires i <= |raw| && LineEnd(raw, i).Some?
    ensures var c := LineEnd(raw, i).value;
      && i + c <= |raw|
      && (raw[i..i + c] in {"\n", "\r\n"} || (raw[i..i + c] == "" && raw[i + c..] == ""))
  {
    var c := LineEnd(raw, i).value;
    if c == 1 { assert raw[i..i + c] == "\n"; }
    if c == 2 { assert raw[i..i + c] == "\r\n"; }
  }

  lemma GapIs(raw: string, e: nat)
    requires e <= |raw|
    ensures raw[e..PastBreak(raw, e)] in {"", "\n", "\r", "\r\n"}
  {
    var q := PastBreak(raw, e);
    if q == e + 2 { assert raw[e..q] == "\r\n"; }
    if q == e + 1 && raw[e] == '\r' { assert raw[e..q] == "\r"; }
    if q == e + 1 && raw[e] != '\r' { assert raw[e..q] == "\n"; }
  }

  lemma FencesOf(raw: string, e: nat) returns (gap: string)
    requires Opening(raw) != 0 && Opening(raw) <= e <= |raw| && FenceAt(raw, e)
    ensures var q := PastBreak(raw, e);
      var c := LineEnd(raw, q + 3).value;
      && q + 3 + c <= |raw|
      && raw[..q + 3] == "---" + raw[3..Opening(raw)] + raw[Opening(raw)..e] + gap + "---"
      && Fences(raw, raw[3..Opening(raw)], raw[Opening(raw)..e], gap, raw[q + 3..q + 3 + c], raw[q + 3 + c..])
  {
    var open, q := Opening(raw), PastBreak(raw, e);
    var c := LineEnd(raw, q + 3).value;
    gap := raw[e..q];
    BreakAfterDashes(raw);
    GapIs(raw, e);
    CloseIs(raw, q + 3);
    assert raw[q..q + 3] == "---";
    hide Opening, PastBreak, LineEnd;
    assert raw[..q + 3] == raw[..3] + raw[3..open] + raw[open..e] + raw[e..q] + raw[q..q + 3];
    assert raw == raw[..q + 3] + raw[q + 3..q + 3 + c] + raw[q + 3 + c..];
  }

  /** The split in the terms of the regular expression: a file has frontmatter exactly when it
      can be read as fences around a text at all, and of all such readings the one with the
      shortest text is taken. */
  lemma SplitMeans(raw: string)
    ensures match SplitEntryFile(raw)
      case NoFrontmatter(rest) =>
        rest == raw && forall open, yaml, gap, close, body :: !Fences(raw, open, yaml, gap, close, body)
      case Fenced(frontmatter, text, end, rest) =>
        && (exists open, gap :: Fences(raw, open, text, gap, end, rest)
             && frontmatter == "---" + open + text + gap + "---")
        && forall open, yaml, gap, close, body :: Fences(raw, open, yaml, gap, close, body) ==> |text| <= |yaml|
  {
    hide Fences, FenceAt, FirstFence;
    forall open, yaml, gap, close, body | Fences(raw, open, yaml, gap, close, body)
      ensures Opening(raw) != 0 && FirstFence(raw, Opening(raw)).Some?
      ensures FirstFence(raw, Opening(raw)).value <= Opening(raw) + |yaml|
    {
      FencesAt(raw, open, yaml, gap, close, body);
    }
    if SplitEntryFile(raw).Fenced? {
      var gap := FencesOf(raw, FirstFence(raw, Opening(raw)).value);
    }
  }

  lemma {:induction false} FirstFenceIs(text: string, from: nat, e: nat)
    requires from <= e <= |text| && FenceAt(text, e)
    requires forall i :: from <= i < e ==> !FenceAt(text, i)
    ensures FirstFence(text, from) == Some(e)
    decreases e - from
  {
    if from < e { FirstFenceIs(text, from + 1, e); }
  }

  /** `s` starts with a line end of exactly `close`. */
  predicate Closes(close: string, body: string) {
    LineEnd(close + body, 0) == Some(|close|)
  }

  lemma LineEndAfter(front: string, close: string, body: string)
    requires Closes(close, body)
    ensures LineEnd(front + close + body, |front|) == Some(|close|)
  {
    assert front + close + body == front + (close + body);
  }

  /** A fence read in a text that shares everything up to another text's fence, and a line
      end after it, is that text's fence too. */
  lemma SameFences(raw: string, e: nat, text: string, i: nat)
    requires i < e <= |raw| && FenceAt(raw, e) && i <= |text|
    requires var q := PastBreak(raw, e) + 3; q <= |text| && text[..q] == raw[..q] && LineEnd(text, q).Some?
    requires FenceAt(text, i)
    ensures FenceAt(raw, i)
  {
    var q, p := PastBreak(raw, e), PastBreak(text, i);
    assert forall j :: 0 <= j < q + 3 ==> text[j] == text[..q + 3][j] == raw[..q + 3][j] == raw[j];
    assert raw[q] == '-' && raw[q + 2] == '-';
    assert PastBreak(raw, i) == p;
  }

  /** A text is split where its first fence is. */
  lemma SplitIs(front: string, close: string, body: string, e: nat)
    requires Closes(close, body)
    requires var text := front + close + body;
      && Opening(text) != 0 && FirstFence(text, Opening(text)) == Some(e) && PastBreak(text, e) + 3 == |front|
    ensures SplitEntryFile(front + close + body)
      == Fenced(front, (front + close + body)[Opening(front + close + body)..e], close, body)
  {
    var text := front + close + body;
    LineEndAfter(front, close, body);
    assert text[..|front|] == front;
    assert text[|front|..|front| + |close|] == close;
    assert text[|front| + |close|..] == body;
  }

  lemma SameOpening(raw: string, text: string, e: nat)
    requires Opening(raw) != 0 && Opening(raw) <= e <= |raw| && FenceAt(raw, e)
    requires var q := PastBreak(raw, e) + 3; q <= |text| && text[..q] == raw[..q] && LineEnd(text, q).Some?
    ensures Opening(text) == Opening(raw) && e <= |text| && PastBreak(text, e) == PastBreak(raw, e) && FenceAt(text, e)
  {
    var q := PastBreak(raw, e) + 3;
    assert forall j :: 0 <= j < q ==> text[j] == text[..q][j] == raw[..q][j] == raw[j];
    assert "---\n" <= raw ==> "---\n" <= text;
  }

  lemma FenceOfReplacedBody(raw: string, text: string, e: nat)
    requires Opening(raw) != 0 && FirstFence(raw, Opening(raw)) == Some(e)
    requires var q := PastBreak(raw, e) + 3; q <= |text| && text[..q] == raw[..q] && LineEnd(text, q).Some?
    ensures Opening(text) == Opening(raw) && PastBreak(text, e) == PastBreak(raw, e)
    ensures FirstFence(text, Opening(raw)) == Some(e)
  {
    hide Opening, PastBreak, FirstFence, FenceAt, LineEnd;
    SameOpening(raw, text, e);
    forall i | Opening(raw) <= i < e ensures !FenceAt(text, i) {
      if FenceAt(text, i) { SameFences(raw, e, text, i); }
    }
    FirstFenceIs(text, Opening(raw), e);
  }

  /** Replacing everything after the closing fence leaves the frontmatter as it was read. */
  lemma SplitOfReplacedBody(raw: string, close: string, body: string)
    requires SplitEntryFile(raw).Fenced? && Closes(close, body)
    ensures SplitEntryFile(SplitEntryFile(raw).frontmatter + close + body)
         == Fenced(SplitEntryFile(raw).frontmatter, SplitEntryFile(raw).yaml, close, body)
  {
    var e := FirstFence(raw, Opening(raw)).value;
    var q := PastBreak(raw, e) + 3;
    var text := raw[..q] + close + body;
    LineEndAfter(raw[..q], close, body);
    assert text[..q] == raw[..q];
    FenceOfReplacedBody(raw, text, e);
    SplitIs(raw[..q], close, body, e);
    SameSlice(raw, text, Opening(raw), e, q);
  }

  lemma SameSlice(s: string, t: string, i: nat, j: nat, n: nat)
    requires i <= j <= n <= |s| && n <= |t| && s[..n] == t[..n]
    ensures s[i..j] == t[i..j]
  {
    assert s[..n][i..j] == s[i..j] && t[..n][i..j] == t[i..j];
  }

  /** Printed YAML the fences can hold: it ends in a line break and has no `---` directly
      before a line end. */
  predicate Embeddable(printed: string) {
    && printed != "" && printed[|printed| - 1] == '\n'
    && forall i :: 0 <= i < |printed| && DashesAt(printed, i) ==> LineEnd(printed, i + 3).None?
  }

  /** `printed` without its last line break: what the lazy match captures. */
  function Chomp(printed: string): string
    requires printed != ""
  {
    var n := |printed| - 1;
    if n > 0 && printed[n - 1] == '\r' then printed[..n - 1] else printed[..n]
  }

  lemma NoFenceInside(printed: string, text: string, i: nat)
    requires Embeddable(printed) && i < |Chomp(printed)| && 4 + |printed| <= |text|
    requires forall j :: 0 <= j < |printed| ==> text[4 + j] == printed[j]
    ensures !FenceAt(text, 4 + i)
  {
    var n := |printed|;
    var q := PastBreak(text, 4 + i);
    assert text[4 + n - 1] == '\n';
    assert q < 4 + n;
    if DashesAt(text, q) {
      assert q + 3 < 4 + n;
      assert DashesAt(printed, q - 4);
    }
  }

  /** The printed block with what closes it, as characters. */
  lemma PrintedLayout(printed: string, rest: string)
    requires Embeddable(printed)
    ensures var text := "---\n" + printed + "---" + rest;
      && Opening(text) == 4
      && PastBreak(text, 4 + |Chomp(printed)|) == 4 + |printed|
      && DashesAt(text, 4 + |printed|)
      && text[4..4 + |Chomp(printed)|] == Chomp(printed)
      && forall j :: 0 <= j < |printed| ==> text[4 + j] == printed[j]
  {
    var text := "---\n" + printed + "---" + rest;
    assert forall j :: 0 <= j < |printed| ==> text[4 + j] == printed[j];
    assert text[4 + |printed|] == '-';
    assert text[..4] == "---\n";
  }

  lemma PrintedFence(printed: string, rest: string)
    requires Embeddable(printed) && LineEnd(rest, 0).Some?
    ensures FirstFence("---\n" + printed + "---" + rest, 4) == Some(4 + |Chomp(printed)|)
  {
    var text := "---\n" + printed + "---" + rest;
    var e := 4 + |Chomp(printed)|;
    PrintedLayout(printed, rest);
    assert FenceAt(text, e) by {
      assert text == ("---\n" + printed + "---") + rest;
      assert LineEnd(text, 4 + |printed| + 3).Some?;
    }
    forall i | 4 <= i < e ensures !FenceAt(text, i) {
      NoFenceInside(printed, text, i - 4);
    }
    FirstFenceIs(text, 4, e);
  }

  lemma SplitOfPrinted(printed: string, close: string, body: string)
    requires Embeddable(printed) && Closes(close, body)
    ensures SplitEntryFile("---\n" + printed + "---" + close + body)
         == Fenced("---\n" + printed + "---", Chomp(printed), close, body)
  {
    var front := "---\n" + printed + "---";
    assert front + close + body == "---\n" + printed + "---" + (close + body);
    PrintedLayout(printed, close + body);
    PrintedFence(printed, close + body);
    SplitIs(front, close, body, 4 + |Chomp(printed)|);
  }

  // ----- the body -----

  lemma AnchorIsSpace(rawBody: string, draftBody: string) returns (lead: string, rest: string)
    ensures AllSpace(lead) && AllSpace(rest) && AnchorBody(rawBody, draftBody) == lead + draftBody + rest
  {
    lead := rawBody[..|rawBody| - |TrimStart(rawBody)|];
    var tail := rawBody[|TrimEnd(rawBody)|..];
    rest := if tail != "" && EndsWith(draftBody, tail) then "" else tail;
  }

  lemma BreakBeforeSpace(lead: string, s: string, rest: string)
    requires AllSpace(lead)
    ensures AllSpace("\n" + lead) && "\n" + (lead + s + rest) == ("\n" + lead) + s + rest
  {
  }

  /** A re-anchored body trims to what was written, also behind a line break. */
  lemma AnchoredBodyTrims(rawBody: string, draftBody: string)
    requires Trimmed(draftBody)
    ensures Trim(AnchorBody(rawBody, draftBody)) == draftBody
    ensures Trim("\n" + AnchorBody(rawBody, draftBody)) == draftBody
  {
    var lead, rest := AnchorIsSpace(rawBody, draftBody);
    TrimCore(lead, draftBody, rest);
    BreakBeforeSpace(lead, draftBody, rest);
    TrimCore("\n" + lead, draftBody, rest);
  }

  /** The white space around a body that is not blank. */
  lemma AroundBody(rawBody: string) returns (lead: string, tail: string)
    requires Trim(rawBody) != ""
    ensures AllSpace(lead) && AllSpace(tail) && rawBody == lead + Trim(rawBody) + tail && Trimmed(Trim(rawBody))
    ensures forall b :: Trimmed(b) ==> AnchorBody(rawBody, b) == lead + b + tail
  {
    hide TrimStart, TrimEnd, Trim;
    var core := TrimStart(rawBody);
    lead := rawBody[..|rawBody| - |core|];
    assert rawBody == lead + core;
    TrimIs(rawBody);
    TrimEnds(lead, core);
    tail := core[|TrimEnd(core)|..];
    assert core == TrimEnd(core) + tail && TrimEnd(rawBody) == lead + TrimEnd(core);
    assert rawBody[|TrimEnd(rawBody)|..] == tail;
    CoreIsTrimmed(rawBody);
    forall b | Trimmed(b) ensures AnchorBody(rawBody, b) == lead + b + tail {
      if tail != "" { TailIsNoEnd(b, tail); }
    }
  }

  lemma CoreIsTrimmed(rawBody: string)
    ensures Trimmed(Trim(rawBody))
  {
    hide TrimEnd, TrimStart;
    TrimIs(rawBody);
    var core := TrimStart(rawBody);
    var s := TrimEnd(core);
    if s != "" { assert s[0] == core[..|s|][0] == core[0]; }
  }

  lemma TailIsNoEnd(b: string, tail: string)
    requires Trimmed(b) && AllSpace(tail) && tail != ""
    ensures !EndsWith(b, tail)
  {
    if b != "" { SolidEnd(b, tail); }
  }

  /** A body that is all white space is put back on either side of the new text. */
  lemma AnchorOfBlank(rawBody: string, draftBody: string)
    requires AllSpace(rawBody) && Trimmed(draftBody)
    ensures AnchorBody(rawBody, draftBody) == rawBody + draftBody + rawBody
    ensures Trim(rawBody) == ""
  {
    TrimStartPast(rawBody, "");
    TrimEndPast("", rawBody);
    assert rawBody + "" == rawBody && "" + rawBody == rawBody;
    assert TrimStart(rawBody) == "" && TrimEnd(rawBody) == "" && TrimEnd("") == "";
    assert rawBody[..|rawBody|] == rawBody && rawBody[0..] == rawBody;
    if rawBody != "" { TailIsNoEnd(draftBody, rawBody); }
  }

  /** A draft that already ends with the file's trailing white space does not get it twice. */
  lemma TailOnce(rawBody: string, text: string)
    ensures var lead, tail := rawBody[..|rawBody| - |TrimStart(rawBody)|], rawBody[|TrimEnd(rawBody)|..];
      AnchorBody(rawBody, text + tail) == lead + text + tail
  {
    hide TrimStart, TrimEnd;
    var tail := rawBody[|TrimEnd(rawBody)|..];
    assert (text + tail)[|text + tail| - |tail|..] == tail;
    assert EndsWith(text + tail, tail);
    assert tail == "" ==> text + tail == text;
    assert forall s: string :: s + "" == s;
  }

  lemma BlankIsAllSpace(rawBody: string)
    requires Trim(rawBody) == ""
    ensures AllSpace(rawBody)
  {
    var core := TrimStart(rawBody);
    assert TrimEnd(core) == "";
    assert core[0..] == core;
    assert rawBody == rawBody[..|rawBody| - |core|] + core;
  }

  /** Anchoring the body's own text gives back the raw body, white space and all, if and only
      if the body is empty or not blank; a blank one comes out doubled. */
  lemma AnchorRestores(rawBody: string)
    ensures AnchorBody(rawBody, Trim(rawBody)) == rawBody <==> rawBody == "" || Trim(rawBody) != ""
    ensures Trim(rawBody) == "" ==> AnchorBody(rawBody, Trim(rawBody)) == rawBody + rawBody
  {
    hide Trim, AnchorBody;
    if Trim(rawBody) == "" {
      BlankIsAllSpace(rawBody);
      AnchorOfBlank(rawBody, "");
      assert rawBody + "" + rawBody == rawBody + rawBody;
    } else {
      var lead, tail := AroundBody(rawBody);
    }
  }

  /** Writing a body and then the old one again gives the raw body back if and only if it had
      no white space around it, or neither it nor the text between was blank. */
  lemma BodyComesBack(rawBody: string, draftBody: string)
    requires Trimmed(draftBody)
    ensures AnchorBody(AnchorBody(rawBody, draftBody), Trim(rawBody)) == rawBody
       <==> Trimmed(rawBody) || (Trim(rawBody) != "" && draftBody != "")
  {
    hide Trim, AnchorBody, Trimmed, AllSpace;
    if Trim(rawBody) == "" {
      BlankIsAllSpace(rawBody);
      BlankComesBack(rawBody, draftBody);
    } else {
      var lead, tail := AroundBody(rawBody);
      assert AnchorBody(rawBody, draftBody) == lead + draftBody + tail;
      SpacedComesBack(lead, Trim(rawBody), tail, draftBody);
      if lead != "" || tail != "" { SpacedIsNotTrimmed(lead, Trim(rawBody), tail); }
      if lead == "" && tail == "" { assert rawBody == Trim(rawBody); }
    }
  }

  lemma SpacedIsNotTrimmed(lead: string, s: string, tail: string)
    requires AllSpace(lead) && AllSpace(tail) && (lead != "" || tail != "")
    ensures !Trimmed(lead + s + tail)
  {
    var t := lead + s + tail;
    if lead != "" {
      assert t[0] == lead[0];
    } else {
      assert t[|t| - 1] == tail[|tail| - 1];
    }
  }

  lemma BlankComesBack(rawBody: string, draftBody: string)
    requires AllSpace(rawBody) && Trimmed(draftBody)
    ensures AnchorBody(AnchorBody(rawBody, draftBody), "") == rawBody <==> rawBody == ""
    ensures Trimmed(rawBody) <==> rawBody == ""
  {
    hide AnchorBody;
    AnchorOfBlank(rawBody, draftBody);
    var once := rawBody + draftBody + rawBody;
    if draftBody == "" {
      AnchorOfBlank(once, "");
      assert |AnchorBody(once, "")| == 4 * |rawBody|;
    } else {
      TrimCore(rawBody, draftBody, rawBody);
      AnchorAround(rawBody, draftBody, rawBody, "");
      assert |AnchorBody(once, "")| == 2 * |rawBody|;
    }
    if rawBody != "" { assert IsSpace(rawBody[0]); }
  }

  /** Text with known white space around it, anchored to another. */
  lemma AnchorAround(lead: string, s: string, tail: string, b: string)
    requires AllSpace(lead) && AllSpace(tail) && s != "" && Trimmed(s) && Trimmed(b)
    ensures AnchorBody(lead + s + tail, b) == lead + b + tail
  {
    var raw := lead + s + tail;
    assert raw == lead + (s + tail) && raw == (lead + s) + tail;
    TrimStartPast(lead, s + tail);
    assert (lead + s)[|lead + s| - 1] == s[|s| - 1];
    TrimEndPast(lead + s, tail);
    hide TrimStart, TrimEnd;
    assert raw[..|lead|] == lead && raw[|lead + s|..] == tail;
    if tail != "" { TailIsNoEnd(b, tail); }
  }

  lemma SpacedComesBack(lead: string, s: string, tail: string, b: string)
    requires AllSpace(lead) && AllSpace(tail) && s != "" && Trimmed(s) && Trimmed(b)
    ensures AnchorBody(lead + b + tail, s) == lead + s + tail <==> b != "" || (lead == "" && tail == "")
  {
    hide AnchorBody;
    if b == "" {
      var blank := lead + tail;
      assert lead + b + tail == blank;
      AnchorOfBlank(blank, s);
      assert |AnchorBody(blank, s)| == 2 * |lead| + 2 * |tail| + |s|;
    } else {
      AnchorAround(lead, b, tail, s);
    }
  }

  /** Clearing a body and typing it again doubles the blank lines around it. */
  lemma ClearAndRetype(b: string)
    requires Trimmed(b) && b != ""
    ensures AnchorBody(AnchorBody("\n" + b + "\n", ""), b) == "\n\n" + b + "\n\n"
  {
    hide AnchorBody;
    assert AllSpace("\n");
    AnchorAround("\n", b, "\n", "");
    assert "\n" + "" + "\n" == "\n\n" && AllSpace("\n\n");
    AnchorOfBlank("\n\n", b);
  }

  lemma SolidEnd(s: string, tail: string)
    requires s != "" && !IsSpace(s[|s| - 1]) && tail != "" && AllSpace(tail)
    ensures !EndsWith(s, tail)
  {
    assert |tail| <= |s| ==> s[|s| - |tail|..][|tail| - 1] == s[|s| - 1];
  }

  lemma TrimIs(s: string)
    ensures Trim(s) == TrimEnd(TrimStart(s))
  {
  }

  lemma TrimEnds(lead: string, core: string)
    requires TrimEnd(core) != ""
    ensures TrimEnd(lead + core) == lead + TrimEnd(core)
  {
    var s, tail := TrimEnd(core), core[|TrimEnd(core)|..];
    assert core == s + tail && lead + core == (lead + s) + tail;
    TrimEndPast(lead + s, tail);
  }

  // ----- the file -----

  /** What is asked of the library for one document: its text fits between fences and
      reads back as what the document says. */
  predicate Readable(yaml: Yaml, contents: Option<Node>) {
    var text := yaml.stringify(contents);
    && Embeddable(text)
    && yaml.parse(Chomp(text)).Some?
    && DataOf(yaml.parse(Chomp(text)).value) == DataOf(contents)
  }

  lemma SeparatorCloses(raw: string, bodyText: string)
    ensures var split := SplitEntryFile(raw);
      Closes(if split.NoFrontmatter? then "\n" else Separator(split, bodyText), bodyText)
  {
    var split := SplitEntryFile(raw);
    if split.Fenced? {
      var q := PastBreak(raw, FirstFence(raw, Opening(raw)).value) + 3;
      assert split.close == raw[q..q + LineEnd(raw, q).value];
      LineEndText(raw, q);
    }
  }

  lemma LineEndText(text: string, i: nat)
    requires i <= |text| && LineEnd(text, i).Some?
    ensures var n := LineEnd(text, i).value;
      i + n <= |text| && text[i..i + n] in {"", "\n", "\r\n"} && (n == 0 ==> i == |text|)
  {
    var n := LineEnd(text, i).value;
    if n == 0 { assert text[i..i] == ""; }
    if n == 1 { assert text[i..i + 1] == "\n"; }
    if n == 2 { assert text[i..i + 2] == "\r\n"; }
  }

  /** The bytes of a write that leaves the frontmatter alone split as the old file did. */
  lemma BodyOnlySplits(raw: string, bodyText: string)
    ensures var split := SplitEntryFile(raw);
      var again := SplitEntryFile(BodyOnly(split, bodyText));
      if split.NoFrontmatter? then again == NoFrontmatter(Separator(split, bodyText) + bodyText)
      else again == Fenced(split.frontmatter, split.yaml, Separator(split, bodyText), bodyText)
  {
    var split := SplitEntryFile(raw);
    SeparatorCloses(raw, bodyText);
    if split.Fenced? {
      SplitOfReplacedBody(raw, Separator(split, bodyText), bodyText);
    } else {
      assert FrontmatterOf(split) + Separator(split, bodyText) + bodyText == Separator(split, bodyText) + bodyText;
    }
  }

  /** A rewritten block and a body, read back. */
  lemma PrintedReadsBack(raw: string, contents: Option<Node>, bodyText: string, yaml: Yaml)
    requires Readable(yaml, contents)
    ensures SplitEntryFile(BlockAndBody(SplitEntryFile(raw), yaml.stringify(contents), bodyText)).body == bodyText
    ensures ParseEntryDraft(BlockAndBody(SplitEntryFile(raw), yaml.stringify(contents), bodyText), yaml)
         == Some(EntryDraft(OrEmpty(DataOf(contents)), Trim(bodyText)))
  {
    var split := SplitEntryFile(raw);
    SeparatorCloses(raw, bodyText);
    var close := if split.NoFrontmatter? then "\n" else Separator(split, bodyText);
    SplitOfPrinted(yaml.stringify(contents), close, bodyText);
  }

  lemma DraftOfNewBody(split: Split, baseline: EntryDraft, bodyText: string, yaml: Yaml)
    requires DraftOf(split, yaml) == Some(baseline) && Trim("\n" + bodyText) == Trim(bodyText)
    ensures DraftOf(
      if split.NoFrontmatter? then NoFrontmatter(Separator(split, bodyText) + bodyText)
      else Fenced(split.frontmatter, split.yaml, Separator(split, bodyText), bodyText), yaml)
      == Some(EntryDraft(baseline.data, Trim(bodyText)))
  {
    hide Trim;
    if bodyText == "" { assert Separator(split, bodyText) + bodyText == Separator(split, bodyText); }
  }

  /** A body written under the old block, read back. */
  lemma BodyReadsBack(raw: string, baseline: EntryDraft, bodyText: string, yaml: Yaml)
    requires ParseEntryDraft(raw, yaml) == Some(baseline) && Trim("\n" + bodyText) == Trim(bodyText)
    ensures ParseEntryDraft(BodyOnly(SplitEntryFile(raw), bodyText), yaml)
      == Some(EntryDraft(baseline.data, Trim(bodyText)))
  {
    BodyOnlySplits(raw, bodyText);
    DraftOfNewBody(SplitEntryFile(raw), baseline, bodyText, yaml);
  }

  lemma BaselineOfFile(split: Split, baseline: EntryDraft, yaml: Yaml)
    requires yaml.parse("") == Some(None) && DraftOf(split, yaml) == Some(baseline)
    ensures yaml.parse(YamlOf(split)).Some?
    ensures OrEmpty(baseline.data) == baseline.data == OrEmpty(DataOf(yaml.parse(YamlOf(split)).value))
    ensures baseline.body == Trim(split.body)
  {
  }

  /** The splice a write of a file performs. */
  ghost function Write(split: Split, baseline: EntryDraft, draft: EntryDraft, protected: set<string>, yaml: Yaml,
                       order: KeyOrder): Outcome<Spliced>
    requires Lists(order) && yaml.parse(YamlOf(split)).Some?
  {
    Splice(Root(yaml.parse(YamlOf(split)).value), OrEmpty(baseline.data), OrEmpty(draft.data), [], protected, order)
  }

  /** The bytes by the outcome of the splice. */
  lemma SerializedByWrite(raw: string, baseline: EntryDraft, draft: EntryDraft, protected: set<string>, yaml: Yaml,
                          order: KeyOrder)
    requires Lists(order) && yaml.parse(YamlOf(SplitEntryFile(raw))).Some?
    ensures var split := SplitEntryFile(raw);
      var bodyText := BodyText(split, baseline.body, draft.body);
      Serialized(raw, baseline, draft, protected, yaml, order) ==
        match Write(split, baseline, draft, protected, yaml, order)
        case Threw => Threw
        case Done(s) =>
          Done(if s.touched then BlockAndBody(split, yaml.stringify(Contents(s.focus)), bodyText)
               else if draft.body != baseline.body then BodyOnly(split, bodyText) else raw)
  {
    hide SplitEntryFile, BodyText, BlockAndBody, BodyOnly, YamlOf, SpliceDrops, SpliceKeys, SpliceWhole;
  }

  /** Whatever baseline and protected paths the caller passes: the written bytes read back as
      the final document and the draft's body, or the file's own if the body is not edited. */
  lemma WrittenReadsBack(raw: string, onDisk: EntryDraft, baseline: EntryDraft, draft: EntryDraft,
                         protected: set<string>,
                         yaml: Yaml, order: KeyOrder)
    requires Lists(order) && yaml.parse("") == Some(None)
    requires ParseEntryDraft(raw, yaml) == Some(onDisk) && Trimmed(draft.body)
    requires yaml.parse(YamlOf(SplitEntryFile(raw))).Some?
    requires Write(SplitEntryFile(raw), baseline, draft, protected, yaml, order).Done?
    requires Readable(yaml, Contents(Write(SplitEntryFile(raw), baseline, draft, protected, yaml, order).value.focus))
    ensures var r := Serialized(raw, baseline, draft, protected, yaml, order);
      var final := Contents(Write(SplitEntryFile(raw), baseline, draft, protected, yaml, order).value.focus);
      var body := if draft.body != baseline.body then draft.body else onDisk.body;
      r.Done? && ParseEntryDraft(r.value, yaml) == Some(EntryDraft(OrEmpty(DataOf(final)), body))
  {
    hide Serialized, Splice, SplitEntryFile, AnchorBody, Trim, TrimStart, BlockAndBody, BodyOnly, Readable, Separator,
      YamlOf;
    var split := SplitEntryFile(raw);
    var contents := yaml.parse(YamlOf(split)).value;
    var s := Write(split, baseline, draft, protected, yaml, order).value;
    var bodyText := BodyText(split, baseline.body, draft.body);
    BaselineOfFile(split, onDisk, yaml);
    AnchoredBodyTrims(split.body, draft.body);
    SerializedByWrite(raw, baseline, draft, protected, yaml, order);
    if s.touched {
      PrintedReadsBack(raw, Contents(s.focus), bodyText, yaml);
    } else {
      FalseMeansUnchanged(Root(contents), OrEmpty(baseline.data), OrEmpty(draft.data), [], protected, order);
      if draft.body != baseline.body { BodyReadsBack(raw, onDisk, bodyText, yaml); }
    }
  }

  /** A draft that changes nothing leaves the file byte for byte. */
  lemma NothingToWrite(raw: string, baseline: EntryDraft, protected: set<string>, yaml: Yaml, order: KeyOrder)
    requires Lists(order)
    ensures Serialized(raw, baseline, baseline, protected, yaml, order) == Done(raw)
  {
    JsonEqualReflexive(OrEmpty(baseline.data));
  }

  // ----- body writes -----

  lemma RawIsSplit(raw: string)
    ensures var split := SplitEntryFile(raw); raw == FrontmatterOf(split) + CloseOf(split) + split.body
  {
    var split := SplitEntryFile(raw);
    if split.Fenced? {
      var q, n := |split.frontmatter|, |split.close|;
      assert raw == raw[..q] + raw[q..q + n] + raw[q + n..];
    } else {
      assert "" + "" + raw == raw;
    }
  }

  /** A write that leaves the frontmatter alone and edits the body keeps every byte before the
      old body, and puts the new one there, if and only if the file has a closing fence with
      a line end or the new text is empty; otherwise a line break comes between. */
  lemma BodyWriteSurgical(raw: string, baseline: EntryDraft, draft: EntryDraft, protected: set<string>, yaml: Yaml,
                          order: KeyOrder)
    requires Lists(order) && draft.body != baseline.body
    requires Rewritten(SplitEntryFile(raw), OrEmpty(baseline.data), OrEmpty(draft.data), protected, yaml, order)
      == Done(None)
    ensures var split := SplitEntryFile(raw);
      var bodyText := AnchorBody(split.body, draft.body);
      var before := FrontmatterOf(split) + CloseOf(split);
      var r := Serialized(raw, baseline, draft, protected, yaml, order);
      && raw == before + split.body
      && r == Done(before + (if CloseOf(split) != "" || bodyText == "" then "" else "\n") + bodyText)
      && (r == Done(before + bodyText) <==> CloseOf(split) != "" || bodyText == "")
  {
    hide SplitEntryFile, AnchorBody, Rewritten;
    RawIsSplit(raw);
    var split := SplitEntryFile(raw);
    var bodyText := AnchorBody(split.body, draft.body);
    var before := FrontmatterOf(split) + CloseOf(split);
    assert BodyOnly(split, bodyText)
      == before + (if CloseOf(split) != "" || bodyText == "" then "" else "\n") + bodyText;
    assert |before + "\n" + bodyText| > |before + bodyText|;
  }

  /** The new file is the old one with the text of its body replaced: every white space around
      that text is where it was, and nothing else is new. */
  ghost predicate Surgical(before: string, rawBody: string, draftBody: string, written: string) {
    exists lead, tail ::
      && AllSpace(lead) && AllSpace(tail)
      && rawBody == lead + Trim(rawBody) + tail && written == before + lead + draftBody + tail
  }

  /** A write of the body alone is surgical to the byte if and only if no line break has to
      come in front of the body and the old body was empty or not blank. */
  lemma BodyEditSurgical(raw: string, baseline: EntryDraft, draft: EntryDraft, protected: set<string>, yaml: Yaml,
                         order: KeyOrder)
    requires Lists(order) && draft.body != baseline.body && Trimmed(draft.body)
    requires Rewritten(SplitEntryFile(raw), OrEmpty(baseline.data), OrEmpty(draft.data), protected, yaml, order)
      == Done(None)
    ensures var split := SplitEntryFile(raw);
      var r := Serialized(raw, baseline, draft, protected, yaml, order);
      && r.Done?
      && (Surgical(FrontmatterOf(split) + CloseOf(split), split.body, draft.body, r.value) <==>
            && (CloseOf(split) != "" || AnchorBody(split.body, draft.body) == "")
            && (split.body == "" || Trim(split.body) != ""))
  {
    hide SplitEntryFile, AnchorBody, Rewritten, Serialized, Surgical, Trimmed, Trim;
    var split := SplitEntryFile(raw);
    BodyWriteSurgical(raw, baseline, draft, protected, yaml, order);
    var gap := if CloseOf(split) != "" || AnchorBody(split.body, draft.body) == "" then "" else "\n";
    SurgicalMeans(FrontmatterOf(split) + CloseOf(split), gap, split.body, draft.body);
  }

  lemma SurgicalMeans(before: string, gap: string, rawBody: string, draftBody: string)
    requires Trimmed(draftBody)
    ensures Surgical(before, rawBody, draftBody, before + gap + AnchorBody(rawBody, draftBody))
       <==> gap == "" && (rawBody == "" || Trim(rawBody) != "")
  {
    hide AnchorBody, Trim, Trimmed, AllSpace;
    var written := before + gap + AnchorBody(rawBody, draftBody);
    if Surgical(before, rawBody, draftBody, written) {
      var lead, tail :| AllSpace(lead) && AllSpace(tail) && rawBody == lead + Trim(rawBody) + tail
        && written == before + lead + draftBody + tail;
      assert |written| == |before| + |rawBody| - |Trim(rawBody)| + |draftBody|;
    }
    if Trim(rawBody) == "" {
      BlankIsAllSpace(rawBody);
      AnchorOfBlank(rawBody, draftBody);
      if rawBody == "" && gap == "" {
        NoSpace();
        assert rawBody == "" + Trim(rawBody) + "" && written == before + "" + draftBody + "";
      }
    } else {
      var lead, tail := AroundBody(rawBody);
      assert AnchorBody(rawBody, draftBody) == lead + draftBody + tail;
      if gap == "" { assert written == before + lead + draftBody + tail; }
    }
  }

  lemma NoSpace()
    ensures AllSpace("")
  {
  }

  /** A file without frontmatter gains a line break with every edit that leaves a body. */
  lemma PlainFileGainsBreak(raw: string, body: string, protected: set<string>, yaml: Yaml, order: KeyOrder)
    requires Lists(order) && Opening(raw) == 0 && Trimmed(raw) && body != raw && body != ""
    ensures Serialized(raw, EntryDraft(EMPTY, raw), EntryDraft(EMPTY, body), protected, yaml, order)
      == Done("\n" + body)
  {
    hide SplitEntryFile, Opening, Serialized, AnchorBody, Splice, Trimmed, JsonEqual;
    NothingFenced(raw);
    JsonEqualReflexive(EMPTY);
    AnchorOfTrimmed(raw, body);
    BodyWriteSurgical(raw, EntryDraft(EMPTY, raw), EntryDraft(EMPTY, body), protected, yaml, order);
    assert "" + "\n" + body == "\n" + body;
  }

  lemma NothingFenced(raw: string)
    requires Opening(raw) == 0
    ensures SplitEntryFile(raw) == NoFrontmatter(raw)
  {
  }

  lemma AnchorOfTrimmed(raw: string, body: string)
    requires Trimmed(raw)
    ensures AnchorBody(raw, body) == body
  {
    assert raw[..0] == "" && raw[|raw|..] == "";
  }

  // ----- the round trip -----

  lemma PlainOrEmpty(v: Json)
    requires Plain(v)
    ensures Plain(OrEmpty(v)) && !OrEmpty(v).Undefined? && OrEmpty(v) != NULL
  {
  }

  /** Parse, edit, serialize, parse, for every file that parses and every draft: the write
      throws when the document cannot take the draft, and otherwise the draft comes back
      (cleared values dropped) if and only if the document keeps it, whenever the final
      document's aliases stand for its anchored nodes. They do so exactly when every alias
      left stands for an anchored node left. */
  lemma RoundTrip(raw: string, contents: Option<Node>, baseline: EntryDraft, draft: EntryDraft, yaml: Yaml,
                  order: KeyOrder)
    requires Lists(order) && yaml.parse("") == Some(None)
    requires ParseEntryDraft(raw, yaml) == Some(baseline) && Plain(baseline.data)
    requires yaml.parse(YamlOf(SplitEntryFile(raw))) == Some(contents)
    requires Plain(draft.data) && Trimmed(draft.body)
    requires var w := Write(SplitEntryFile(raw), baseline, draft, {}, yaml, order);
      w.Done? && Consistent(w.value.focus) ==> Readable(yaml, Contents(w.value.focus))
    ensures var r := Serialized(raw, baseline, draft, {}, yaml, order);
      var w := Write(SplitEntryFile(raw), baseline, draft, {}, yaml, order);
      var b, d := baseline.data, OrEmpty(draft.data);
      && (w.Done? <==> Takes(Root(contents), b, d, [], {}, order))
      && (w.Threw? ==> r.Threw?)
      && (w.Done? && Consistent(w.value.focus) ==>
           && r.Done?
           && (ParseEntryDraft(r.value, yaml) == Some(EntryDraft(Clean(d), draft.body)) <==> FileKeeps(contents, d)))
      && (w.Done? && Consistent(Root(contents)) ==>
           (Consistent(w.value.focus) <==> Tied(TiesLeft(Root(contents), b, d, [], {}, order))))
  {
    hide SplitEntryFile, Serialized, Splice, Takes, FileKeeps, Clean, Plain, Readable, Trimmed, YamlOf, Consistent,
      TiesLeft, Tied;
    BaselineOfFile(SplitEntryFile(raw), baseline, yaml);
    PlainOrEmpty(draft.data);
    var b, d := baseline.data, OrEmpty(draft.data);
    PlainData(contents, b);
    WriteThrows(Root(contents), b, d, [], {}, order);
    SerializedByWrite(raw, baseline, draft, {}, yaml, order);
    var w := Splice(Root(contents), b, d, [], {}, order);
    if w.Done? {
      AliasesStayTrue(Root(contents), b, d, [], {}, order);
      RootSaysDraft(contents, d, order);
      if Consistent(w.value.focus) { WrittenReadsBack(raw, baseline, baseline, draft, {}, yaml, order); }
    }
  }

  lemma PlainData(contents: Option<Node>, b: Json)
    requires b == OrEmpty(DataOf(contents)) && Plain(b)
    ensures Plain(DataOf(contents))
  {
    if contents.Some? { NodesAreClean(contents.value); }
  }

  /** A write from another projection of the file than its own data, with protected paths, as
      the editor makes it. Unless the document cannot take the draft, the final document says
      the draft at every unprotected path where the values differ and holds the old node exactly
      at the paths where it is kept; and if its aliases stand for its anchored nodes the file
      reads back as that document with the draft's body. */
  lemma ProjectionWrite(raw: string, contents: Option<Node>, onDisk: EntryDraft, baseline: EntryDraft,
                        draft: EntryDraft,
                        protected: set<string>, yaml: Yaml, order: KeyOrder, p: Path)
    requires Lists(order) && yaml.parse("") == Some(None)
    requires ParseEntryDraft(raw, yaml) == Some(onDisk) && baseline.body == onDisk.body && Trimmed(draft.body)
    requires yaml.parse(YamlOf(SplitEntryFile(raw))) == Some(contents)
    requires Plain(OrEmpty(baseline.data)) && Plain(OrEmpty(draft.data))
    requires var w := Write(SplitEntryFile(raw), baseline, draft, protected, yaml, order);
      w.Done? && Consistent(w.value.focus) ==> Readable(yaml, Contents(w.value.focus))
    ensures var r := Serialized(raw, baseline, draft, protected, yaml, order);
      var w := Write(SplitEntryFile(raw), baseline, draft, protected, yaml, order);
      var root, b, d := Root(contents), OrEmpty(baseline.data), OrEmpty(draft.data);
      && (w.Done? <==> Takes(root, b, d, [], protected, order))
      && (w.Threw? ==> r.Threw?)
      && (w.Done? && Consistent(w.value.focus) ==>
           && r.Done?
           && ParseEntryDraft(r.value, yaml)
              == Some(EntryDraft(OrEmpty(DataOf(Contents(w.value.focus))), draft.body)))
      && (w.Done? && Consistent(root) ==>
           (Consistent(w.value.focus) <==> Tied(TiesLeft(root, b, d, [], protected, order))))
      && (w.Done? && Differ(b, d, [], p) && Exposed([], p, protected)
          && (FocusAt(root, p).At? ==> Plain(ToJson(FocusAt(root, p).node))) ==>
            Says(FocusAt(w.value.focus, p), Reach(b, d, p).value.1))
      && (w.Done? && FocusAt(root, p).At? ==>
            (FocusAt(w.value.focus, p) == FocusAt(root, p) <==> Kept(root, b, d, [], protected, order, p)))
  {
    hide SplitEntryFile, Serialized, Splice, Takes, Clean, Plain, Readable, Trimmed, YamlOf, Consistent, TiesLeft, Tied,
      Differ, Exposed, Kept, Says, Reach;
    var root, b, d := Root(contents), OrEmpty(baseline.data), OrEmpty(draft.data);
    WriteThrows(root, b, d, [], protected, order);
    SerializedByWrite(raw, baseline, draft, protected, yaml, order);
    var w := Splice(root, b, d, [], protected, order);
    if w.Done? {
      AliasesStayTrue(root, b, d, [], protected, order);
      if Consistent(w.value.focus) { WrittenReadsBack(raw, onDisk, baseline, draft, protected, yaml, order); }
      if Differ(b, d, [], p) && Exposed([], p, protected)
        && (FocusAt(root, p).At? ==> Plain(ToJson(FocusAt(root, p).node)))
      {
        DifferingPathSays(root, b, d, [], protected, order, p);
      }
      if FocusAt(root, p).At? { NodeStaysExactly(root, b, d, [], protected, order, p); }
    }
  }
}
