/** Building a URL for an entry id and capturing the id from it again. */
module RouteRoundTrip {
  import opened Json
  import opened Text
  import opened Percent
  import opened RouteResolver

  // ----- what the URL parser does to a built path -----

  /** Segments the URL parser takes for `.` or `..`, escaped dots included. */
  const SINGLE_DOTS: set<string> := {".", "%2e", "%2E"}
  const DOUBLE_DOTS: set<string> := {"..", ".%2e", ".%2E", "%2e.", "%2E.", "%2e%2e", "%2e%2E", "%2E%2e", "%2E%2E"}

  predicate IsDots(segment: string) {
    segment in SINGLE_DOTS || segment in DOUBLE_DOTS
  }

  /** The path state of the URL standard: dot segments vanish, `..` takes the segment before
      it along, and either leaves an empty segment at the end. */
  function RemoveDots(segments: seq<string>, done: seq<string>): seq<string>
    decreases segments
  {
    if segments == [] then done
    else
      var s, last := segments[0], if |segments| == 1 then [""] else [];
      if s in DOUBLE_DOTS then RemoveDots(segments[1..], (if done == [] then [] else done[..|done| - 1]) + last)
      else if s in SINGLE_DOTS then RemoveDots(segments[1..], done + last)
      else RemoveDots(segments[1..], done + [s])
  }

  /** The one thing assumed of the URL parser: an absolute path of unreserved characters and
      escapes keeps them all and loses its dot segments. */
  ghost predicate ParsesPaths(pathname: Pathname) {
    forall segments {:trigger PlainPath(segments)} ::
      PlainPath(segments) ==>
        pathname("/" + JoinWith(segments, '/')) == Some("/" + JoinWith(RemoveDots(segments, []), '/'))
  }

  predicate PlainPath(segments: seq<string>) {
    segments != [] && segments[0] != "" && forall i :: 0 <= i < |segments| ==> PathText(segments[i])
  }

  // ----- segments of a built path -----

  /** Static text the URL parser leaves alone. */
  predicate PathStatics(segments: seq<FlatSegment>) {
    forall i :: 0 <= i < |segments| && segments[i].Static? ==> segments[i].text != "" && PathText(segments[i].text)
  }

  /** Static text that a URL holding it is read back as. */
  predicate ReadsItself(text: string) {
    DecodeSegment(text) == text && !IsDots(text)
  }

  /** Unreserved text that is no dot segment. */
  predicate PlainText(text: string) {
    text != "." && text != ".." && forall i :: 0 <= i < |text| ==> IsUnreserved(text[i])
  }

  ghost predicate IsDot(text: string) {
    text == "." || text == ".."
  }

  /** A segment that names a text: non-empty path text that decodes to it. */
  ghost predicate Names(segment: string, text: string) {
    segment != "" && PathText(segment) && DecodeSegment(segment) == text
  }

  lemma PathTextHasNoSlash(s: string)
    requires PathText(s)
    ensures '/' !in s
  {
  }

  lemma NoEscapesNoDots(s: string)
    requires '%' !in s
    ensures IsDots(s) <==> s == "." || s == ".."
  {
    assert "%2e"[0] == '%' && "%2E"[0] == '%' && ".%2e"[1] == '%' && ".%2E"[1] == '%';
    assert "%2e."[0] == '%' && "%2E."[0] == '%';
    assert "%2e%2e"[0] == '%' && "%2e%2E"[0] == '%' && "%2E%2e"[0] == '%' && "%2E%2E"[0] == '%';
  }

  /** Plain text reads itself, so routes made of it are covered. */
  lemma PlainReadsItself(text: string)
    requires PlainText(text)
    ensures ReadsItself(text) && PathText(text)
  {
    NothingEscaped(text);
    NoEscapesNoDots(text);
  }

  /** An encoded part names the part; a dot is never escaped, so encoding makes no new dot
      segments and hides none. */
  lemma EncodedNames(part: string)
    requires part != ""
    ensures Names(Encode(part), part) && (IsDots(Encode(part)) <==> IsDot(part))
  {
    DecodeUndoesEncode(part);
    EncodeIsPathText(part);
    if IsDots(Encode(part)) { DotsDecode(Encode(part)); }
    if part == "." { EncodeDot(""); }
    if part == ".." {
      EncodeDot(".");
      EncodeDot("");
      assert "." + "." == ".." && "." + "" == ".";
    }
  }

  lemma EncodeDot(rest: string)
    ensures Encode("." + rest) == "." + Encode(rest)
  {
    assert ("." + rest)[1..] == rest;
  }

  lemma ReadDot(rest: string)
    ensures Decode("." + rest) == match Decode(rest) case Some(t) => Some("." + t) case None => None
  {
    assert ("." + rest)[1..] == rest;
  }

  lemma ReadEscapedDot(e: char, rest: string)
    requires e == 'e' || e == 'E'
    ensures Decode(['%', '2', e] + rest) == match Decode(rest) case Some(t) => Some("." + t) case None => None
  {
    var s := ['%', '2', e] + rest;
    assert HexValue('2') == Some(2) && HexValue(e) == Some(14);
    assert ReadByte(s) == Some(46) && s[3..] == rest && 46 as char == '.';
    assert ReadTails(rest, 0, 46) == Some(46);
  }

  /** Whatever the URL parser takes for a dot segment decodes to one. */
  lemma DotsDecode(s: string)
    requires IsDots(s)
    ensures Decode(s) == Some(".") || Decode(s) == Some("..")
  {
    hide Decode;
    DecodeEmpty();
    var ones := [".", "%2e", "%2E"];
    forall i | 0 <= i < 3 ensures Decode(ones[i]) == Some(".") {
      OneDot(ones[i], "");
      assert ones[i] + "" == ones[i] && "." + "" == ".";
    }
    forall i, j | 0 <= i < 3 && 0 <= j < 3 ensures Decode(ones[i] + ones[j]) == Some("..") {
      OneDot(ones[i], ones[j]);
      assert "." + "." == "..";
    }
    if s in SINGLE_DOTS {
      assert s in ones;
    } else {
      TwoDots(s, ones);
    }
  }

  lemma DecodeEmpty()
    ensures Decode("") == Some("")
  {
  }

  lemma OneDot(dot: string, rest: string)
    requires dot in SINGLE_DOTS
    ensures Decode(dot + rest) == match Decode(rest) case Some(t) => Some("." + t) case None => None
  {
    if dot == "." {
      ReadDot(rest);
    } else {
      assert dot == ['%', '2', dot[2]];
      ReadEscapedDot(dot[2], rest);
    }
  }

  lemma TwoDots(s: string, ones: seq<string>)
    requires s in DOUBLE_DOTS && ones == [".", "%2e", "%2E"]
    ensures exists i, j :: 0 <= i < 3 && 0 <= j < 3 && s == ones[i] + ones[j]
  {
    assert ones[0] + ones[0] == ".." && ones[0] + ones[1] == ".%2e" && ones[0] + ones[2] == ".%2E";
    assert ones[1] + ones[0] == "%2e." && ones[1] + ones[1] == "%2e%2e" && ones[1] + ones[2] == "%2e%2E";
    assert ones[2] + ones[0] == "%2E." && ones[2] + ones[1] == "%2E%2e" && ones[2] + ones[2] == "%2E%2E";
  }

  // ----- the built path -----

  /** The statics before the param or after it, and what stands for the param. */
  lemma {:induction false} PartsBefore(segments: seq<FlatSegment>, idParts: seq<string>, i: nat)
    requires idParts != [] && i <= |segments| && forall j :: 0 <= j < i ==> segments[j].Static?
    ensures var parts := PathParts(segments, idParts);
      && |parts| >= i && parts[i..] == PathParts(segments[i..], idParts)
      && forall j :: 0 <= j < i ==> parts[j] == segments[j].text
    decreases i
  {
    if i > 0 {
      PartsBefore(segments[1..], idParts, i - 1);
      assert segments[1..][i - 1..] == segments[i..];
      var parts, rest := PathParts(segments, idParts), PathParts(segments[1..], idParts);
      assert parts == [segments[0].text] + rest;
      assert parts[i..] == rest[i - 1..];
    }
  }

  /** The parts of a built path, one by one. */
  ghost predicate Built(flat: FlatRoute, idParts: seq<string>, parts: seq<string>)
    requires flat.SingleParamRoute? && Flat(flat)
  {
    var at, n := flat.paramAt, |idParts|;
    && |parts| == |flat.segments| - 1 + n
    && (forall j :: 0 <= j < at ==> parts[j] == flat.segments[j].text)
    && (forall j :: 0 <= j < n ==> parts[at + j] == Encode(idParts[j]))
    && (forall j :: at < j < |flat.segments| ==> parts[n - 1 + j] == flat.segments[j].text)
  }

  lemma {:induction false} AllStaticParts(segments: seq<FlatSegment>, idParts: seq<string>)
    requires idParts != [] && forall j :: 0 <= j < |segments| ==> segments[j].Static?
    ensures var parts := PathParts(segments, idParts);
      |parts| == |segments| && forall j :: 0 <= j < |segments| ==> parts[j] == segments[j].text
  {
    if segments != [] { AllStaticParts(segments[1..], idParts); }
  }

  lemma Assembled(parts: seq<string>, at: nat, middle: seq<string>, tail: seq<string>)
    requires at <= |parts| && parts[at..] == middle + tail
    ensures |parts| == at + |middle| + |tail|
    ensures forall j :: 0 <= j < |middle| ==> parts[at + j] == middle[j]
    ensures forall j :: 0 <= j < |tail| ==> parts[at + |middle| + j] == tail[j]
  {
    assert |parts[at..]| == |middle| + |tail|;
    forall j | 0 <= j < |middle| ensures parts[at + j] == middle[j] { assert parts[at + j] == parts[at..][j]; }
    forall j | 0 <= j < |tail| ensures parts[at + |middle| + j] == tail[j] {
      assert parts[at + |middle| + j] == parts[at..][|middle| + j];
    }
  }

  lemma ParamParts(segment: FlatSegment, idParts: seq<string>)
    requires idParts != [] && !segment.Static? && (segment.Param? ==> |idParts| == 1)
    ensures var middle := SegmentParts(segment, idParts);
      |middle| == |idParts| && forall j :: 0 <= j < |idParts| ==> middle[j] == Encode(idParts[j])
  {
    hide Encode;
  }

  lemma BuiltParts(flat: FlatRoute, idParts: seq<string>)
    requires flat.SingleParamRoute? && Flat(flat) && idParts != [] && TakesEntryId(flat, idParts)
    ensures Built(flat, idParts, PathParts(flat.segments, idParts))
  {
    hide Encode, SegmentParts, Built;
    var segments, at := flat.segments, flat.paramAt;
    var parts, after := PathParts(segments, idParts), segments[at + 1..];
    PartsBefore(segments, idParts, at);
    assert segments[at..][0] == segments[at] && segments[at..][1..] == after;
    AllStaticParts(after, idParts);
    BuiltFrom(flat, idParts, parts, SegmentParts(segments[at], idParts), PathParts(after, idParts));
  }

  lemma BuiltFrom(flat: FlatRoute, idParts: seq<string>, parts: seq<string>, middle: seq<string>, tail: seq<string>)
    requires flat.SingleParamRoute? && Flat(flat) && idParts != [] && TakesEntryId(flat, idParts)
    requires flat.paramAt <= |parts| && parts[flat.paramAt..] == middle + tail
    requires forall j :: 0 <= j < flat.paramAt ==> parts[j] == flat.segments[j].text
    requires middle == SegmentParts(flat.segments[flat.paramAt], idParts)
    requires |tail| == |flat.segments| - flat.paramAt - 1
    requires forall j :: 0 <= j < |tail| ==> tail[j] == flat.segments[flat.paramAt + 1 + j].text
    ensures Built(flat, idParts, parts)
  {
    hide Encode, SegmentParts;
    var segments, at, n := flat.segments, flat.paramAt, |idParts|;
    ParamParts(segments[at], idParts);
    Assembled(parts, at, middle, tail);
    forall j | at < j < |segments| ensures parts[n - 1 + j] == segments[j].text {
      assert parts[at + n + (j - at - 1)] == tail[j - at - 1];
    }
  }

  lemma {:induction false} NothingEmpty(parts: seq<string>)
    requires "" !in parts
    ensures NonEmptyParts(parts) == parts
  {
    if parts != [] {
      NothingEmpty(parts[1..]);
      assert parts == [parts[0]] + parts[1..];
    }
  }

  lemma {:induction false} NoDotsStay(segments: seq<string>, done: seq<string>)
    requires forall s :: s in segments ==> !IsDots(s)
    ensures RemoveDots(segments, done) == done + segments
    decreases segments
  {
    hide IsDots;
    if segments != [] {
      assert !IsDots(segments[0]);
      NotDots(segments[0]);
      NoDotsStay(segments[1..], done + [segments[0]]);
      assert done + [segments[0]] + segments[1..] == done + segments;
    }
  }

  lemma NotDots(s: string)
    requires !IsDots(s)
    ensures s !in SINGLE_DOTS && s !in DOUBLE_DOTS
  {
  }

  /** What is left was there. */
  lemma {:induction false} DotsVanish(segments: seq<string>, done: seq<string>, all: seq<string>)
    requires forall s :: s in segments + done ==> s == "" || s in all
    ensures forall s :: s in RemoveDots(segments, done) ==> s == "" || s in all
    ensures segments != [] ==> RemoveDots(segments, done) != []
    decreases segments
  {
    if segments != [] {
      var s, last := segments[0], if |segments| == 1 then [""] else [];
      var next :=
        if s in DOUBLE_DOTS then (if done == [] then [] else done[..|done| - 1]) + last
        else if s in SINGLE_DOTS then done + last
        else done + [s];
      DotsVanish(segments[1..], next, all);
    }
  }

  /** Removing dots goes through the segments from the left, so what was done never grows by
      more than was read. */
  lemma {:induction false} RemoveOnward(a: seq<string>, b: seq<string>, done: seq<string>) returns (mid: seq<string>)
    requires b != []
    ensures |mid| <= |done| + |a| && RemoveDots(a + b, done) == RemoveDots(b, mid)
    decreases a
  {
    if a == [] {
      assert a + b == b;
      mid := done;
    } else {
      assert (a + b)[1..] == a[1..] + b && |a + b| > 1;
      var s := a[0];
      var next :=
        if s in DOUBLE_DOTS then (if done == [] then [] else done[..|done| - 1]) + []
        else if s in SINGLE_DOTS then done + []
        else done + [s];
      mid := RemoveOnward(a[1..], b, next);
    }
  }

  /** Where the segments before are done, whatever stands further right comes from the rest. */
  lemma {:induction false} FromTheRest(segments: seq<string>, done: seq<string>, k: nat)
    requires |done| <= k < |RemoveDots(segments, done)|
    ensures RemoveDots(segments, done)[k] == "" || RemoveDots(segments, done)[k] in segments
    decreases segments
  {
    DoneOrRead(segments, done, k);
  }

  lemma {:induction false} DoneOrRead(segments: seq<string>, done: seq<string>, k: nat)
    requires k < |RemoveDots(segments, done)|
    ensures var x := RemoveDots(segments, done)[k]; (k < |done| && x == done[k]) || x == "" || x in segments
    decreases segments
  {
    if segments != [] {
      var s, last := segments[0], if |segments| == 1 then [""] else [];
      var next :=
        if s in DOUBLE_DOTS then (if done == [] then [] else done[..|done| - 1]) + last
        else if s in SINGLE_DOTS then done + last
        else done + [s];
      DoneOrRead(segments[1..], next, k);
    }
  }

  /** Every dot segment costs a segment. */
  lemma {:induction false} DotsCost(segments: seq<string>, done: seq<string>)
    ensures |NonEmptyParts(RemoveDots(segments, done))| <= |NonEmptyParts(done)| + |segments|
    ensures (exists s :: s in segments && IsDots(s)) ==>
      |NonEmptyParts(RemoveDots(segments, done))| < |NonEmptyParts(done)| + |segments|
    decreases segments
  {
    if segments != [] {
      var s, last := segments[0], if |segments| == 1 then [""] else [];
      var shorter := if done == [] then [] else done[..|done| - 1];
      var next := if s in DOUBLE_DOTS then shorter + last else if s in SINGLE_DOTS then done + last else done + [s];
      assert segments == [s] + segments[1..];
      DotsCost(segments[1..], next);
      hide SINGLE_DOTS, DOUBLE_DOTS;
      NonEmptySnoc(done, s);
      if |segments| == 1 {
        NonEmptySnoc(done, "");
        NonEmptySnoc(shorter, "");
      } else {
        assert shorter + last == shorter && done + last == done;
      }
      if done != [] {
        NonEmptySnoc(shorter, done[|done| - 1]);
        assert shorter + [done[|done| - 1]] == done;
      }
    }
  }

  lemma {:induction false} NonEmptySnoc(parts: seq<string>, last: string)
    ensures NonEmptyParts(parts + [last]) == NonEmptyParts(parts) + (if last == "" then [] else [last])
  {
    if parts == [] {
      assert [] + [last] == [last] && [last][1..] == [];
    } else {
      assert (parts + [last])[1..] == parts[1..] + [last];
      NonEmptySnoc(parts[1..], last);
    }
  }

  /** Dropping the empty parts moves nothing to the right. */
  lemma {:induction false} NonEmptyFrom(parts: seq<string>, k: nat) returns (j: nat)
    requires k < |NonEmptyParts(parts)|
    ensures k <= j < |parts| && parts[j] == NonEmptyParts(parts)[k]
  {
    if parts[0] != "" && k == 0 {
      j := 0;
    } else {
      j := NonEmptyFrom(parts[1..], if parts[0] == "" then k else k - 1);
      j := j + 1;
    }
  }

  lemma PathnameOf(parts: seq<string>, pathname: Pathname)
    requires ParsesPaths(pathname) && parts != [] && forall p :: p in parts ==> p != "" && PathText(p)
    ensures pathname("/" + JoinWith(parts, '/')) == Some("/" + JoinWith(RemoveDots(parts, []), '/'))
  {
    hide PathText, RemoveDots, JoinWith;
    assert PlainPath(parts) by { assert forall i :: 0 <= i < |parts| ==> parts[i] in parts; }
  }

  /** The URL segments of a built path: its parts without dot segments, decoded. */
  lemma BuiltSegments(parts: seq<string>, pathname: Pathname)
    requires ParsesPaths(pathname) && parts != [] && forall p :: p in parts ==> p != "" && PathText(p)
    ensures var left := RemoveDots(parts, []);
      ToUrlSegments("/" + JoinWith(parts, '/'), pathname) == DecodeAll(NonEmptyParts(left))
  {
    hide PathText, RemoveDots, ParsesPaths, DecodeSegment, SplitOn, JoinWith;
    var left := RemoveDots(parts, []);
    PathnameOf(parts, pathname);
    DotsVanish(parts, [], parts);
    forall p | p in left ensures '/' !in p {
      if p != "" { PathTextHasNoSlash(p); }
    }
    SplitPath(left);
  }

  lemma SplitPath(left: seq<string>)
    requires left != [] && Unsplit(left, '/')
    ensures NonEmptyParts(SplitOn("/" + JoinWith(left, '/'), '/')) == NonEmptyParts(left)
  {
    hide JoinWith, SplitOn;
    SplitJoined(left, '/');
    SplitFirst("", JoinWith(left, '/'), '/');
    assert "" + ['/'] == "/";
    assert ([""] + left)[1..] == left && [""] + left != [] && ([""] + left)[0] == "";
  }

  /** Without dot segments a built path is read part by part. */
  lemma ReadWhole(parts: seq<string>, pathname: Pathname)
    requires ParsesPaths(pathname) && parts != [] && forall p :: p in parts ==> p != "" && PathText(p) && !IsDots(p)
    ensures ToUrlSegments("/" + JoinWith(parts, '/'), pathname) == DecodeAll(parts)
  {
    hide PathText, IsDots, ParsesPaths, RemoveDots, NonEmptyParts, ToUrlSegments, JoinWith;
    BuiltSegments(parts, pathname);
    NoDotsStay(parts, []);
    assert [] + parts == parts;
    NothingEmpty(parts);
  }

  predicate DotsIn(parts: seq<string>) {
    exists p :: p in parts && IsDots(p)
  }

  /** With one it is read as fewer segments. */
  lemma ReadShort(parts: seq<string>, pathname: Pathname)
    requires ParsesPaths(pathname) && DotsIn(parts) && forall p :: p in parts ==> p != "" && PathText(p)
    ensures |ToUrlSegments("/" + JoinWith(parts, '/'), pathname)| < |parts|
  {
    hide PathText, ParsesPaths, ToUrlSegments, JoinWith, DecodeSegment;
    BuiltSegments(parts, pathname);
    DotsCost(parts, []);
    assert NonEmptyParts([]) == [];
  }

  /** What is read at a place does not come from before that place. */
  lemma ReadOnward(parts: seq<string>, at: nat, pathname: Pathname, k: nat) returns (j: nat)
    requires ParsesPaths(pathname) && at < |parts| && forall p :: p in parts ==> p != "" && PathText(p)
    requires at <= k < |ToUrlSegments("/" + JoinWith(parts, '/'), pathname)|
    ensures at <= j < |parts| && ToUrlSegments("/" + JoinWith(parts, '/'), pathname)[k] == DecodeSegment(parts[j])
  {
    hide PathText, ParsesPaths, ToUrlSegments, JoinWith, DecodeSegment, RemoveDots;
    BuiltSegments(parts, pathname);
    var left := RemoveDots(parts, []);
    assert NonEmptyParts(left)[k] in NonEmptyParts(left);
    var i := NonEmptyFrom(left, k);
    j := LeftFrom(parts, at, i);
  }

  lemma LeftFrom(parts: seq<string>, at: nat, i: nat) returns (j: nat)
    requires at < |parts| && at <= i < |RemoveDots(parts, [])| && RemoveDots(parts, [])[i] != ""
    ensures at <= j < |parts| && RemoveDots(parts, [])[i] == parts[j]
  {
    hide RemoveDots;
    var x := RemoveDots(parts, [])[i];
    var mid := RemoveOnward(parts[..at], parts[at..], []);
    assert parts[..at] + parts[at..] == parts;
    FromTheRest(parts[at..], mid, i);
    var n :| 0 <= n < |parts[at..]| && parts[at..][n] == x;
    j := at + n;
  }

  // ----- matching -----

  /** The statics of a route read themselves. */
  predicate StaticsRead(segments: seq<FlatSegment>) {
    forall i :: 0 <= i < |segments| && segments[i].Static? ==> ReadsItself(segments[i].text)
  }

  predicate StaticsDecode(segments: seq<FlatSegment>) {
    forall i :: 0 <= i < |segments| && segments[i].Static? ==> DecodeSegment(segments[i].text) == segments[i].text
  }

  /** Each part of a built path is a part of the id or a static text. */
  lemma PartFrom(flat: FlatRoute, idParts: seq<string>, parts: seq<string>, k: nat)
    requires flat.SingleParamRoute? && Flat(flat) && "" !in idParts && Built(flat, idParts, parts) && k < |parts|
    ensures var at, n := flat.paramAt, |idParts|;
      if at <= k < at + n then idParts[k - at] != "" && parts[k] == Encode(idParts[k - at])
      else
        var i := if k < at then k else k - n + 1;
        i < |flat.segments| && flat.segments[i].Static? && parts[k] == flat.segments[i].text
  {
    hide Encode;
    var at, n := flat.paramAt, |idParts|;
    if at <= k < at + n {
      assert parts[at + (k - at)] == Encode(idParts[k - at]) && idParts[k - at] in idParts;
    } else if k >= at + n {
      assert parts[n - 1 + (k - n + 1)] == flat.segments[k - n + 1].text;
    }
  }

  lemma PartsArePathText(flat: FlatRoute, idParts: seq<string>)
    requires flat.SingleParamRoute? && Flat(flat) && idParts != [] && TakesEntryId(flat, idParts)
    requires PathStatics(flat.segments)
    ensures forall p :: p in PathParts(flat.segments, idParts) ==> p != "" && PathText(p)
  {
    hide PathText, PathParts, Encode, DecodeSegment;
    BuiltParts(flat, idParts);
    var parts := PathParts(flat.segments, idParts);
    forall p | p in parts ensures p != "" && PathText(p) {
      var k :| 0 <= k < |parts| && parts[k] == p;
      PartFrom(flat, idParts, parts, k);
      if flat.paramAt <= k < flat.paramAt + |idParts| { EncodedNames(idParts[k - flat.paramAt]); }
    }
  }

  /** A built path has a dot segment exactly when the id has a dot part or a static is one. */
  lemma DotsInParts(flat: FlatRoute, idParts: seq<string>)
    requires flat.SingleParamRoute? && Flat(flat) && idParts != [] && TakesEntryId(flat, idParts)
    ensures DotsIn(PathParts(flat.segments, idParts))
       <==> !(&& (forall part :: part in idParts ==> !IsDot(part))
              && forall i :: 0 <= i < |flat.segments| && flat.segments[i].Static? ==> !IsDots(flat.segments[i].text))
  {
    hide PathText, IsDots, PathParts, Encode, DecodeSegment, IsDot;
    var parts, at, n := PathParts(flat.segments, idParts), flat.paramAt, |idParts|;
    BuiltParts(flat, idParts);
    if DotsIn(parts) {
      var p :| p in parts && IsDots(p);
      var k :| 0 <= k < |parts| && parts[k] == p;
      PartFrom(flat, idParts, parts, k);
      if at <= k < at + n {
        EncodedNames(idParts[k - at]);
        assert idParts[k - at] in idParts;
      }
    }
    if part :| part in idParts && IsDot(part) {
      var j :| 0 <= j < n && idParts[j] == part;
      EncodedNames(part);
      assert parts[at + j] in parts;
    }
    if i :| 0 <= i < |flat.segments| && flat.segments[i].Static? && IsDots(flat.segments[i].text) {
      assert parts[if i < at then i else n - 1 + i] in parts;
    }
  }

  lemma DecodedPart(part: string)
    requires part != ""
    ensures DecodeSegment(Encode(part)) == part
  {
    DecodeUndoesEncode(part);
  }

  /** The segments a built path is read as, when it is read whole. */
  ghost predicate Whole(flat: FlatRoute, idParts: seq<string>, us: seq<string>)
    requires flat.SingleParamRoute? && Flat(flat)
  {
    var at, n := flat.paramAt, |idParts|;
    && |us| == |flat.segments| - 1 + n
    && (forall j :: 0 <= j < at ==> us[j] == DecodeSegment(flat.segments[j].text))
    && (forall j :: 0 <= j < n ==> us[at + j] == idParts[j])
    && (forall j :: at < j < |flat.segments| ==> us[n - 1 + j] == DecodeSegment(flat.segments[j].text))
  }

  lemma WholeIsRead(flat: FlatRoute, idParts: seq<string>, parts: seq<string>, us: seq<string>)
    requires flat.SingleParamRoute? && Flat(flat) && "" !in idParts && Built(flat, idParts, parts)
    requires |us| == |parts| && forall k :: 0 <= k < |us| ==> us[k] == DecodeSegment(parts[k])
    ensures Whole(flat, idParts, us)
  {
    hide DecodeSegment, Encode;
    var at, n := flat.paramAt, |idParts|;
    forall j | 0 <= j < n ensures us[at + j] == idParts[j] {
      assert parts[at + j] == Encode(idParts[j]) && idParts[j] in idParts;
      DecodedPart(idParts[j]);
    }
    forall j | at < j < |flat.segments| ensures us[n - 1 + j] == DecodeSegment(flat.segments[j].text) {
      assert parts[n - 1 + j] == flat.segments[j].text;
    }
  }

  /** Read whole, the path matches its pattern exactly when the statics decode to themselves,
      and the param takes the id. */
  lemma CapturesWhole(flat: FlatRoute, idParts: seq<string>, us: seq<string>)
    requires flat.SingleParamRoute? && Flat(flat) && idParts != [] && TakesEntryId(flat, idParts)
    requires Whole(flat, idParts, us)
    ensures CaptureParamValue(flat, us)
      == if StaticsDecode(flat.segments) then Some(JoinWith(idParts, '/')) else None
  {
    hide DecodeSegment;
    if flat.segments[flat.paramAt].Rest? {
      RestWhole(flat, idParts, us);
    } else {
      ParamWhole(flat, idParts, us);
    }
  }

  lemma RestWhole(flat: FlatRoute, idParts: seq<string>, us: seq<string>)
    requires flat.SingleParamRoute? && Flat(flat) && idParts != [] && flat.segments[flat.paramAt].Rest?
    requires Whole(flat, idParts, us)
    ensures CaptureParamValue(flat, us)
      == if StaticsDecode(flat.segments) then Some(JoinWith(idParts, '/')) else None
  {
    hide DecodeSegment, JoinWith;
    var segments, at := flat.segments, flat.paramAt;
    assert segments[at] in segments && us[at..] == idParts;
    forall i | 0 <= i < at ensures BeforeRest(segments, i) {
      assert forall j :: 0 <= j < i + 1 ==> segments[..i + 1][j] == segments[j];
    }
    assert PatternMatchesUrl(segments, us) <==> StaticsDecode(segments);
  }

  lemma ParamWhole(flat: FlatRoute, idParts: seq<string>, us: seq<string>)
    requires flat.SingleParamRoute? && Flat(flat) && |idParts| == 1 && flat.segments[flat.paramAt].Param?
    requires Whole(flat, idParts, us)
    ensures CaptureParamValue(flat, us)
      == if StaticsDecode(flat.segments) then Some(JoinWith(idParts, '/')) else None
  {
    hide DecodeSegment;
    var segments, at := flat.segments, flat.paramAt;
    assert Rest !in segments && us[at + 0] == idParts[0];
    forall i | 0 <= i < |segments| && i != at ensures us[i] == DecodeSegment(segments[i].text) {
      if i > at { assert us[1 - 1 + i] == DecodeSegment(segments[i].text); }
    }
    assert PatternMatchesUrl(segments, us) <==> StaticsDecode(segments);
  }

  /** Read short, it does not capture the id. */
  lemma CapturesShort(flat: FlatRoute, idParts: seq<string>, us: seq<string>)
    requires flat.SingleParamRoute? && Flat(flat) && idParts != [] && TakesEntryId(flat, idParts)
    requires Unsplit(idParts, '/') && |us| < |flat.segments| - 1 + |idParts|
    requires flat.segments[flat.paramAt].Rest? ==> forall k :: flat.paramAt <= k < |us| ==> '/' !in us[k]
    ensures CaptureParamValue(flat, us) != Some(JoinWith(idParts, '/'))
  {
    hide JoinWith, SplitOn;
    var at := flat.paramAt;
    if flat.segments[at].Rest? {
      assert flat.segments[at] in flat.segments;
      if CaptureParamValue(flat, us) == Some(JoinWith(idParts, '/')) {
        assert Unsplit(us[at..], '/');
        SplitJoined(us[at..], '/');
        SplitJoined(idParts, '/');
      }
    } else {
      assert |idParts| == 1 && Rest !in flat.segments;
    }
  }

  lemma ShortWithoutSlashes(flat: FlatRoute, idParts: seq<string>, pathname: Pathname, k: nat)
    requires ParsesPaths(pathname) && flat.SingleParamRoute? && Flat(flat) && PathStatics(flat.segments)
    requires idParts != [] && TakesEntryId(flat, idParts) && Unsplit(idParts, '/')
    requires flat.segments[flat.paramAt].Rest?
    requires flat.paramAt <= k < |ToUrlSegments("/" + JoinWith(PathParts(flat.segments, idParts), '/'), pathname)|
    ensures '/' !in ToUrlSegments("/" + JoinWith(PathParts(flat.segments, idParts), '/'), pathname)[k]
  {
    hide ToUrlSegments, PathParts, IsDots, Encode, DecodeSegment, ParsesPaths, JoinWith, PathText;
    PartsArePathText(flat, idParts);
    BuiltParts(flat, idParts);
    var j := ReadOnward(PathParts(flat.segments, idParts), flat.paramAt, pathname, k);
    PartFrom(flat, idParts, PathParts(flat.segments, idParts), j);
    DecodedPart(idParts[j - flat.paramAt]);
    assert idParts[j - flat.paramAt] in idParts;
  }

  /** Build and capture undo each other, exactly: for a route whose static text the URL parser
      leaves alone, the URL built for an id captures that id again if and only if no part of
      the id is a dot segment and every static text is read as itself. */
  lemma CaptureOfBuilt(flat: FlatRoute, entryId: string, pathname: Pathname)
    requires ParsesPaths(pathname) && flat.SingleParamRoute? && Flat(flat) && PathStatics(flat.segments)
    requires BuildCandidateUrl(flat, entryId).Some?
    ensures CaptureParamValue(flat, ToUrlSegments(BuildCandidateUrl(flat, entryId).value, pathname)) == Some(entryId)
       <==> StaticsRead(flat.segments) && forall part :: part in SplitOn(entryId, '/') ==> part != "." && part != ".."
  {
    var idParts := SplitOn(entryId, '/');
    var parts := PathParts(flat.segments, idParts);
    hide SplitOn, ParsesPaths, ToUrlSegments, PathParts, CaptureParamValue, PathText, IsDots, Encode, DecodeSegment,
      JoinWith;
    SplitParts(entryId, '/');
    BuiltParts(flat, idParts);
    PartsArePathText(flat, idParts);
    DotsInParts(flat, idParts);
    if DotsIn(parts) {
      ShortRoute(flat, idParts, pathname);
    } else {
      WholeRoute(flat, idParts, pathname);
    }
  }

  lemma ShortRoute(flat: FlatRoute, idParts: seq<string>, pathname: Pathname)
    requires ParsesPaths(pathname) && flat.SingleParamRoute? && Flat(flat) && PathStatics(flat.segments)
    requires idParts != [] && TakesEntryId(flat, idParts) && Unsplit(idParts, '/')
    requires DotsIn(PathParts(flat.segments, idParts))
    ensures CaptureParamValue(flat, ToUrlSegments("/" + JoinWith(PathParts(flat.segments, idParts), '/'), pathname))
         != Some(JoinWith(idParts, '/'))
  {
    hide ParsesPaths, ToUrlSegments, PathParts, CaptureParamValue, PathText, DotsIn, Encode, DecodeSegment, JoinWith;
    var parts := PathParts(flat.segments, idParts);
    BuiltParts(flat, idParts);
    PartsArePathText(flat, idParts);
    ReadShort(parts, pathname);
    var us := ToUrlSegments("/" + JoinWith(parts, '/'), pathname);
    if flat.segments[flat.paramAt].Rest? {
      forall k | flat.paramAt <= k < |us| ensures '/' !in us[k] { ShortWithoutSlashes(flat, idParts, pathname, k); }
    }
    CapturesShort(flat, idParts, us);
  }

  lemma WholeRoute(flat: FlatRoute, idParts: seq<string>, pathname: Pathname)
    requires ParsesPaths(pathname) && flat.SingleParamRoute? && Flat(flat) && PathStatics(flat.segments)
    requires idParts != [] && TakesEntryId(flat, idParts) && !DotsIn(PathParts(flat.segments, idParts))
    ensures CaptureParamValue(flat, ToUrlSegments("/" + JoinWith(PathParts(flat.segments, idParts), '/'), pathname))
         == if StaticsDecode(flat.segments) then Some(JoinWith(idParts, '/')) else None
  {
    assert "" !in idParts;
    hide ParsesPaths, ToUrlSegments, PathParts, CaptureParamValue, PathText, IsDots, Encode, DecodeSegment, DecodeAll,
      JoinWith, TakesEntryId, Built, Whole, StaticsDecode, PathStatics;
    var parts := PathParts(flat.segments, idParts);
    BuiltParts(flat, idParts);
    PartsArePathText(flat, idParts);
    assert forall p :: p in parts ==> !IsDots(p);
    ReadWhole(parts, pathname);
    WholeIsRead(flat, idParts, parts, DecodeAll(parts));
    CapturesWhole(flat, idParts, DecodeAll(parts));
  }
}
