/** The loops of route resolution, each proved against the function it computes. */
module RouteCode {
  import opened Json
  import opened Text
  import opened Percent
  import opened RouteResolver

  // ----- flattening -----

  /** The flat segments when those before `segments` were `front`. */
  function Flattened(front: seq<FlatSegment>, segments: seq<seq<RouteSegmentPart>>): Option<seq<FlatSegment>> {
    match FlatSegments(segments) case Some(rest) => Some(front + rest) case None => None
  }

  lemma FlattenedStep(front: seq<FlatSegment>, segments: seq<seq<RouteSegmentPart>>)
    requires segments != []
    ensures var s := FlattenSegment(segments[0]);
      Flattened(front, segments) ==
        if s.None? || (s.value.Rest? && |segments| > 1) then None else Flattened(front + [s.value], segments[1..])
  {
    if FlatSegments(segments[1..]).Some? {
      RestIsLast(segments[1..]);
      var rest := FlatSegments(segments[1..]).value;
      if FlattenSegment(segments[0]).Some? {
        assert front + ([FlattenSegment(segments[0]).value] + rest)
          == front + [FlattenSegment(segments[0]).value] + rest;
      }
    }
  }

  lemma {:induction false} ParamAtIs(segments: seq<FlatSegment>, at: nat)
    requires at < |segments| && !segments[at].Static? && forall i :: 0 <= i < at ==> segments[i].Static?
    ensures ParamAt(segments) == Some(at)
  {
  }

  lemma TwoParams(segments: seq<FlatSegment>, a: nat, b: nat)
    requires a < b < |segments| && !segments[a].Static? && !segments[b].Static?
    ensures ParamAt(segments).Some? && ParamAt(segments[ParamAt(segments).value + 1..]).Some?
  {
    var first := ParamAt(segments).value;
    assert segments[b] == segments[first + 1..][b - first - 1];
  }

  lemma NoSegmentsLeft(front: seq<FlatSegment>)
    ensures Flattened(front, []) == Some(front)
  {
    assert front + [] == front;
  }

  method Flatten(route: RouteInfo) returns (r: Option<FlatRoute>)
    ensures r == FlattenRoute(route)
  {
    hide FlatSegments, FlattenSegment, Flattened, ParamAt;
    var segments: seq<FlatSegment> := [];
    var paramAt := -1;
    WholeRoute(route);
    for i := 0 to |route.segments|
      invariant |segments| == i && -1 <= paramAt < i
      invariant Flattened([], route.segments) == Flattened(segments, route.segments[i..])
      invariant forall j :: 0 <= j < i ==> (segments[j].Static? <==> j != paramAt)
    {
      var segment := FlattenSegment(route.segments[i]);
      FlattenedStep(segments, route.segments[i..]);
      assert route.segments[i..][1..] == route.segments[i + 1..];
      if segment.None? { return None; }
      if segment.value.Rest? && i != |route.segments| - 1 { return None; }
      if !segment.value.Static? {
        if paramAt != -1 {
          SecondParam(route, segments + [segment.value], route.segments[i + 1..], paramAt);
          return None;
        }
        paramAt := |segments|;
      }
      segments := segments + [segment.value];
    }
    assert route.segments[|route.segments|..] == [];
    NoSegmentsLeft(segments);
    Settled(route, segments, paramAt);
    r := if paramAt == -1 then Some(StaticRoute(segments)) else Some(SingleParamRoute(segments, paramAt, route));
  }

  lemma WholeRoute(route: RouteInfo)
    ensures Flattened([], route.segments) == FlatSegments(route.segments) && route.segments[0..] == route.segments
  {
    if FlatSegments(route.segments).Some? {
      assert [] + FlatSegments(route.segments).value == FlatSegments(route.segments).value;
    }
  }

  lemma TwoParamsStaySilent(route: RouteInfo)
    ensures FlatSegments(route.segments).None? ==> FlattenRoute(route) == None
    ensures FlatSegments(route.segments).Some? ==>
      var segments := FlatSegments(route.segments).value;
      ParamAt(segments).Some? && ParamAt(segments[ParamAt(segments).value + 1..]).Some? ==> FlattenRoute(route) == None
  {
    hide ParamAt, FlatSegments;
  }

  lemma SecondParam(route: RouteInfo, front: seq<FlatSegment>, rest: seq<seq<RouteSegmentPart>>, paramAt: nat)
    requires Flattened([], route.segments) == Flattened(front, rest)
    requires paramAt < |front| - 1 && !front[paramAt].Static? && !front[|front| - 1].Static?
    ensures FlattenRoute(route) == None
  {
    hide ParamAt, FlatSegments, FlattenRoute;
    WholeRoute(route);
    TwoParamsStaySilent(route);
    if FlatSegments(rest).Some? {
      TwoParams(front + FlatSegments(rest).value, paramAt, |front| - 1);
    }
  }

  lemma Settled(route: RouteInfo, segments: seq<FlatSegment>, paramAt: int)
    requires Flattened([], route.segments) == Some(segments) && -1 <= paramAt < |segments|
    requires forall j :: 0 <= j < |segments| ==> (segments[j].Static? <==> j != paramAt)
    ensures FlattenRoute(route)
      == if paramAt == -1 then Some(StaticRoute(segments)) else Some(SingleParamRoute(segments, paramAt, route))
  {
    WholeRoute(route);
    if paramAt != -1 {
      ParamAtIs(segments, paramAt);
      var rest := segments[paramAt + 1..];
      forall j | 0 <= j < |rest| ensures rest[j].Static? {
        assert rest[j] == segments[paramAt + 1 + j];
      }
    }
  }

  // ----- matching and building -----

  method MatchesUrl(segments: seq<FlatSegment>, urlSegments: seq<string>) returns (r: bool)
    ensures r == PatternMatchesUrl(segments, urlSegments)
  {
    var restAt := 0;
    while restAt < |segments| && !segments[restAt].Rest?
      invariant 0 <= restAt <= |segments| && Rest !in segments[..restAt]
    {
      restAt := restAt + 1;
    }
    if restAt == |segments| {
      assert segments[..restAt] == segments;
      return |segments| == |urlSegments|
        && forall i :: 0 <= i < |segments| ==> !segments[i].Static? || segments[i].text == urlSegments[i];
    }
    assert segments[restAt] in segments;
    if |urlSegments| < |segments| { return false; }
    for i := 0 to restAt
      invariant forall j :: 0 <= j < i && segments[j].Static? ==> segments[j].text == urlSegments[j]
    {
      if segments[i].Static? && segments[i].text != urlSegments[i] {
        assert forall s :: s in segments[..i + 1] ==> s in segments[..restAt];
        assert BeforeRest(segments, i);
        return false;
      }
    }
    forall i | restAt <= i < |segments| ensures !BeforeRest(segments, i) {
      assert segments[..i + 1][restAt] == Rest;
    }
    r := true;
  }

  lemma PathPartsFrom(segments: seq<FlatSegment>, i: nat, idParts: seq<string>)
    requires i < |segments| && idParts != []
    ensures PathParts(segments[i..], idParts)
      == SegmentParts(segments[i], idParts) + PathParts(segments[i + 1..], idParts)
  {
    assert segments[i..][1..] == segments[i + 1..];
  }

  lemma NoPathParts(idParts: seq<string>)
    requires idParts != []
    ensures PathParts([], idParts) == []
  {
  }

  method Build(flat: FlatRoute, entryId: string) returns (r: Option<string>)
    requires flat.SingleParamRoute? && Flat(flat)
    ensures r == BuildCandidateUrl(flat, entryId)
  {
    hide SplitOn, Encode, PathParts;
    var idParts := SplitOn(entryId, '/');
    if !TakesEntryId(flat, idParts) { return None; }
    NoPathParts(idParts);
    assert flat.segments[0..] == flat.segments && flat.segments[|flat.segments|..] == [];
    var pathParts: seq<string> := [];
    for i := 0 to |flat.segments|
      invariant pathParts + PathParts(flat.segments[i..], idParts) == PathParts(flat.segments, idParts)
    {
      PathPartsFrom(flat.segments, i, idParts);
      match flat.segments[i] {
        case Static(text) => pathParts := pathParts + [text];
        case Param => pathParts := pathParts + [Encode(idParts[0])];
        case Rest => pathParts := pathParts + EncodeAll(idParts);
      }
    }
    assert pathParts + [] == pathParts;
    r := Some("/" + JoinWith(pathParts, '/'));
  }

  // ----- forward -----

  method StaticPage(routes: seq<RouteInfo>, urlSegments: seq<string>) returns (r: bool)
    ensures r == IsStaticPage(routes, urlSegments)
  {
    for i := 0 to |routes|
      invariant forall j :: 0 <= j < i ==> !Serves(routes[j], urlSegments)
    {
      var flat := Flatten(routes[i]);
      if flat.None? || flat.value.SingleParamRoute? { continue; }
      var matches := MatchesUrl(flat.value.segments, urlSegments);
      if matches {
        assert Serves(routes[i], urlSegments);
        return true;
      }
    }
    r := false;
  }

  method HoldingCollections(entryId: string, collections: CollectionsIndex) returns (names: seq<string>)
    ensures names == CollectionsWithEntry(entryId, collections)
  {
    names := [];
    for i := 0 to |collections|
      invariant names + CollectionsWithEntry(entryId, collections[i..]) == CollectionsWithEntry(entryId, collections)
    {
      assert collections[i..][1..] == collections[i + 1..];
      if entryId in collections[i].1 { names := names + [collections[i].0]; }
    }
  }

  method EntryHitsFor(routes: seq<RouteInfo>, urlSegments: seq<string>,
                      collections: CollectionsIndex) returns (hits: seq<Hit>)
    ensures hits == EntryHits([], routes, urlSegments, collections)
  {
    hide FlattenRoute, RouteRendersId, CaptureParamValue;
    hits := [];
    assert routes[0..] == routes;
    for i := 0 to |routes|
      invariant EntryHits(hits, routes[i..], urlSegments, collections)
        == EntryHits([], routes, urlSegments, collections)
    {
      assert routes[i..][1..] == routes[i + 1..];
      var flat := Flatten(routes[i]);
      if flat.None? || flat.value.StaticRoute? { continue; }
      FlattenedIsFlat(routes[i]);
      var entryId := CaptureParamValue(flat.value, urlSegments);
      if entryId.None? || !RouteRendersId(flat.value.source, entryId.value) { continue; }
      var names := HoldingCollections(entryId.value, collections);
      ghost var before := hits;
      for k := 0 to |names|
        invariant SetAll(hits, names[k..], entryId.value) == SetAll(before, names, entryId.value)
      {
        assert names[k..][1..] == names[k + 1..];
        hits := SetHit(hits, HitOf(names[k], entryId.value));
      }
    }
    assert routes[|routes|..] == [];
  }

  method ResolveEntry(routes: seq<RouteInfo>, url: string, collections: CollectionsIndex, pathname: Pathname)
    returns (r: Option<ActiveEntry>)
    ensures r == ResolveActiveEntry(routes, url, collections, pathname)
  {
    var urlSegments := ToUrlSegments(url, pathname);
    var served := StaticPage(routes, urlSegments);
    if served { return None; }
    var hits := EntryHitsFor(routes, urlSegments, collections);
    r := if |hits| == 1 then Some(hits[0].entry) else None;
  }

  // ----- reverse -----

  lemma CandidatesFrom(entryId: string, routes: seq<RouteInfo>, i: nat, pathname: Pathname)
    requires i < |routes|
    ensures Candidates(entryId, routes[i..], routes, pathname)
      == (match CandidateOf(routes[i], entryId, routes, pathname) case Some(c) => [c] case None => [])
         + Candidates(entryId, routes[i + 1..], routes, pathname)
  {
    assert routes[i..][1..] == routes[i + 1..];
  }

  lemma NoCandidates(entryId: string, routes: seq<RouteInfo>, pathname: Pathname)
    ensures Candidates(entryId, [], routes, pathname) == []
  {
  }

  method RankedCandidates(entryId: string, routes: seq<RouteInfo>,
                          pathname: Pathname) returns (candidates: seq<RankedCandidate>)
    ensures candidates == Candidates(entryId, routes, routes, pathname)
  {
    hide FlattenRoute, RouteRendersId, BuildCandidateUrl, ToUrlSegments, IsStaticPage, Candidates;
    candidates := [];
    assert routes[0..] == routes && routes[|routes|..] == [];
    NoCandidates(entryId, routes, pathname);
    for i := 0 to |routes|
      invariant candidates + Candidates(entryId, routes[i..], routes, pathname)
        == Candidates(entryId, routes, routes, pathname)
    {
      CandidatesFrom(entryId, routes, i, pathname);
      var flat := Flatten(routes[i]);
      if flat.None? || flat.value.StaticRoute? { continue; }
      FlattenedIsFlat(routes[i]);
      if !RouteRendersId(flat.value.source, entryId) { continue; }
      var url := Build(flat.value, entryId);
      if url.None? { continue; }
      var served := StaticPage(routes, ToUrlSegments(url.value, pathname));
      if served { continue; }
      candidates := candidates
        + [RankedCandidate(url.value, flat.value.segments[flat.value.paramAt].Rest?, |flat.value.segments|)];
    }
  }

  method PickCandidate(entryId: string, routes: seq<RouteInfo>, collections: CollectionsIndex, pathname: Pathname)
    returns (r: Option<string>)
    ensures r == PickNavigableCandidate(entryId, routes, collections, pathname)
  {
    hide Candidates, ResolveActiveEntry;
    var candidates := RankedCandidates(entryId, routes, pathname);
    for i := 0 to |candidates|
      invariant forall j :: 0 <= j < i ==> ReadsBack(candidates[j], entryId, routes, collections, pathname)
    {
      var hit := ResolveEntry(routes, candidates[i].url, collections, pathname);
      if hit.None? || hit.value.entryId != entryId {
        assert !ReadsBack(candidates[i], entryId, routes, collections, pathname);
        return None;
      }
    }
    var sorted := Sort(candidates);
    r := if sorted == [] then None else Some(sorted[0].url);
  }

  // ----- why names must be free of NUL -----

  /** Two routes that render different entries under one key: the one that comes last decides
      the answer, so turning the list round turns the answer. */
  lemma LastRouteDecides(first: RouteInfo, last: RouteInfo, url: string, collections: CollectionsIndex,
                         pathname: Pathname, d: ActiveEntry, e: ActiveEntry)
    requires var urlSegments := ToUrlSegments(url, pathname);
      && Captured(first, urlSegments) == Some(d.entryId) && Captured(last, urlSegments) == Some(e.entryId)
    requires CollectionsWithEntry(d.entryId, collections) == [d.collection]
    requires CollectionsWithEntry(e.entryId, collections) == [e.collection]
    requires HitOf(d.collection, d.entryId).key == HitOf(e.collection, e.entryId).key
    ensures ResolveActiveEntry([first, last], url, collections, pathname) == Some(e)
    ensures ResolveActiveEntry([last, first], url, collections, pathname) == Some(d)
  {
    hide HitOf, Captured, ToUrlSegments, FlattenRoute, PatternMatchesUrl;
    var urlSegments := ToUrlSegments(url, pathname);
    NoPages(first, last, urlSegments);
    NoPages(last, first, urlSegments);
    TwoRoutes(first, last, urlSegments, collections, d, e);
    TwoRoutes(last, first, urlSegments, collections, e, d);
    HitEntry(d);
    HitEntry(e);
  }

  /** A route that captures an id serves no static page. */
  lemma NoPages(first: RouteInfo, last: RouteInfo, urlSegments: seq<string>)
    requires Captured(first, urlSegments).Some? && Captured(last, urlSegments).Some?
    ensures !IsStaticPage([first, last], urlSegments)
  {
    hide FlattenRoute, CaptureParamValue;
    assert !Serves(first, urlSegments) && !Serves(last, urlSegments);
  }

  lemma TwoRoutes(first: RouteInfo, last: RouteInfo, urlSegments: seq<string>, collections: CollectionsIndex,
                  d: ActiveEntry, e: ActiveEntry)
    requires Captured(first, urlSegments) == Some(d.entryId) && Captured(last, urlSegments) == Some(e.entryId)
    requires CollectionsWithEntry(d.entryId, collections) == [d.collection]
    requires CollectionsWithEntry(e.entryId, collections) == [e.collection]
    requires HitOf(d.collection, d.entryId).key == HitOf(e.collection, e.entryId).key
    ensures EntryHits([], [first, last], urlSegments, collections) == [HitOf(e.collection, e.entryId)]
  {
    hide HitOf, Captured, CollectionsWithEntry;
    var hits := [HitOf(d.collection, d.entryId)];
    SetsOne([], d);
    SetsOne(hits, e);
    assert [first, last][1..] == [last] && [last][1..] == [];
    assert EntryHits([], [first, last], urlSegments, collections) == EntryHits(hits, [last], urlSegments, collections);
  }

  lemma HitEntry(e: ActiveEntry)
    ensures HitOf(e.collection, e.entryId).entry == e
  {
  }

  lemma SetsOne(hits: seq<Hit>, e: ActiveEntry)
    ensures SetAll(hits, [e.collection], e.entryId) == SetHit(hits, HitOf(e.collection, e.entryId))
  {
    assert [e.collection][1..] == [];
  }

  function Dynamic(name: string): seq<RouteSegmentPart> {
    [RouteSegmentPart(name, true, false)]
  }

  function Fixed(text: string): seq<RouteSegmentPart> {
    [RouteSegmentPart(text, false, false)]
  }

  lemma FlatTwo(a: seq<RouteSegmentPart>, b: seq<RouteSegmentPart>, s: FlatSegment, t: FlatSegment)
    requires FlattenSegment(a) == Some(s) && FlattenSegment(b) == Some(t) && !s.Rest?
    ensures FlatSegments([a, b]) == Some([s, t])
  {
    assert [a, b][1..] == [b] && [b][1..] == [];
    assert FlatSegments([b]) == Some([t]) by { assert [t] + [] == [t]; }
    assert [s] + [t] == [s, t];
  }

  lemma ParamFirst(slug: string, fixed: string, id: string)
    ensures Captured(RouteInfo([Dynamic(slug), Fixed(fixed)], true, None), [id, fixed]) == Some(id)
  {
    var route := RouteInfo([Dynamic(slug), Fixed(fixed)], true, None);
    FlatTwo(Dynamic(slug), Fixed(fixed), Param, Static(fixed));
    var flat := [Param, Static(fixed)];
    assert flat[0 + 1..] == [Static(fixed)] && [Static(fixed)][1..] == [];
    assert ParamAt([Static(fixed)]) == None;
    assert FlattenRoute(route) == Some(SingleParamRoute(flat, 0, route));
  }

  lemma ParamLast(fixed: string, slug: string, id: string)
    ensures Captured(RouteInfo([Fixed(fixed), Dynamic(slug)], true, None), [fixed, id]) == Some(id)
  {
    var route := RouteInfo([Fixed(fixed), Dynamic(slug)], true, None);
    FlatTwo(Fixed(fixed), Dynamic(slug), Static(fixed), Param);
    var flat := [Static(fixed), Param];
    assert flat[1..] == [Param] && flat[1 + 1..] == [];
    assert ParamAt(flat) == Some(1);
    assert FlattenRoute(route) == Some(SingleParamRoute(flat, 1, route));
  }

  /** Such routes exist once a collection's name has a NUL in it: `[slug]/c` and `b\0c/[slug]`
      at the URL of `b\0c` and `c`, with `b\0c` held by `a` and `c` by `a\0b`. */
  lemma NulTurnsAnswer(url: string, pathname: Pathname, slug: string)
    requires ToUrlSegments(url, pathname) == ["b\0c", "c"]
    ensures var p := RouteInfo([Dynamic(slug), Fixed("c")], true, None);
      var q := RouteInfo([Fixed("b\0c"), Dynamic(slug)], true, None);
      var collections := [("a", ["b\0c"]), ("a\0b", ["c"])];
      && ResolveActiveEntry([p, q], url, collections, pathname) == Some(ActiveEntry("a\0b", "c"))
      && ResolveActiveEntry([q, p], url, collections, pathname) == Some(ActiveEntry("a", "b\0c"))
  {
    hide ToUrlSegments, ResolveActiveEntry, Captured;
    var p := RouteInfo([Dynamic(slug), Fixed("c")], true, None);
    var q := RouteInfo([Fixed("b\0c"), Dynamic(slug)], true, None);
    var collections := [("a", ["b\0c"]), ("a\0b", ["c"])];
    ParamFirst(slug, "c", "b\0c");
    ParamLast("b\0c", slug, "c");
    TwoHolders("a", "b\0c", "a\0b", "c");
    NulCollides();
    LastRouteDecides(p, q, url, collections, pathname, ActiveEntry("a", "b\0c"), ActiveEntry("a\0b", "c"));
  }

  lemma TwoHolders(m: string, i: string, n: string, j: string)
    requires i != j
    ensures CollectionsWithEntry(i, [(m, [i]), (n, [j])]) == [m]
    ensures CollectionsWithEntry(j, [(m, [i]), (n, [j])]) == [n]
  {
    assert [(m, [i]), (n, [j])][1..] == [(n, [j])];
    OneHolder(i, n, j);
    OneHolder(j, n, j);
    assert [m] + [] == [m] && [] + [n] == [n];
  }

  lemma OneHolder(i: string, n: string, j: string)
    ensures CollectionsWithEntry(i, [(n, [j])]) == if i == j then [n] else []
  {
    assert [(n, [j])][1..] == [];
    assert [n] + [] == [n];
  }

  lemma NulCollides()
    ensures HitOf("a", "b\0c").key == HitOf("a\0b", "c").key
  {
    assert "a" + ['\0'] + "b\0c" == "a\0b\0c" && "a\0b" + ['\0'] + "c" == "a\0b\0c";
  }
}
