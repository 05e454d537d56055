/** Route resolution, the bridge between canvas URLs and content entries, as the code
    computes it. */
module RouteResolver {
  import opened Json
  import opened Text
  import opened Percent

  datatype RouteSegmentPart = RouteSegmentPart(content: string, dynamic: bool, spread: bool)

  /** `renders` is absent when enumeration did not settle. */
  datatype RouteInfo = RouteInfo(segments: seq<seq<RouteSegmentPart>>, onDemand: bool, renders: Option<seq<string>>)

  datatype ActiveEntry = ActiveEntry(collection: string, entryId: string)

  /** Collection names and their entry ids, in the index's order. */
  type CollectionsIndex = seq<(string, seq<string>)>

  datatype FlatSegment = Static(text: string) | Param | Rest

  datatype FlatRoute =
    | StaticRoute(segments: seq<FlatSegment>)
    | SingleParamRoute(segments: seq<FlatSegment>, paramAt: nat, source: RouteInfo)

  datatype RankedCandidate = RankedCandidate(url: string, rest: bool, segments: nat)

  /** The URL parser: the pathname it finds, or nothing where it throws. */
  type Pathname = string -> Option<string>

  predicate RouteRendersId(route: RouteInfo, entryId: string) {
    route.onDemand || route.renders.None? || entryId in route.renders.value
  }

  // ----- flattening a route -----

  function FlattenSegment(parts: seq<RouteSegmentPart>): Option<FlatSegment> {
    if |parts| != 1 then None
    else if parts[0].spread then Some(Rest)
    else if parts[0].dynamic then Some(Param)
    else Some(Static(parts[0].content))
  }

  /** The segments of a route all of whose segments have one part and whose only rest is
      the last. */
  function FlatSegments(segments: seq<seq<RouteSegmentPart>>): Option<seq<FlatSegment>> {
    if segments == [] then Some([])
    else
      match (FlattenSegment(segments[0]), FlatSegments(segments[1..]))
      case (Some(s), Some(rest)) => if s.Rest? && rest != [] then None else Some([s] + rest)
      case _ => None
  }

  /** Where the first segment stands that is not static. */
  function ParamAt(segments: seq<FlatSegment>): (r: Option<nat>)
    ensures r.Some? ==> r.value < |segments| && !segments[r.value].Static?
    ensures r.Some? ==> forall i :: 0 <= i < r.value ==> segments[i].Static?
    ensures r.None? ==> forall i :: 0 <= i < |segments| ==> segments[i].Static?
  {
    if segments == [] then None
    else if !segments[0].Static? then Some(0)
    else match ParamAt(segments[1..]) case Some(n) => Some(n + 1) case None => None
  }

  /** A route with no param or exactly one; any other stays silent. */
  function FlattenRoute(route: RouteInfo): Option<FlatRoute> {
    match FlatSegments(route.segments)
    case None => None
    case Some(segments) =>
      match ParamAt(segments)
      case None => Some(StaticRoute(segments))
      case Some(at) =>
        if ParamAt(segments[at + 1..]).Some? then None else Some(SingleParamRoute(segments, at, route))
  }

  predicate Flat(flat: FlatRoute) {
    match flat
    case StaticRoute(segments) => forall i :: 0 <= i < |segments| ==> segments[i].Static?
    case SingleParamRoute(segments, at, _) =>
      && at < |segments| && !segments[at].Static?
      && (forall i :: 0 <= i < |segments| && i != at ==> segments[i].Static?)
      && (segments[at].Rest? ==> at == |segments| - 1)
  }

  // ----- URLs -----

  function DecodeSegment(segment: string): string {
    match Decode(segment) case Some(text) => text case None => segment
  }

  function NonEmptyParts(parts: seq<string>): (r: seq<string>)
    ensures forall p :: p in r ==> p != "" && p in parts
  {
    if parts == [] then [] else (if parts[0] == "" then [] else [parts[0]]) + NonEmptyParts(parts[1..])
  }

  function DecodeAll(parts: seq<string>): (r: seq<string>)
    ensures |r| == |parts| && forall i :: 0 <= i < |r| ==> r[i] == DecodeSegment(parts[i])
  {
    if parts == [] then [] else [DecodeSegment(parts[0])] + DecodeAll(parts[1..])
  }

  function ToUrlSegments(url: string, pathname: Pathname): seq<string> {
    match pathname(url)
    case None => []
    case Some(path) => DecodeAll(NonEmptyParts(SplitOn(path, '/')))
  }

  predicate BeforeRest(segments: seq<FlatSegment>, i: nat)
    requires i < |segments|
  {
    Rest !in segments[..i + 1]
  }

  predicate PatternMatchesUrl(segments: seq<FlatSegment>, urlSegments: seq<string>) {
    if Rest in segments then
      && |urlSegments| >= |segments|
      && forall i :: 0 <= i < |segments| && BeforeRest(segments, i) && segments[i].Static? ==>
        segments[i].text == urlSegments[i]
    else
      && |segments| == |urlSegments|
      && forall i :: 0 <= i < |segments| && segments[i].Static? ==> segments[i].text == urlSegments[i]
  }

  function CaptureParamValue(flat: FlatRoute, urlSegments: seq<string>): Option<string>
    requires flat.SingleParamRoute? && Flat(flat)
  {
    if !PatternMatchesUrl(flat.segments, urlSegments) then None
    else if flat.segments[flat.paramAt].Rest? then Some(JoinWith(urlSegments[flat.paramAt..], '/'))
    else Some(urlSegments[flat.paramAt])
  }

  // ----- building a URL -----

  function EncodeAll(parts: seq<string>): (r: seq<string>)
    ensures |r| == |parts| && forall i :: 0 <= i < |r| ==> r[i] == Encode(parts[i])
  {
    if parts == [] then [] else [Encode(parts[0])] + EncodeAll(parts[1..])
  }

  predicate TakesEntryId(flat: FlatRoute, idParts: seq<string>)
    requires flat.SingleParamRoute? && Flat(flat) && idParts != []
  {
    if flat.segments[flat.paramAt].Rest? then "" !in idParts else |idParts| == 1 && idParts[0] != ""
  }

  function SegmentParts(segment: FlatSegment, idParts: seq<string>): seq<string>
    requires idParts != []
  {
    match segment
    case Static(text) => [text]
    case Param => [Encode(idParts[0])]
    case Rest => EncodeAll(idParts)
  }

  function PathParts(segments: seq<FlatSegment>, idParts: seq<string>): seq<string>
    requires idParts != []
  {
    if segments == [] then [] else SegmentParts(segments[0], idParts) + PathParts(segments[1..], idParts)
  }

  function BuildCandidateUrl(flat: FlatRoute, entryId: string): Option<string>
    requires flat.SingleParamRoute? && Flat(flat)
  {
    var idParts := SplitOn(entryId, '/');
    if TakesEntryId(flat, idParts) then Some("/" + JoinWith(PathParts(flat.segments, idParts), '/')) else None
  }

  // ----- forward resolution -----

  predicate Serves(route: RouteInfo, urlSegments: seq<string>) {
    var flat := FlattenRoute(route);
    flat.Some? && flat.value.StaticRoute? && PatternMatchesUrl(flat.value.segments, urlSegments)
  }

  predicate IsStaticPage(routes: seq<RouteInfo>, urlSegments: seq<string>) {
    exists route :: route in routes && Serves(route, urlSegments)
  }

  function CollectionsWithEntry(entryId: string, collections: CollectionsIndex): seq<string> {
    if collections == [] then []
    else
      (if entryId in collections[0].1 then [collections[0].0] else []) + CollectionsWithEntry(entryId, collections[1..])
  }

  lemma FlattenedIsFlat(route: RouteInfo)
    requires FlattenRoute(route).Some?
    ensures Flat(FlattenRoute(route).value)
    ensures FlattenRoute(route).value.SingleParamRoute? ==> FlattenRoute(route).value.source == route
  {
    RestIsLast(route.segments);
    var segments := FlatSegments(route.segments).value;
    if ParamAt(segments).Some? {
      var at := ParamAt(segments).value;
      forall i | at < i < |segments| ensures segments[i].Static? {
        assert segments[i] == segments[at + 1..][i - at - 1];
      }
    }
  }

  lemma {:induction false} RestIsLast(segments: seq<seq<RouteSegmentPart>>)
    requires FlatSegments(segments).Some?
    ensures var flat := FlatSegments(segments).value;
      |flat| == |segments| && forall i :: 0 <= i < |flat| && flat[i].Rest? ==> i == |flat| - 1
  {
    if segments != [] { RestIsLast(segments[1..]); }
  }

  /** The entry id a route captures from the URL, if it renders that id. */
  function Captured(route: RouteInfo, urlSegments: seq<string>): Option<string> {
    var flat := FlattenRoute(route);
    if flat.None? || flat.value.StaticRoute? then None
    else
      FlattenedIsFlat(route);
      var entryId := CaptureParamValue(flat.value, urlSegments);
      if entryId.Some? && RouteRendersId(route, entryId.value) then entryId else None
  }

  /** A hit under its key: the collection, a NUL and the id. */
  datatype Hit = Hit(key: string, entry: ActiveEntry)

  function HitOf(collection: string, entryId: string): Hit {
    Hit(collection + ['\0'] + entryId, ActiveEntry(collection, entryId))
  }

  /** `Map.set`: a key keeps its place and takes the new value. */
  function SetHit(hits: seq<Hit>, hit: Hit): seq<Hit> {
    if hits == [] then [hit]
    else if hits[0].key == hit.key then [hit] + hits[1..]
    else [hits[0]] + SetHit(hits[1..], hit)
  }

  function SetAll(hits: seq<Hit>, names: seq<string>, entryId: string): seq<Hit>
    decreases names
  {
    if names == [] then hits else SetAll(SetHit(hits, HitOf(names[0], entryId)), names[1..], entryId)
  }

  function AddHits(hits: seq<Hit>, route: RouteInfo, urlSegments: seq<string>,
                   collections: CollectionsIndex): seq<Hit> {
    match Captured(route, urlSegments)
    case None => hits
    case Some(entryId) => SetAll(hits, CollectionsWithEntry(entryId, collections), entryId)
  }

  function EntryHits(hits: seq<Hit>, routes: seq<RouteInfo>, urlSegments: seq<string>,
                     collections: CollectionsIndex): seq<Hit>
    decreases routes
  {
    if routes == [] then hits
    else EntryHits(AddHits(hits, routes[0], urlSegments, collections), routes[1..], urlSegments, collections)
  }

  function ResolveActiveEntry(routes: seq<RouteInfo>, url: string, collections: CollectionsIndex,
                              pathname: Pathname): Option<ActiveEntry> {
    var urlSegments := ToUrlSegments(url, pathname);
    if IsStaticPage(routes, urlSegments) then None
    else
      var hits := EntryHits([], routes, urlSegments, collections);
      if |hits| == 1 then Some(hits[0].entry) else None
  }

  // ----- reverse resolution -----

  function CandidateOf(route: RouteInfo, entryId: string, routes: seq<RouteInfo>,
                       pathname: Pathname): Option<RankedCandidate> {
    var flat := FlattenRoute(route);
    if flat.None? || flat.value.StaticRoute? || !RouteRendersId(route, entryId) then None
    else
      FlattenedIsFlat(route);
      match BuildCandidateUrl(flat.value, entryId)
      case None => None
      case Some(url) =>
        if IsStaticPage(routes, ToUrlSegments(url, pathname)) then None
        else Some(RankedCandidate(url, flat.value.segments[flat.value.paramAt].Rest?, |flat.value.segments|))
  }

  function Candidates(entryId: string, from: seq<RouteInfo>, routes: seq<RouteInfo>,
                      pathname: Pathname): seq<RankedCandidate> {
    if from == [] then []
    else
      (match CandidateOf(from[0], entryId, routes, pathname) case Some(c) => [c] case None => [])
      + Candidates(entryId, from[1..], routes, pathname)
  }

  /** The picking order: a segment param before a rest, then the shallower pattern. */
  predicate MoreSpecific(a: RankedCandidate, b: RankedCandidate) {
    (!a.rest && b.rest) || (a.rest == b.rest && a.segments < b.segments)
  }

  /** The stable sort, by insertion. */
  function Insert(c: RankedCandidate, sorted: seq<RankedCandidate>): seq<RankedCandidate> {
    if sorted == [] || !MoreSpecific(sorted[0], c) then [c] + sorted else [sorted[0]] + Insert(c, sorted[1..])
  }

  function Sort(candidates: seq<RankedCandidate>): (r: seq<RankedCandidate>)
    ensures |r| == |candidates|
  {
    if candidates == [] then [] else
      var rest := Sort(candidates[1..]);
      InsertLength(candidates[0], rest);
      Insert(candidates[0], rest)
  }

  lemma {:induction false} InsertLength(c: RankedCandidate, sorted: seq<RankedCandidate>)
    ensures |Insert(c, sorted)| == |sorted| + 1
  {
    if sorted != [] { InsertLength(c, sorted[1..]); }
  }

  predicate ReadsBack(c: RankedCandidate, entryId: string, routes: seq<RouteInfo>, collections: CollectionsIndex,
                      pathname: Pathname) {
    var hit := ResolveActiveEntry(routes, c.url, collections, pathname);
    hit.Some? && hit.value.entryId == entryId
  }

  function PickNavigableCandidate(entryId: string, routes: seq<RouteInfo>, collections: CollectionsIndex,
                                  pathname: Pathname): Option<string> {
    var candidates := Candidates(entryId, routes, routes, pathname);
    if candidates == [] || exists c :: c in candidates && !ReadsBack(c, entryId, routes, collections, pathname)
    then None
    else Some(Sort(candidates)[0].url)
  }
}
