/** What forward resolution answers and what a picked URL guarantees. */
module RouteForward {
  import opened Json
  import opened Text
  import opened RouteResolver

  predicate Holds(collections: CollectionsIndex, name: string, entryId: string) {
    exists c :: c in collections && c.0 == name && entryId in c.1
  }

  /** Some route renders the entry at the URL. */
  predicate Rendered(routes: seq<RouteInfo>, urlSegments: seq<string>, collections: CollectionsIndex, e: ActiveEntry) {
    (exists route :: route in routes && Captured(route, urlSegments) == Some(e.entryId))
    && Holds(collections, e.collection, e.entryId)
  }

  function KeyOf(e: ActiveEntry): string {
    HitOf(e.collection, e.entryId).key
  }

  // ----- hits -----

  /** Hits are keyed by their entries, each key once. */
  ghost predicate Keyed(hits: seq<Hit>) {
    && (forall i :: 0 <= i < |hits| ==> hits[i].key == KeyOf(hits[i].entry))
    && forall i, j :: 0 <= i < j < |hits| ==> hits[i].key != hits[j].key
  }

  ghost predicate HasKey(hits: seq<Hit>, key: string) {
    exists h :: h in hits && h.key == key
  }

  lemma HasKeyCons(h: Hit, hits: seq<Hit>, key: string)
    ensures HasKey([h] + hits, key) <==> h.key == key || HasKey(hits, key)
  {
    if HasKey(hits, key) {
      var g :| g in hits && g.key == key;
      assert g in [h] + hits;
    }
    if h.key == key { assert h in [h] + hits; }
  }

  lemma {:induction false} SetMembers(hits: seq<Hit>, hit: Hit)
    ensures hit in SetHit(hits, hit) && forall h :: h in SetHit(hits, hit) ==> h in hits || h == hit
  {
    if hits != [] {
      assert hits == [hits[0]] + hits[1..];
      SetMembers(hits[1..], hit);
    }
  }

  lemma {:induction false} SetHas(hits: seq<Hit>, hit: Hit, key: string)
    ensures HasKey(SetHit(hits, hit), key) <==> HasKey(hits, key) || key == hit.key
  {
    hide HasKey;
    if hits == [] {
      HasNoKey(key);
      HasKeyCons(hit, [], key);
      assert [hit] + [] == [hit];
    } else {
      assert hits == [hits[0]] + hits[1..];
      SetHas(hits[1..], hit, key);
      HasKeyCons(hits[0], hits[1..], key);
      HasKeyCons(hits[0], SetHit(hits[1..], hit), key);
      HasKeyCons(hit, hits[1..], key);
    }
  }

  lemma HasNoKey(key: string)
    ensures !HasKey([], key)
  {
  }

  lemma KeyedCons(h: Hit, hits: seq<Hit>)
    ensures Keyed([h] + hits) <==> h.key == KeyOf(h.entry) && !HasKey(hits, h.key) && Keyed(hits)
  {
    hide KeyOf;
    var all := [h] + hits;
    assert forall i :: 0 <= i < |hits| ==> all[i + 1] == hits[i] && hits[i] in hits;
    if Keyed(all) {
      forall i | 0 <= i < |hits| ensures hits[i].key == KeyOf(hits[i].entry) { assert all[i + 1] == hits[i]; }
      forall i, j | 0 <= i < j < |hits| ensures hits[i].key != hits[j].key {
        assert all[i + 1] == hits[i] && all[j + 1] == hits[j];
      }
      assert all[0] == h;
      forall j | 0 <= j < |hits| ensures hits[j].key != h.key { assert all[0].key != all[j + 1].key; }
    }
  }

  lemma {:induction false} SetOne(hits: seq<Hit>, hit: Hit)
    requires Keyed(hits) && hit.key == KeyOf(hit.entry)
    ensures var r := SetHit(hits, hit);
      && Keyed(r) && hit in r
      && (forall h :: h in r ==> h in hits || h == hit)
      && (forall key :: HasKey(r, key) <==> HasKey(hits, key) || key == hit.key)
  {
    SetMembers(hits, hit);
    forall key ensures HasKey(SetHit(hits, hit), key) <==> HasKey(hits, key) || key == hit.key {
      SetHas(hits, hit, key);
    }
    SetStaysKeyed(hits, hit);
    hide *;
  }

  lemma {:induction false} SetStaysKeyed(hits: seq<Hit>, hit: Hit)
    requires Keyed(hits) && hit.key == KeyOf(hit.entry)
    ensures Keyed(SetHit(hits, hit))
  {
    hide KeyOf, HasKey, Keyed;
    if hits == [] {
      HasNoKey(hit.key);
      KeyedCons(hit, []);
      NothingKeyed();
      assert [hit] + [] == [hit];
    } else {
      assert hits == [hits[0]] + hits[1..];
      KeyedCons(hits[0], hits[1..]);
      if hits[0].key == hit.key {
        KeyedCons(hit, hits[1..]);
      } else {
        SetStaysKeyed(hits[1..], hit);
        SetHas(hits[1..], hit, hits[0].key);
        KeyedCons(hits[0], SetHit(hits[1..], hit));
      }
    }
  }

  lemma NothingKeyed()
    ensures Keyed([])
  {
  }

  lemma {:induction false} SetNames(hits: seq<Hit>, names: seq<string>, entryId: string)
    requires Keyed(hits)
    ensures var r := SetAll(hits, names, entryId);
      && Keyed(r)
      && (forall h :: h in r ==> h in hits || exists n :: n in names && h == HitOf(n, entryId))
      && (forall key :: HasKey(r, key) <==> HasKey(hits, key) || exists n :: n in names && key == HitOf(n, entryId).key)
    decreases names
  {
    if names != [] {
      hide HitOf, SetHit, Keyed, HasKey;
      SetKeyed(hits, names[0], entryId);
      SetOne(hits, HitOf(names[0], entryId));
      SetNames(SetHit(hits, HitOf(names[0], entryId)), names[1..], entryId);
      assert names == [names[0]] + names[1..];
    }
  }

  lemma SetKeyed(hits: seq<Hit>, name: string, entryId: string)
    ensures HitOf(name, entryId).key == KeyOf(HitOf(name, entryId).entry)
  {
  }

  lemma {:induction false} NamesHold(entryId: string, collections: CollectionsIndex, name: string)
    ensures name in CollectionsWithEntry(entryId, collections) <==> Holds(collections, name, entryId)
  {
    if collections != [] {
      NamesHold(entryId, collections[1..], name);
      assert collections == [collections[0]] + collections[1..];
    }
  }

  /** One route's hits: the entries it renders, under their keys. */
  lemma RouteHits(hits: seq<Hit>, route: RouteInfo, urlSegments: seq<string>, collections: CollectionsIndex)
    requires Keyed(hits)
    ensures var r := AddHits(hits, route, urlSegments, collections);
      && Keyed(r)
      && (forall h :: h in r ==> h in hits || Rendered([route], urlSegments, collections, h.entry))
      && (forall h :: h in hits ==> HasKey(r, h.key))
      && (forall e :: Rendered([route], urlSegments, collections, e) ==> HasKey(r, KeyOf(e)))
  {
    var captured := Captured(route, urlSegments);
    forall h | h in hits ensures HasKey(hits, h.key) {}
    if captured.Some? {
      var id := captured.value;
      var names := CollectionsWithEntry(id, collections);
      SetNames(hits, names, id);
      var r := SetAll(hits, names, id);
      hide Captured, SetAll, CollectionsWithEntry, Holds, Keyed;
      forall h | h in r && h !in hits ensures Rendered([route], urlSegments, collections, h.entry) {
        var n :| n in names && h == HitOf(n, id);
        NamesHold(id, collections, n);
        assert route in [route];
      }
      forall e | Rendered([route], urlSegments, collections, e) ensures HasKey(r, KeyOf(e)) {
        NamesHold(id, collections, e.collection);
        assert KeyOf(e) == HitOf(e.collection, id).key;
      }
    }
  }

  /** Every hit is an entry some route renders, and every rendered entry has its key. */
  lemma {:induction false} HitsAreRendered(hits: seq<Hit>, routes: seq<RouteInfo>, urlSegments: seq<string>,
                                           collections: CollectionsIndex)
    requires Keyed(hits)
    ensures var r := EntryHits(hits, routes, urlSegments, collections);
      && Keyed(r)
      && (forall h :: h in r ==> h in hits || Rendered(routes, urlSegments, collections, h.entry))
      && (forall h :: h in hits ==> HasKey(r, h.key))
      && (forall e :: Rendered(routes, urlSegments, collections, e) ==> HasKey(r, KeyOf(e)))
    decreases routes
  {
    forall h | h in hits ensures HasKey(hits, h.key) {}
    if routes != [] {
      var more := AddHits(hits, routes[0], urlSegments, collections);
      RouteHits(hits, routes[0], urlSegments, collections);
      HitsAreRendered(more, routes[1..], urlSegments, collections);
      hide Captured, AddHits, Holds, Keyed, KeyOf;
      var r := EntryHits(more, routes[1..], urlSegments, collections);
      assert routes == [routes[0]] + routes[1..];
      forall e ensures Rendered(routes, urlSegments, collections, e)
        <==> Rendered([routes[0]], urlSegments, collections, e) || Rendered(routes[1..], urlSegments, collections, e)
      {
        assert routes[0] in [routes[0]];
      }
      forall key | HasKey(more, key) ensures HasKey(r, key) {
        var h :| h in more && h.key == key;
      }
    }
  }

  // ----- which routes take part -----

  /** The URL is one the route builds from `entryId` alone: its pattern matches and its param
      stands for the id. */
  ghost predicate Captures(route: RouteInfo, urlSegments: seq<string>, entryId: string) {
    var flat := FlattenRoute(route);
    && flat.Some? && flat.value.SingleParamRoute? && Flat(flat.value)
    && CaptureParamValue(flat.value, urlSegments) == Some(entryId)
  }

  ghost predicate Builds(route: RouteInfo, entryId: string, url: string) {
    var flat := FlattenRoute(route);
    && flat.Some? && flat.value.SingleParamRoute? && Flat(flat.value)
    && BuildCandidateUrl(flat.value, entryId) == Some(url)
  }

  /** A route contributes a hit for an id its pattern captures exactly when it is rendered on
      demand, its enumeration did not settle, or it lists the id. */
  lemma CapturedMeans(route: RouteInfo, urlSegments: seq<string>, entryId: string)
    ensures Captured(route, urlSegments) == Some(entryId) <==>
              && Captures(route, urlSegments, entryId)
              && (route.onDemand || route.renders.None? || entryId in route.renders.value)
  {
    if FlattenRoute(route).Some? { FlattenedIsFlat(route); }
    hide FlattenRoute, CaptureParamValue;
  }

  /** And a candidate for an id it builds a URL from exactly then, unless a static page serves
      the URL. */
  lemma CandidateMeans(route: RouteInfo, entryId: string, routes: seq<RouteInfo>, pathname: Pathname, url: string)
    ensures (exists c: RankedCandidate :: c.url == url && CandidateOf(route, entryId, routes, pathname) == Some(c)) <==>
              && Builds(route, entryId, url) && !IsStaticPage(routes, ToUrlSegments(url, pathname))
              && (route.onDemand || route.renders.None? || entryId in route.renders.value)
  {
    if FlattenRoute(route).Some? { FlattenedIsFlat(route); }
    hide FlattenRoute, BuildCandidateUrl, IsStaticPage, ToUrlSegments;
    var r := CandidateOf(route, entryId, routes, pathname);
    if r.Some? { assert r == Some(r.value); }
  }

  lemma {:induction false} CandidatesAre(entryId: string, from: seq<RouteInfo>, routes: seq<RouteInfo>,
                                         pathname: Pathname, c: RankedCandidate)
    ensures c in Candidates(entryId, from, routes, pathname) <==>
              exists route :: route in from && CandidateOf(route, entryId, routes, pathname) == Some(c)
  {
    hide CandidateOf;
    if from != [] {
      assert from == [from[0]] + from[1..];
      CandidatesAre(entryId, from[1..], routes, pathname, c);
    }
  }

  /** Every hit and every candidate comes from a route that is rendered on demand, did not
      settle, or lists the id. */
  lemma OnlyServingRoutes(routes: seq<RouteInfo>, urlSegments: seq<string>, collections: CollectionsIndex,
                          pathname: Pathname, entryId: string)
    ensures forall h :: h in EntryHits([], routes, urlSegments, collections) ==>
      exists route :: (
          && route in routes && Captures(route, urlSegments, h.entry.entryId)
          && (route.onDemand || route.renders.None? || h.entry.entryId in route.renders.value))
    ensures forall c :: c in Candidates(entryId, routes, routes, pathname) ==>
      exists route :: (
          && route in routes && Builds(route, entryId, c.url)
          && (route.onDemand || route.renders.None? || entryId in route.renders.value))
  {
    HitsAreRendered([], routes, urlSegments, collections);
    hide EntryHits, Captured, Captures, Builds, Candidates, CandidateOf;
    forall h | h in EntryHits([], routes, urlSegments, collections)
      ensures exists route :: (
          && route in routes && Captures(route, urlSegments, h.entry.entryId)
          && (route.onDemand || route.renders.None? || h.entry.entryId in route.renders.value))
    {
      var route :| route in routes && Captured(route, urlSegments) == Some(h.entry.entryId);
      CapturedMeans(route, urlSegments, h.entry.entryId);
    }
    forall c | c in Candidates(entryId, routes, routes, pathname)
      ensures exists route :: (
          && route in routes && Builds(route, entryId, c.url)
          && (route.onDemand || route.renders.None? || entryId in route.renders.value))
    {
      CandidatesAre(entryId, routes, routes, pathname, c);
      var route :| route in routes && CandidateOf(route, entryId, routes, pathname) == Some(c);
      CandidateMeans(route, entryId, routes, pathname, c.url);
    }
  }

  /** A prerendered route whose enumeration settled contributes nothing for an id it does not
      list, and its hit and its candidate for one it lists. */
  lemma SettledRoutes(route: RouteInfo, urlSegments: seq<string>, entryId: string, routes: seq<RouteInfo>,
                      pathname: Pathname)
    requires !route.onDemand && route.renders.Some?
    ensures entryId !in route.renders.value ==>
      Captured(route, urlSegments) != Some(entryId) && CandidateOf(route, entryId, routes, pathname) == None
    ensures entryId in route.renders.value ==>
      && (Captured(route, urlSegments) == Some(entryId) <==> Captures(route, urlSegments, entryId))
      && (CandidateOf(route, entryId, routes, pathname).Some? <==>
            exists url :: Builds(route, entryId, url) && !IsStaticPage(routes, ToUrlSegments(url, pathname)))
  {
    CapturedMeans(route, urlSegments, entryId);
    var r := CandidateOf(route, entryId, routes, pathname);
    hide Captured, Captures, Builds, CandidateOf, IsStaticPage, ToUrlSegments;
    if r.Some? { CandidateMeans(route, entryId, routes, pathname, r.value.url); }
    forall url | Builds(route, entryId, url) && !IsStaticPage(routes, ToUrlSegments(url, pathname))
      ensures entryId in route.renders.value ==> r.Some?
    {
      CandidateMeans(route, entryId, routes, pathname, url);
    }
  }

  // ----- the meaning of forward resolution -----

  ghost predicate NulFree(collections: CollectionsIndex) {
    forall c :: c in collections ==> '\0' !in c.0
  }

  lemma KeysTellEntries(a: string, x: string, b: string, y: string)
    requires '\0' !in a && '\0' !in b && a + ['\0'] + x == b + ['\0'] + y
    ensures a == b && x == y
  {
    SplitFirst(a, x, '\0');
    SplitFirst(b, y, '\0');
    assert a == SplitOn(a + ['\0'] + x, '\0')[0] == b;
    assert x == (a + ['\0'] + x)[|a| + 1..] && y == (b + ['\0'] + y)[|b| + 1..];
  }

  lemma SameKeySameEntry(routes: seq<RouteInfo>, urlSegments: seq<string>, collections: CollectionsIndex,
                         d: ActiveEntry, e: ActiveEntry)
    requires NulFree(collections) && KeyOf(d) == KeyOf(e)
    requires Rendered(routes, urlSegments, collections, d) && Rendered(routes, urlSegments, collections, e)
    ensures d == e
  {
    KeysTellEntries(d.collection, d.entryId, e.collection, e.entryId);
  }

  ghost predicate OnlyRendered(routes: seq<RouteInfo>, urlSegments: seq<string>, collections: CollectionsIndex,
                               e: ActiveEntry) {
    && Rendered(routes, urlSegments, collections, e)
    && forall d :: Rendered(routes, urlSegments, collections, d) ==> d == e
  }

  lemma OneHit(routes: seq<RouteInfo>, urlSegments: seq<string>, collections: CollectionsIndex, e: ActiveEntry)
    requires NulFree(collections)
    ensures var hits := EntryHits([], routes, urlSegments, collections);
      (|hits| == 1 && hits[0].entry == e) <==> OnlyRendered(routes, urlSegments, collections, e)
  {
    var hits := EntryHits([], routes, urlSegments, collections);
    var second := if |hits| > 1 then Some(hits[1]) else None;
    HitsAreRendered([], routes, urlSegments, collections);
    hide EntryHits, Rendered, KeyOf;
    if |hits| == 1 && hits[0].entry == e {
      assert hits[0] in hits;
      forall d | Rendered(routes, urlSegments, collections, d) ensures d == e {
        var h :| h in hits && h.key == KeyOf(d);
        SameKeySameEntry(routes, urlSegments, collections, d, e);
      }
    }
    if OnlyRendered(routes, urlSegments, collections, e) {
      var h :| h in hits && h.key == KeyOf(e);
      forall i | 0 <= i < |hits| ensures hits[i].entry == e {
        assert hits[i] in hits;
      }
      if |hits| > 1 { assert false; }
    }
  }

  /** Forward resolution selects an entry exactly when no static page serves the URL and it
      is the only entry any route renders there. */
  lemma ForwardMeans(routes: seq<RouteInfo>, url: string, collections: CollectionsIndex, pathname: Pathname,
                     e: ActiveEntry)
    requires NulFree(collections)
    ensures var urlSegments := ToUrlSegments(url, pathname);
      (ResolveActiveEntry(routes, url, collections, pathname) == Some(e))
      <==> (!IsStaticPage(routes, urlSegments) && OnlyRendered(routes, urlSegments, collections, e))
  {
    OneHit(routes, ToUrlSegments(url, pathname), collections, e);
    hide EntryHits, OnlyRendered, ToUrlSegments;
  }

  /** It does not depend on the order of the routes or the collections, nor on repeats. */
  lemma ForwardOrderIndependent(routes: seq<RouteInfo>, others: seq<RouteInfo>, url: string,
                                collections: CollectionsIndex, index: CollectionsIndex, pathname: Pathname)
    requires NulFree(collections)
    requires forall r :: r in routes <==> r in others
    requires forall c :: c in collections <==> c in index
    ensures ResolveActiveEntry(routes, url, collections, pathname) == ResolveActiveEntry(others, url, index, pathname)
  {
    var urlSegments := ToUrlSegments(url, pathname);
    forall e ensures Rendered(routes, urlSegments, collections, e) <==> Rendered(others, urlSegments, index, e) {}
    var a := ResolveActiveEntry(routes, url, collections, pathname);
    var b := ResolveActiveEntry(others, url, index, pathname);
    hide ResolveActiveEntry, Rendered, ToUrlSegments;
    if a.Some? {
      ForwardMeans(routes, url, collections, pathname, a.value);
      ForwardMeans(others, url, index, pathname, a.value);
    } else if b.Some? {
      ForwardMeans(routes, url, collections, pathname, b.value);
      ForwardMeans(others, url, index, pathname, b.value);
    }
  }

  // ----- the pick -----

  /** A resolved entry is held by its collection, and its id by no other. */
  lemma ResolvedIsUnique(routes: seq<RouteInfo>, url: string, collections: CollectionsIndex, pathname: Pathname,
                         name: string)
    requires ResolveActiveEntry(routes, url, collections, pathname).Some?
    ensures var e := ResolveActiveEntry(routes, url, collections, pathname).value;
      Holds(collections, name, e.entryId) <==> name == e.collection
  {
    hide EntryHits, ToUrlSegments, Captured, Holds, KeyOf, IsStaticPage;
    var urlSegments := ToUrlSegments(url, pathname);
    var hits := EntryHits([], routes, urlSegments, collections);
    HitsAreRendered([], routes, urlSegments, collections);
    assert hits[0] in hits;
    var e := hits[0].entry;
    if Holds(collections, name, e.entryId) {
      var d := ActiveEntry(name, e.entryId);
      assert Rendered(routes, urlSegments, collections, d);
      var h :| h in hits && h.key == KeyOf(d);
      SameId(name, e.collection, e.entryId);
    }
  }

  lemma SameId(a: string, b: string, entryId: string)
    requires KeyOf(ActiveEntry(a, entryId)) == KeyOf(ActiveEntry(b, entryId))
    ensures a == b
  {
    var tail := ['\0'] + entryId;
    assert a + ['\0'] + entryId == a + tail && b + ['\0'] + entryId == b + tail;
    assert a == (a + tail)[..|a|] && b == (b + tail)[..|b|] && |a| == |b|;
  }

  /** The least candidate: none is more specific, and of equals it comes first. */
  ghost predicate Least(candidates: seq<RankedCandidate>, i: nat) {
    i < |candidates| && forall j :: 0 <= j < |candidates| ==>
      !MoreSpecific(candidates[j], candidates[i]) && (j < i ==> MoreSpecific(candidates[i], candidates[j]))
  }

  lemma {:induction false} SortStartsLeast(candidates: seq<RankedCandidate>) returns (i: nat)
    requires candidates != []
    ensures Least(candidates, i) && Sort(candidates)[0] == candidates[i]
  {
    if |candidates| == 1 || !MoreSpecific(Sort(candidates[1..])[0], candidates[0]) {
      i := 0;
      if |candidates| > 1 {
        var k := SortStartsLeast(candidates[1..]);
        assert forall j :: 0 < j < |candidates| ==> candidates[j] == candidates[1..][j - 1];
      }
    } else {
      var k := SortStartsLeast(candidates[1..]);
      i := k + 1;
      assert forall j :: 0 < j < |candidates| ==> candidates[j] == candidates[1..][j - 1];
    }
  }

  /** The least candidate spelled out: a single segment goes before a rest, among alike the
      shallower pattern, and among those the route that comes first. */
  lemma LeastMeans(candidates: seq<RankedCandidate>, i: nat, j: nat)
    requires Least(candidates, i) && j < |candidates|
    ensures var a, b := candidates[i], candidates[j];
      && (a.rest ==> b.rest)
      && (a.rest == b.rest ==> a.segments <= b.segments)
      && (a.rest == b.rest && a.segments == b.segments ==> i <= j)
  {
  }

  /** What a route has to be: every segment in one part, a rest only at the end, and at most
      one param; each segment by what its part is marked as. */
  ghost predicate FlattensTo(parts: seq<seq<RouteSegmentPart>>, segments: seq<FlatSegment>) {
    && |segments| == |parts|
    && (forall i :: 0 <= i < |parts| ==>
          && |parts[i]| == 1
          && segments[i] == (if parts[i][0].spread then Rest
                             else if parts[i][0].dynamic then Param else Static(parts[i][0].content))
          && (parts[i][0].spread ==> i == |parts| - 1))
  }

  lemma {:induction false} SegmentsMean(parts: seq<seq<RouteSegmentPart>>, segments: seq<FlatSegment>)
    ensures FlatSegments(parts) == Some(segments) <==> FlattensTo(parts, segments)
  {
    if parts == [] {
    } else if segments != [] {
      SegmentsMean(parts[1..], segments[1..]);
      assert segments == [segments[0]] + segments[1..];
      if FlattensTo(parts, segments) {
        assert forall i :: 0 <= i < |parts| - 1 ==>
            parts[1..][i] == parts[i + 1] && segments[1..][i] == segments[i + 1];
      }
      if FlatSegments(parts) == Some(segments) {
        RestIsLast(parts);
        assert forall i :: 0 < i < |parts| ==> parts[1..][i - 1] == parts[i] && segments[1..][i - 1] == segments[i];
      }
    }
  }

  /** A route takes part with one param exactly if it is so and one segment alone is none of
      the static ones. */
  lemma RouteMeans(route: RouteInfo, segments: seq<FlatSegment>, at: nat)
    ensures FlattenRoute(route) == Some(SingleParamRoute(segments, at, route)) <==>
              && FlattensTo(route.segments, segments) && at < |segments|
              && forall i :: 0 <= i < |segments| ==> (segments[i].Static? <==> i != at)
    ensures FlattenRoute(route) == Some(StaticRoute(segments)) <==>
              FlattensTo(route.segments, segments) && forall i :: 0 <= i < |segments| ==> segments[i].Static?
  {
    SegmentsMean(route.segments, segments);
    hide FlatSegments, FlattensTo;
    if FlatSegments(route.segments) == Some(segments) { ParamMeans(segments, at); }
  }

  lemma ParamMeans(segments: seq<FlatSegment>, at: nat)
    ensures ParamAt(segments).None? <==> forall i :: 0 <= i < |segments| ==> segments[i].Static?
    ensures (ParamAt(segments) == Some(at) && ParamAt(segments[at + 1..]).None?) <==>
              at < |segments| && forall i :: 0 <= i < |segments| ==> (segments[i].Static? <==> i != at)
  {
    if ParamAt(segments) == Some(at) {
      assert forall i :: at < i < |segments| ==> segments[at + 1..][i - at - 1] == segments[i];
      var more := ParamAt(segments[at + 1..]);
      if more.Some? { assert segments[at + 1..][more.value] == segments[at + 1 + more.value]; }
    }
    var first := ParamAt(segments);
    assert first.Some? ==> !segments[first.value].Static?;
    assert at < |segments| && first.None? ==> segments[at].Static?;
  }

  /** A picked URL is never wrong: one collection holds the id, every candidate resolves
      forward to that entry, and the pick is the most specific candidate, first among
      equals. */
  lemma PickedNeverWrong(entryId: string, routes: seq<RouteInfo>, collections: CollectionsIndex, pathname: Pathname)
    returns (name: string, i: nat)
    requires PickNavigableCandidate(entryId, routes, collections, pathname).Some?
    ensures var candidates := Candidates(entryId, routes, routes, pathname);
      && Least(candidates, i)
      && PickNavigableCandidate(entryId, routes, collections, pathname) == Some(candidates[i].url)
      && (forall c :: c in candidates ==>
        ResolveActiveEntry(routes, c.url, collections, pathname) == Some(ActiveEntry(name, entryId)))
    ensures forall other :: Holds(collections, other, entryId) <==> other == name
  {
    var candidates := Candidates(entryId, routes, routes, pathname);
    i := SortStartsLeast(candidates);
    hide Candidates, ResolveActiveEntry, Holds, Sort, MoreSpecific;
    assert ReadsBack(candidates[i], entryId, routes, collections, pathname);
    name := ResolveActiveEntry(routes, candidates[i].url, collections, pathname).value.collection;
    forall other ensures Holds(collections, other, entryId) <==> other == name {
      ResolvedIsUnique(routes, candidates[i].url, collections, pathname, other);
    }
    forall c | c in candidates
      ensures ResolveActiveEntry(routes, c.url, collections, pathname) == Some(ActiveEntry(name, entryId))
    {
      assert ReadsBack(c, entryId, routes, collections, pathname);
      ResolvedIsUnique(routes, c.url, collections, pathname,
        ResolveActiveEntry(routes, c.url, collections, pathname).value.collection);
    }
  }
}
