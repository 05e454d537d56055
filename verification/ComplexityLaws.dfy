/** What the counter-stack walk means: every decision counts for its innermost enclosing
    function, and functions come out in preorder. */
module ComplexityLaws {
  import opened Json
  import opened Complexity

  type Path = seq<nat>

  /** A visited node: where it stands, and the name its container lends it. */
  datatype Site = Site(path: Path, node: Value, hint: Option<string>)

  /** Every visited node of a subtree, in preorder. */
  function Sites(v: Value, hint: Option<string>, path: Path): seq<Site>
    decreases v
  {
    match v
    case Items(items) => ItemSites(items, hint, path, 0)
    case Node(_, props) => [Site(path, v, hint)]
      + PropSites(v, props, if IsFunction(v) then None else ChildHint(v), path, 0)
    case _ => []
  }

  function ItemSites(items: seq<Value>, hint: Option<string>, path: Path, at: nat): seq<Site>
    decreases items
  {
    if items == [] then [] else Sites(items[0], hint, path + [at]) + ItemSites(items[1..], hint, path, at + 1)
  }

  function PropSites(n: Value, props: seq<Prop>, hint: Option<string>, path: Path, at: nat): seq<Site>
    decreases props
  {
    if props == [] then []
    else
      (if Skipped(n, props[0].key) then [] else Sites(props[0].value, hint, path + [at]))
      + PropSites(n, props[1..], hint, path, at + 1)
  }

  // ----- the definition -----

  ghost predicate Between(all: seq<Site>, f: Path, d: Path) {
    exists g :: g in all && IsFunction(g.node) && f < g.path && g.path < d
  }

  /** `f` is the innermost function around `d`: it encloses it, and no function between does. */
  ghost predicate Owns(all: seq<Site>, f: Path, d: Path) {
    f < d && !Between(all, f, d)
  }

  ghost predicate Enclosed(all: seq<Site>, d: Path) {
    exists g :: g in all && IsFunction(g.node) && g.path < d
  }

  ghost function OwnedBy(ds: seq<Site>, all: seq<Site>, f: Path): nat {
    if ds == [] then 0
    else (if IsDecision(ds[0].node) && Owns(all, f, ds[0].path) then 1 else 0) + OwnedBy(ds[1..], all, f)
  }

  ghost function LooseIn(ds: seq<Site>, all: seq<Site>): nat {
    if ds == [] then 0
    else (if IsDecision(ds[0].node) && !Enclosed(all, ds[0].path) then 1 else 0) + LooseIn(ds[1..], all)
  }

  /** One record per function, in order, each counting 1 and the decisions it owns. */
  ghost function Records(fs: seq<Site>, all: seq<Site>, source: seq<nat>): seq<Record>
    requires forall s :: s in fs ==> s.node.Node?
  {
    if fs == [] then []
    else
      (if IsFunction(fs[0].node)
       then [RecordOf(fs[0].node, fs[0].hint, source, 1 + OwnedBy(all, all, fs[0].path))] else [])
      + Records(fs[1..], all, source)
  }

  // ----- where sites lie -----

  ghost predicate Nodes(ss: seq<Site>) {
    forall s :: s in ss ==> s.node.Node?
  }

  ghost predicate Below(ss: seq<Site>, path: Path) {
    forall s :: s in ss ==> path <= s.path
  }

  /** Everything lies under a child of `path` numbered `at` or more. */
  ghost predicate Beyond(ss: seq<Site>, path: Path, at: nat) {
    forall s :: s in ss ==> path < s.path && s.path[|path|] >= at
  }

  ghost predicate Apart(a: seq<Site>, b: seq<Site>) {
    forall s, t :: s in a && t in b ==> !(s.path <= t.path) && !(t.path <= s.path)
  }

  lemma {:induction false} SitesBelow(v: Value, hint: Option<string>, path: Path)
    ensures Nodes(Sites(v, hint, path)) && Below(Sites(v, hint, path), path)
    decreases v
  {
    match v {
      case Items(items) => ItemsBeyond(items, hint, path, 0);
      case Node(_, props) => PropsBeyond(v, props, if IsFunction(v) then None else ChildHint(v), path, 0);
      case _ =>
    }
  }

  lemma {:induction false} ItemsBeyond(items: seq<Value>, hint: Option<string>, path: Path, at: nat)
    ensures Nodes(ItemSites(items, hint, path, at)) && Beyond(ItemSites(items, hint, path, at), path, at)
    decreases items
  {
    if items != [] {
      SitesBelow(items[0], hint, path + [at]);
      ItemsBeyond(items[1..], hint, path, at + 1);
      UnderChild(Sites(items[0], hint, path + [at]), path, at);
    }
  }

  lemma {:induction false} PropsBeyond(n: Value, props: seq<Prop>, hint: Option<string>, path: Path, at: nat)
    ensures Nodes(PropSites(n, props, hint, path, at)) && Beyond(PropSites(n, props, hint, path, at), path, at)
    decreases props
  {
    if props != [] {
      PropsBeyond(n, props[1..], hint, path, at + 1);
      if !Skipped(n, props[0].key) {
        SitesBelow(props[0].value, hint, path + [at]);
        UnderChild(Sites(props[0].value, hint, path + [at]), path, at);
      }
    }
  }

  lemma UnderChild(ss: seq<Site>, path: Path, at: nat)
    requires Below(ss, path + [at])
    ensures Beyond(ss, path, at) && forall s :: s in ss ==> s.path[|path|] == at
  {
    forall s | s in ss ensures path < s.path && s.path[|path|] == at {
      assert s.path[..|path| + 1] == path + [at];
    }
  }

  lemma ChildrenApart(a: seq<Site>, b: seq<Site>, path: Path, at: nat)
    requires Below(a, path + [at]) && Beyond(b, path, at + 1)
    ensures Apart(a, b)
  {
    UnderChild(a, path, at);
    forall s, t | s in a && t in b ensures !(s.path <= t.path) && !(t.path <= s.path) {
      assert s.path[|path|] == at && t.path[|path|] > at;
    }
  }

  // ----- counting -----

  lemma {:induction false} OwnedAppend(a: seq<Site>, b: seq<Site>, all: seq<Site>, f: Path)
    ensures OwnedBy(a + b, all, f) == OwnedBy(a, all, f) + OwnedBy(b, all, f)
  {
    hide Owns, IsDecision;
    if a == [] {
      assert a + b == b;
    } else {
      assert (a + b)[1..] == a[1..] + b && (a + b)[0] == a[0];
      OwnedAppend(a[1..], b, all, f);
    }
  }

  lemma {:induction false} LooseAppend(a: seq<Site>, b: seq<Site>, all: seq<Site>)
    ensures LooseIn(a + b, all) == LooseIn(a, all) + LooseIn(b, all)
  {
    hide Enclosed, IsDecision;
    if a == [] {
      assert a + b == b;
    } else {
      assert (a + b)[1..] == a[1..] + b && (a + b)[0] == a[0];
      LooseAppend(a[1..], b, all);
    }
  }

  lemma {:induction false} RecordsAppend(a: seq<Site>, b: seq<Site>, all: seq<Site>, source: seq<nat>)
    requires Nodes(a) && Nodes(b)
    ensures Nodes(a + b) && Records(a + b, all, source) == Records(a, all, source) + Records(b, all, source)
  {
    hide RecordOf, IsFunction, OwnedBy;
    if a == [] {
      assert a + b == b;
    } else {
      assert (a + b)[1..] == a[1..] + b && (a + b)[0] == a[0];
      RecordsAppend(a[1..], b, all, source);
    }
  }

  lemma {:induction false} OwnedSame(ds: seq<Site>, a: seq<Site>, b: seq<Site>, f: Path)
    requires forall d :: d in ds ==> (Owns(a, f, d.path) <==> Owns(b, f, d.path))
    ensures OwnedBy(ds, a, f) == OwnedBy(ds, b, f)
  {
    hide Owns, IsDecision;
    if ds != [] { OwnedSame(ds[1..], a, b, f); }
  }

  lemma {:induction false} OwnsNone(ds: seq<Site>, all: seq<Site>, f: Path)
    requires forall d :: d in ds ==> !(f < d.path)
    ensures OwnedBy(ds, all, f) == 0
  {
    hide IsDecision;
    if ds != [] { OwnsNone(ds[1..], all, f); }
  }

  lemma {:induction false} LooseSame(ds: seq<Site>, a: seq<Site>, b: seq<Site>)
    requires forall d :: d in ds ==> (Enclosed(a, d.path) <==> Enclosed(b, d.path))
    ensures LooseIn(ds, a) == LooseIn(ds, b)
  {
    hide Enclosed, IsDecision;
    if ds != [] { LooseSame(ds[1..], a, b); }
  }

  lemma {:induction false} RecordsSame(fs: seq<Site>, a: seq<Site>, b: seq<Site>, source: seq<nat>)
    requires Nodes(fs)
    requires forall f :: f in fs ==> OwnedBy(a, a, f.path) == OwnedBy(b, b, f.path)
    ensures Records(fs, a, source) == Records(fs, b, source)
  {
    hide OwnedBy, RecordOf, IsFunction;
    if fs != [] { RecordsSame(fs[1..], a, b, source); }
  }

  // ----- siblings -----

  lemma OwnedApart(a: seq<Site>, b: seq<Site>, f: Path)
    requires Apart(a, b) && exists s :: s in a && s.path == f
    ensures OwnedBy(a + b, a + b, f) == OwnedBy(a, a, f) && OwnedBy(b + a, b + a, f) == OwnedBy(a, a, f)
  {
    forall d | d in a ensures Owns(a + b, f, d.path) == Owns(a, f, d.path) == Owns(b + a, f, d.path) {
      assert forall g :: g in b ==> !(g.path < d.path);
    }
    OwnedAppend(a, b, a + b, f);
    OwnedAppend(b, a, b + a, f);
    OwnsNone(b, a + b, f);
    OwnsNone(b, b + a, f);
    OwnedSame(a, a + b, a, f);
    OwnedSame(a, b + a, a, f);
  }

  lemma LooseApart(a: seq<Site>, b: seq<Site>)
    requires Apart(a, b)
    ensures LooseIn(a + b, a + b) == LooseIn(a, a) + LooseIn(b, b)
  {
    forall d | d in a ensures Enclosed(a + b, d.path) == Enclosed(a, d.path) {
      assert forall g :: g in b ==> !(g.path < d.path);
    }
    forall d | d in b ensures Enclosed(a + b, d.path) == Enclosed(b, d.path) {
      assert forall g :: g in a ==> !(g.path < d.path);
    }
    LooseAppend(a, b, a + b);
    LooseSame(a, a + b, a);
    LooseSame(b, a + b, b);
  }

  /** What the definition says of two subtrees side by side is what it says of each. */
  lemma Beside(a: seq<Site>, b: seq<Site>, source: seq<nat>)
    requires Nodes(a) && Nodes(b) && Apart(a, b)
    ensures Nodes(a + b)
    ensures Records(a + b, a + b, source) == Records(a, a, source) + Records(b, b, source)
    ensures LooseIn(a + b, a + b) == LooseIn(a, a) + LooseIn(b, b)
  {
    hide OwnedBy, LooseIn, Records;
    LooseApart(a, b);
    RecordsAppend(a, b, a + b, source);
    forall f | f in a ensures OwnedBy(a + b, a + b, f.path) == OwnedBy(a, a, f.path) {
      OwnedApart(a, b, f.path);
    }
    forall f | f in b ensures OwnedBy(a + b, a + b, f.path) == OwnedBy(b, b, f.path) {
      OwnedApart(b, a, f.path);
    }
    RecordsSame(a, a + b, a, source);
    RecordsSame(b, a + b, b, source);
  }

  // ----- a node around its children -----

  lemma OwnedUnder(s: Site, c: seq<Site>, f: Path)
    requires Beyond(c, s.path, 0) && s.path < f
    ensures OwnedBy([s] + c, [s] + c, f) == OwnedBy(c, c, f)
  {
    forall d | d in c ensures Owns([s] + c, f, d.path) == Owns(c, f, d.path) {
      assert !(f < s.path);
    }
    OwnedAppend([s], c, [s] + c, f);
    OwnsNone([s], [s] + c, f);
    OwnedSame(c, [s] + c, c, f);
  }

  lemma {:induction false} OwnedAtTop(s: Site, ds: seq<Site>, c: seq<Site>)
    requires Beyond(c, s.path, 0) && Beyond(ds, s.path, 0)
    ensures OwnedBy(ds, [s] + c, s.path) == LooseIn(ds, c)
  {
    if ds != [] {
      var d := ds[0];
      OwnedAtTop(s, ds[1..], c);
      assert Owns([s] + c, s.path, d.path) <==> !Enclosed(c, d.path) by {
        assert forall g :: g in [s] + c && s.path < g.path ==> g in c;
        assert forall g :: g in c ==> s.path < g.path && g in [s] + c;
      }
      hide Owns, Enclosed;
    }
  }

  lemma {:induction false} LooseUnder(s: Site, ds: seq<Site>, c: seq<Site>)
    requires Beyond(c, s.path, 0) && Beyond(ds, s.path, 0)
    ensures LooseIn(ds, [s] + c) == if IsFunction(s.node) then 0 else LooseIn(ds, c)
  {
    if ds != [] {
      var d := ds[0];
      LooseUnder(s, ds[1..], c);
      assert Enclosed([s] + c, d.path) <==> IsFunction(s.node) || Enclosed(c, d.path) by {
        assert s in [s] + c && s.path < d.path;
        assert forall g :: g in c ==> g in [s] + c;
        assert forall g :: g in [s] + c ==> g == s || g in c;
      }
    }
  }

  lemma HeadIsLoose(s: Site, c: seq<Site>)
    requires Beyond(c, s.path, 0)
    ensures LooseIn([s], [s] + c) == if IsDecision(s.node) then 1 else 0
  {
    assert !Enclosed([s] + c, s.path);
    assert [s][1..] == [];
  }

  lemma Around(s: Site, c: seq<Site>, source: seq<nat>)
    requires s.node.Node? && Nodes(c) && Beyond(c, s.path, 0)
    ensures Nodes([s] + c)
    ensures Records([s] + c, [s] + c, source)
      == (if IsFunction(s.node) then [RecordOf(s.node, s.hint, source, 1 + LooseIn(c, c))] else [])
        + Records(c, c, source)
    ensures LooseIn([s] + c, [s] + c)
      == (if IsDecision(s.node) then 1 else 0) + if IsFunction(s.node) then 0 else LooseIn(c, c)
  {
    hide OwnedBy, LooseIn, RecordOf, IsFunction, IsDecision;
    var all := [s] + c;
    LooseAppend([s], c, all);
    HeadIsLoose(s, c);
    LooseUnder(s, c, c);
    OwnedAppend([s], c, all, s.path);
    OwnsNone([s], all, s.path);
    OwnedAtTop(s, c, c);
    forall f | f in c ensures OwnedBy(all, all, f.path) == OwnedBy(c, c, f.path) {
      OwnedUnder(s, c, f.path);
    }
    RecordsSame(c, all, c, source);
    assert all[1..] == c && all[0] == s;
  }

  // ----- the main theorem -----

  lemma NothingThere(source: seq<nat>)
    ensures Nodes([]) && Records([], [], source) == [] && LooseIn([], []) == 0
  {
  }

  /** The walk's records are the functions in preorder, each with 1 plus the decisions whose
      innermost enclosing function it is. */
  lemma {:induction false} WalkRefines(v: Value, hint: Option<string>, path: Path, source: seq<nat>)
    ensures Nodes(Sites(v, hint, path))
    ensures var all := Sites(v, hint, path);
      Walk(v, hint, source) == Walked(Records(all, all, source), LooseIn(all, all))
    decreases v
  {
    hide RecordOf, IsDecision, OwnedBy, Records, LooseIn, ChildHint;
    NothingThere(source);
    SitesBelow(v, hint, path);
    match v {
      case Items(items) => ItemsRefine(items, hint, path, 0, source);
      case Node(_, props) =>
        var childHint := if IsFunction(v) then None else ChildHint(v);
        PropsRefine(v, props, childHint, path, 0, source);
        PropsBeyond(v, props, childHint, path, 0);
        Around(Site(path, v, hint), PropSites(v, props, childHint, path, 0), source);
      case _ =>
    }
  }

  lemma {:induction false} ItemsRefine(items: seq<Value>, hint: Option<string>, path: Path, at: nat, source: seq<nat>)
    ensures Nodes(ItemSites(items, hint, path, at))
    ensures var all := ItemSites(items, hint, path, at);
      WalkItems(items, hint, source) == Walked(Records(all, all, source), LooseIn(all, all))
    decreases items
  {
    hide OwnedBy, Walk, Sites, Records, LooseIn;
    NothingThere(source);
    ItemsBeyond(items, hint, path, at);
    if items != [] {
      var a, b := Sites(items[0], hint, path + [at]), ItemSites(items[1..], hint, path, at + 1);
      WalkRefines(items[0], hint, path + [at], source);
      ItemsRefine(items[1..], hint, path, at + 1, source);
      SitesBelow(items[0], hint, path + [at]);
      ItemsBeyond(items[1..], hint, path, at + 1);
      ChildrenApart(a, b, path, at);
      Beside(a, b, source);
    }
  }

  lemma {:induction false} PropsRefine(n: Value, props: seq<Prop>, hint: Option<string>, path: Path, at: nat,
                                       source: seq<nat>)
    ensures Nodes(PropSites(n, props, hint, path, at))
    ensures var all := PropSites(n, props, hint, path, at);
      WalkProps(n, props, hint, source) == Walked(Records(all, all, source), LooseIn(all, all))
    decreases props
  {
    hide OwnedBy, Walk, Sites, Skipped, Records, LooseIn;
    NothingThere(source);
    PropsBeyond(n, props, hint, path, at);
    if props != [] {
      var b := PropSites(n, props[1..], hint, path, at + 1);
      PropsRefine(n, props[1..], hint, path, at + 1, source);
      PropsBeyond(n, props[1..], hint, path, at + 1);
      if Skipped(n, props[0].key) {
        assert [] + b == b;
      } else {
        var a := Sites(props[0].value, hint, path + [at]);
        WalkRefines(props[0].value, hint, path + [at], source);
        SitesBelow(props[0].value, hint, path + [at]);
        ChildrenApart(a, b, path, at);
        Beside(a, b, source);
      }
    }
  }

  // ----- order and conservation -----

  /** Preorder on paths: a node comes before what is below it, and siblings in turn. */
  ghost predicate Before(p: Path, q: Path) {
    p < q || exists k :: 0 <= k < |p| && k < |q| && p[..k] == q[..k] && p[k] < q[k]
  }

  ghost predicate Preorder(ss: seq<Site>) {
    forall i, j :: 0 <= i < j < |ss| ==> Before(ss[i].path, ss[j].path)
  }

  lemma SiblingsInOrder(a: seq<Site>, b: seq<Site>, path: Path, at: nat)
    requires Preorder(a) && Preorder(b) && Below(a, path + [at]) && Beyond(b, path, at + 1)
    ensures Preorder(a + b)
  {
    UnderChild(a, path, at);
    forall s, t | s in a && t in b ensures Before(s.path, t.path) {
      assert s.path[..|path|] == path == t.path[..|path|];
    }
    forall i, j | 0 <= i < j < |a + b| ensures Before((a + b)[i].path, (a + b)[j].path) {
      if i < |a| <= j { assert a[i] in a && b[j - |a|] in b; }
    }
  }

  /** Sites, and with them the functions, come out in preorder; so no node is visited twice. */
  lemma {:induction false} SitesInOrder(v: Value, hint: Option<string>, path: Path)
    ensures Preorder(Sites(v, hint, path))
    decreases v
  {
    hide Before;
    match v {
      case Items(items) => ItemsInOrder(items, hint, path, 0);
      case Node(_, props) =>
        var childHint := if IsFunction(v) then None else ChildHint(v);
        PropsInOrder(v, props, childHint, path, 0);
        PropsBeyond(v, props, childHint, path, 0);
        NodeFirst(Site(path, v, hint), PropSites(v, props, childHint, path, 0));
      case _ =>
    }
  }

  lemma NodeFirst(s: Site, c: seq<Site>)
    requires Preorder(c) && Beyond(c, s.path, 0)
    ensures Preorder([s] + c)
  {
    forall j | 0 < j < |[s] + c| ensures Before(s.path, ([s] + c)[j].path) {
      assert c[j - 1] in c;
    }
  }

  lemma {:induction false} ItemsInOrder(items: seq<Value>, hint: Option<string>, path: Path, at: nat)
    ensures Preorder(ItemSites(items, hint, path, at))
    decreases items
  {
    hide Before, Sites;
    if items != [] {
      SitesInOrder(items[0], hint, path + [at]);
      ItemsInOrder(items[1..], hint, path, at + 1);
      SitesBelow(items[0], hint, path + [at]);
      ItemsBeyond(items[1..], hint, path, at + 1);
      SiblingsInOrder(Sites(items[0], hint, path + [at]), ItemSites(items[1..], hint, path, at + 1), path, at);
    }
  }

  lemma {:induction false} PropsInOrder(n: Value, props: seq<Prop>, hint: Option<string>, path: Path, at: nat)
    ensures Preorder(PropSites(n, props, hint, path, at))
    decreases props
  {
    hide Before, Sites, Skipped;
    if props != [] {
      var b := PropSites(n, props[1..], hint, path, at + 1);
      PropsInOrder(n, props[1..], hint, path, at + 1);
      if Skipped(n, props[0].key) {
        assert [] + b == b;
      } else {
        SitesInOrder(props[0].value, hint, path + [at]);
        SitesBelow(props[0].value, hint, path + [at]);
        PropsBeyond(n, props[1..], hint, path, at + 1);
        SiblingsInOrder(Sites(props[0].value, hint, path + [at]), b, path, at);
      }
    }
  }

  function SumCc(records: seq<Record>): nat {
    if records == [] then 0 else records[0].cc + SumCc(records[1..])
  }

  lemma {:induction false} SumAppend(a: seq<Record>, b: seq<Record>)
    ensures SumCc(a + b) == SumCc(a) + SumCc(b)
  {
    if a == [] {
      assert a + b == b;
    } else {
      assert (a + b)[1..] == a[1..] + b;
      SumAppend(a[1..], b);
    }
  }

  function Decisions(ss: seq<Site>): nat {
    if ss == [] then 0 else (if IsDecision(ss[0].node) then 1 else 0) + Decisions(ss[1..])
  }

  lemma {:induction false} DecisionsAppend(a: seq<Site>, b: seq<Site>)
    ensures Decisions(a + b) == Decisions(a) + Decisions(b)
  {
    hide IsDecision;
    if a == [] {
      assert a + b == b;
    } else {
      assert (a + b)[1..] == a[1..] + b && (a + b)[0] == a[0];
      DecisionsAppend(a[1..], b);
    }
  }

  /** Every decision is counted once: in the one function around it, or in none. */
  ghost predicate Balanced(w: Walked, ss: seq<Site>) {
    SumCc(w.records) + w.loose == |w.records| + Decisions(ss)
  }

  lemma JoinBalanced(a: Walked, b: Walked, p: seq<Site>, q: seq<Site>)
    requires Balanced(a, p) && Balanced(b, q)
    ensures Balanced(Join(a, b), p + q)
  {
    SumAppend(a.records, b.records);
    DecisionsAppend(p, q);
  }

  lemma {:induction false} NothingLost(v: Value, hint: Option<string>, path: Path, source: seq<nat>)
    ensures Balanced(Walk(v, hint, source), Sites(v, hint, path))
    decreases v
  {
    hide IsDecision, RecordOf;
    match v {
      case Items(items) => ItemsNothingLost(items, hint, path, 0, source);
      case Node(_, props) =>
        var childHint := if IsFunction(v) then None else ChildHint(v);
        var c, inner := PropSites(v, props, childHint, path, 0), WalkProps(v, props, childHint, source);
        PropsNothingLost(v, props, childHint, path, 0, source);
        NodeBalanced(v, hint, path, source, inner, c);
      case _ =>
    }
  }

  lemma NodeBalanced(v: Value, hint: Option<string>, path: Path, source: seq<nat>, inner: Walked, c: seq<Site>)
    requires v.Node? && Balanced(inner, c)
    ensures var here := if IsDecision(v) then 1 else 0;
      && Balanced(Walked([RecordOf(v, hint, source, 1 + inner.loose)] + inner.records, here), [Site(path, v, hint)] + c)
      && Balanced(Walked(inner.records, here + inner.loose), [Site(path, v, hint)] + c)
  {
    assert ([Site(path, v, hint)] + c)[1..] == c;
    assert ([RecordOf(v, hint, source, 1 + inner.loose)] + inner.records)[1..] == inner.records;
  }

  lemma {:induction false} ItemsNothingLost(items: seq<Value>, hint: Option<string>, path: Path, at: nat,
                                            source: seq<nat>)
    ensures Balanced(WalkItems(items, hint, source), ItemSites(items, hint, path, at))
    decreases items
  {
    hide Walk, Sites;
    if items != [] {
      var a, b := Walk(items[0], hint, source), WalkItems(items[1..], hint, source);
      NothingLost(items[0], hint, path + [at], source);
      ItemsNothingLost(items[1..], hint, path, at + 1, source);
      JoinBalanced(a, b, Sites(items[0], hint, path + [at]), ItemSites(items[1..], hint, path, at + 1));
    }
  }

  lemma {:induction false} PropsNothingLost(n: Value, props: seq<Prop>, hint: Option<string>, path: Path, at: nat,
                                            source: seq<nat>)
    ensures Balanced(WalkProps(n, props, hint, source), PropSites(n, props, hint, path, at))
    decreases props
  {
    hide Walk, Sites, Skipped;
    if props != [] {
      var b, q := WalkProps(n, props[1..], hint, source), PropSites(n, props[1..], hint, path, at + 1);
      PropsNothingLost(n, props[1..], hint, path, at + 1, source);
      if Skipped(n, props[0].key) {
        JoinBalanced(Walked([], 0), b, [], q);
      } else {
        NothingLost(props[0].value, hint, path + [at], source);
        JoinBalanced(Walk(props[0].value, hint, source), b, Sites(props[0].value, hint, path + [at]), q);
      }
    }
  }

  /** The complexities add up to the functions plus the decisions inside some function. */
  lemma SumOfComplexities(program: Value, source: seq<nat>)
    ensures var all := Sites(program, None, []);
      var fns := Walk(program, None, source).records;
      SumCc(fns) == |fns| + Decisions(all) - LooseIn(all, all)
  {
    NothingLost(program, None, [], source);
    WalkRefines(program, None, [], source);
  }

  /** No decision has two innermost functions. */
  lemma OneOwner(all: seq<Site>, f: Site, g: Site, d: Path)
    requires f in all && g in all && IsFunction(f.node) && IsFunction(g.node)
    requires Owns(all, f.path, d) && Owns(all, g.path, d)
    ensures f.path == g.path
  {
    assert |f.path| <= |g.path| ==> f.path == d[..|f.path|] == g.path[..|f.path|];
    assert |g.path| <= |f.path| ==> g.path == d[..|g.path|] == f.path[..|g.path|];
  }
}
