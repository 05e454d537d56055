/** What a splice does to the node at a path: exactly when it stays, and what it says where
    the draft differs. */
module EntryPaths {
  import opened Json
  import opened EntryDocument
  import opened EntrySplice
  import opened EntryWrite

  lemma {:induction false} JsonEqualReflexive(v: Json)
    ensures JsonEqual(v, v)
  {
    match v {
      case Arr(items) =>
        forall i | 0 <= i < |items| ensures JsonEqual(items[i], items[i]) { JsonEqualReflexive(items[i]); }
      case Obj(fields) =>
        forall k | k in fields ensures JsonEqual(fields[k], fields[k]) { JsonEqualReflexive(fields[k]); }
      case _ =>
    }
  }

  // ----- one key at a time -----

  lemma {:induction false} KeysPointwise(f: Focus, touched: bool, baseline: map<string, Json>, draft: Json,
                                         keys: seq<string>, path: Path, protected: set<string>, order: KeyOrder,
                                         k: string)
    requires Lists(order) && draft.Obj? && forall k :: k in keys ==> k in draft.fields
    requires IsMapping(f) && Distinct(keys)
    requires SpliceKeys(f, touched, baseline, draft, keys, path, protected, order).Done?
    ensures var s := SpliceKeys(f, touched, baseline, draft, keys, path, protected, order).value;
      && IsMapping(s.focus)
      && if k in keys then
           var c := Splice(Child(f, k), Get(baseline, k), draft.fields[k], path + [k], protected, order);
           c.Done? && Child(s.focus, k) == c.value.focus
         else Child(s.focus, k) == Child(f, k)
    decreases keys
  {
    hide JsonEqual, Get, Join, HasKey;
    if keys != [] {
      var h := keys[0];
      var s := Splice(Child(f, h), Get(baseline, h), draft.fields[h], path + [h], protected, order).value;
      SpliceFits(Child(f, h), Get(baseline, h), draft.fields[h], path + [h], protected, order);
      KeysPointwise(Rebuild(f, h, s.focus), touched || s.touched, baseline, draft, keys[1..], path, protected, order,
                    k);
    }
  }

  /** After splicing one object into another, each child is the splice of that child, gone,
      or as it was. */
  lemma ChildAfter(f: Focus, baseline: Json, draft: Json, path: Path, protected: set<string>, order: KeyOrder,
                   k: string)
    requires Lists(order) && IsMapping(f) && baseline.Obj? && draft.Obj?
    requires Join(path) !in protected && !JsonEqual(baseline, draft)
    requires Splice(f, baseline, draft, path, protected, order).Done?
    ensures var s := Splice(f, baseline, draft, path, protected, order).value;
      && IsMapping(s.focus)
      && if k in draft.fields then
           var c := Splice(Child(f, k), Get(baseline.fields, k), draft.fields[k], path + [k], protected, order);
           c.Done? && Child(s.focus, k) == c.value.focus
         else
           Child(s.focus, k) == if k in baseline.fields && k !in PROTOTYPE_NAMES then Missing(true) else Child(f, k)
  {
    var drops := SpliceDrops(f, false, draft.fields, order(path, baseline.fields.Keys));
    DropsEach(f, false, draft.fields, order(path, baseline.fields.Keys), k);
    KeysPointwise(drops.value.focus, drops.value.touched, baseline.fields, draft, order(path, draft.fields.Keys),
                  path, protected, order, k);
  }

  /** Where the splice of a key of the draft starts, for any document: at the child, or under
      contents that an earlier key has brought into being. */
  lemma {:induction false} KeysEach(f: Focus, touched: bool, b: map<string, Json>, d: Json, keys: seq<string>,
                                    path: Path, protected: set<string>, order: KeyOrder, k: string) returns (c: Focus)
    requires Lists(order) && d.Obj? && Distinct(keys) && k in keys && forall k :: k in keys ==> k in d.fields
    requires SpliceKeys(f, touched, b, d, keys, path, protected, order).Done?
    ensures c == Child(f, k) || (Child(f, k) == Missing(false) && c == Missing(true))
    ensures Splice(c, Get(b, k), d.fields[k], path + [k], protected, order).Done?
    ensures var x := Splice(c, Get(b, k), d.fields[k], path + [k], protected, order).value.focus;
      var y := Child(SpliceKeys(f, touched, b, d, keys, path, protected, order).value.focus, k);
      if x.At? then y == x else !y.At?
    decreases keys
  {
    hide JsonEqual, Get, Join, HasKey;
    var h, rest := keys[0], keys[1..];
    var a := Child(f, h);
    var s := Splice(a, Get(b, h), d.fields[h], path + [h], protected, order).value;
    var g := Rebuild(f, h, s.focus);
    DistinctTail(keys);
    SpliceFits(a, Get(b, h), d.fields[h], path + [h], protected, order);
    RebuildKind(f, h, s.focus);
    hide Splice;
    if k == h {
      c := a;
      KeysLeaveOthers(g, touched || s.touched, b, d, rest, path, protected, order, k);
    } else {
      c := KeysEach(g, touched || s.touched, b, d, rest, path, protected, order, k);
      ChildOfRebuild(f, h, s.focus, k);
    }
  }

  /** The same for the whole object, whatever stands there. */
  lemma SplicedChild(f: Focus, baseline: Json, draft: Json, path: Path, protected: set<string>, order: KeyOrder,
                     k: string)
    returns (c: Focus)
    requires Lists(order) && baseline.Obj? && draft.Obj? && k in draft.fields
    requires Join(path) !in protected && !JsonEqual(baseline, draft)
    requires Splice(f, baseline, draft, path, protected, order).Done?
    ensures c == Child(f, k) || (Child(f, k) == Missing(false) && c == Missing(true))
    ensures Splice(c, Get(baseline.fields, k), draft.fields[k], path + [k], protected, order).Done?
    ensures var x := Splice(c, Get(baseline.fields, k), draft.fields[k], path + [k], protected, order).value.focus;
      var y := Child(Splice(f, baseline, draft, path, protected, order).value.focus, k);
      if x.At? then y == x else !y.At?
  {
    var gone := order(path, baseline.fields.Keys);
    var s := SpliceDrops(f, false, draft.fields, gone).value;
    DropsEach(f, false, draft.fields, gone, k);
    c := KeysEach(s.focus, s.touched, baseline.fields, draft, order(path, draft.fields.Keys), path, protected, order,
      k);
  }

  // ----- nodes that stay -----

  /** A node no path of keys has trouble in: no mapping in it has a key that is no string,
      and it is no alias. */
  predicate Ordinary(n: Node) {
    match n
    case Mapping(_, fields, others, _, _) => others == map[] && forall k :: k in fields ==> Ordinary(fields[k])
    case Alias(_, _) => false
    case _ => true
  }

  /** An ordinary node that already holds the draft's value keeps its bytes, however stale
      the baseline: nothing below it is restyled, reordered or replaced. */
  lemma {:induction false} HeldValueStays(f: Focus, b: Json, d: Json, path: Path, protected: set<string>,
                                          order: KeyOrder)
    requires Lists(order) && path != [] && f.At? && Ordinary(f.node) && ToJson(f.node) == d
    ensures Takes(f, b, d, path, protected, order) && Idle(f, b, d, path, protected, order)
    decreases d
  {
    JsonEqualReflexive(d);
    NodesAreClean(f.node);
    if b.Obj? && d.Obj? {
      forall k | k in d.fields
        ensures Takes(Child(f, k), Get(b.fields, k), d.fields[k], path + [k], protected, order)
        ensures Idle(Child(f, k), Get(b.fields, k), d.fields[k], path + [k], protected, order)
      {
        HeldValueStays(Child(f, k), Get(b.fields, k), d.fields[k], path + [k], protected, order);
      }
    }
  }

  /** The two values a path reaches, through objects on both sides and keys the draft has. */
  function Reach(baseline: Json, draft: Json, p: Path): Option<(Json, Json)>
    decreases p
  {
    if p == [] then Some((baseline, draft))
    else if baseline.Obj? && draft.Obj? && p[0] in draft.fields then
      Reach(Get(baseline.fields, p[0]), draft.fields[p[0]], p[1..])
    else None
  }

  /** The node at `p` below a whole write: cleared it goes, held it stays, and a replaced
      value may happen to have an identical node there. */
  predicate KeptBelow(f: Focus, d: Json, path: Path, order: KeyOrder, p: Path)
    requires f.At?
  {
    if path != [] && d.Undefined? then false
    else if path != [] && JsonEqual(ToJson(f.node), d) then true
    else
      var created := CreateNode(d, path, order);
      FocusAt(At(if path == [] then created else WithFlow(created, f.node)), p) == FocusAt(f, p)
  }

  /** The node at `p` is kept: a place on the way is protected or agrees; or its key is still
      in the draft, or was never the baseline's, or is one every object inherits; and where
      a whole value is written, it is kept by that. */
  predicate Kept(f: Focus, b: Json, d: Json, path: Path, protected: set<string>, order: KeyOrder, p: Path)
    requires FocusAt(f, p).At?
    decreases p
  {
    BelowBlocked(f, p);
    || Join(path) in protected || JsonEqual(b, d)
    || if p == [] then Idle(f, b, d, path, protected, order)
       else if b.Obj? && d.Obj? then
         if p[0] in d.fields then
           Kept(Child(f, p[0]), Get(b.fields, p[0]), d.fields[p[0]], path + [p[0]], protected, order, p[1..])
         else p[0] !in b.fields || p[0] in PROTOTYPE_NAMES
       else KeptBelow(f, d, path, order, p)
  }

  /** For any document, baseline, draft, protected paths and any path that has a node: the
      very node is there after the write, style included, if and only if it is kept. */
  lemma {:induction false} NodeStaysExactly(f: Focus, b: Json, d: Json, path: Path, protected: set<string>,
                                            order: KeyOrder, p: Path)
    requires Lists(order) && Splice(f, b, d, path, protected, order).Done? && FocusAt(f, p).At?
    ensures FocusAt(Splice(f, b, d, path, protected, order).value.focus, p) == FocusAt(f, p)
       <==> Kept(f, b, d, path, protected, order, p)
    decreases p
  {
    hide JsonEqual, Get, Join;
    BelowBlocked(f, p);
    WriteIsIdle(f, b, d, path, protected, order);
    if p != [] && Join(path) !in protected && !JsonEqual(b, d) {
      BelowBlocked(Child(f, p[0]), p[1..]);
      if b.Obj? && d.Obj? {
        ChildAfter(f, b, d, path, protected, order, p[0]);
        if p[0] in d.fields {
          NodeStaysExactly(Child(f, p[0]), Get(b.fields, p[0]), d.fields[p[0]], path + [p[0]], protected, order,
            p[1..]);
        } else {
          BelowBlocked(Missing(true), p[1..]);
        }
      } else {
        BelowBlocked(Missing(true), p);
      }
    }
  }

  /** A protected path's node is lost exactly when one of its ancestors is: to a dropped key,
      or to a whole value written over it. Reached through objects on both sides it stays. */
  lemma {:induction false} ProtectedNodeStays(f: Focus, b: Json, d: Json, path: Path, protected: set<string>,
                                              order: KeyOrder, p: Path)
    requires FocusAt(f, p).At? && Join(path + p) in protected && Reach(b, d, p).Some?
    ensures Kept(f, b, d, path, protected, order, p)
    decreases p
  {
    BelowBlocked(f, p);
    if p == [] {
      assert path + p == path;
    } else {
      BelowBlocked(Child(f, p[0]), p[1..]);
      assert path + p == (path + [p[0]]) + p[1..];
      ProtectedNodeStays(Child(f, p[0]), Get(b.fields, p[0]), d.fields[p[0]], path + [p[0]], protected, order, p[1..]);
    }
  }

  // ----- places where the draft differs -----

  lemma {:induction false} ReachSame(v: Json, p: Path)
    requires Reach(v, v, p).Some?
    ensures Reach(v, v, p).value.0 == Reach(v, v, p).value.1
    decreases p
  {
    if p != [] { ReachSame(v.fields[p[0]], p[1..]); }
  }

  /** No prefix of `p` below `path` is protected. */
  predicate Exposed(path: Path, p: Path, protected: set<string>) {
    forall i :: 0 <= i <= |p| ==> Join(path + p[..i]) !in protected
  }

  lemma ExposedBelow(path: Path, p: Path, protected: set<string>)
    requires p != [] && Exposed(path, p, protected)
    ensures Join(path) !in protected && Exposed(path + [p[0]], p[1..], protected)
  {
    assert path + p[..0] == path;
    forall i | 0 <= i <= |p[1..]| ensures Join(path + [p[0]] + p[1..][..i]) !in protected {
      assert path + [p[0]] + p[1..][..i] == path + p[..i + 1];
    }
  }

  /** The place says `v` as JSON would: a value, or nothing for an undefined one. */
  predicate Says(f: Focus, v: Json) {
    if v.Undefined? then !f.At? else f.At? && ToJson(f.node) == Clean(v)
  }

  lemma SaysBelow(x: Focus, y: Focus, p: Path, v: Json)
    requires (if x.At? then y == x else !y.At?) && Says(FocusAt(x, p), v)
    ensures Says(FocusAt(y, p), v)
  {
    BelowBlocked(x, p);
    BelowBlocked(y, p);
  }

  /** The values at `p` differ there and are no object against an object. */
  predicate Differ(b: Json, d: Json, path: Path, p: Path) {
    && Reach(b, d, p).Some?
    && var (vb, vd) := Reach(b, d, p).value;
       vb != vd && !(vb.Obj? && vd.Obj?) && (path + p != [] || !vd.Undefined?)
  }

  lemma DifferBelow(b: Json, d: Json, path: Path, p: Path)
    requires (Plain(b) || b.Callable?) && Plain(d) && p != [] && Differ(b, d, path, p)
    ensures b.Obj? && d.Obj? && p[0] in d.fields && b != d
    ensures Differ(Get(b.fields, p[0]), d.fields[p[0]], path + [p[0]], p[1..])
    ensures Plain(Get(b.fields, p[0])) || Get(b.fields, p[0]).Callable?
    ensures Plain(d.fields[p[0]])
    ensures Reach(b, d, p) == Reach(Get(b.fields, p[0]), d.fields[p[0]], p[1..])
  {
    if b == d { ReachSame(b, p); }
    assert path + p == (path + [p[0]]) + p[1..];
  }

  /** For any document and protected paths, and any baseline, stale or not: unless the write
      throws, wherever the draft's value differs and is no object against an object, and no
      prefix of the path is protected, the document says the draft's value afterwards. */
  lemma {:induction false} DifferingPathSays(f: Focus, b: Json, d: Json, path: Path, protected: set<string>,
                                             order: KeyOrder, p: Path)
    requires Lists(order) && Splice(f, b, d, path, protected, order).Done?
    requires (Plain(b) || b.Callable?) && Plain(d) && Differ(b, d, path, p) && Exposed(path, p, protected)
    requires FocusAt(f, p).At? ==> Plain(ToJson(FocusAt(f, p).node))
    ensures Says(FocusAt(Splice(f, b, d, path, protected, order).value.focus, p), Reach(b, d, p).value.1)
    decreases p
  {
    JsonEqualIsIdentity(b, d);
    if p == [] {
      assert path + p[..0] == path && path + p == path;
      WholeSays(f, d, path, order);
    } else {
      hide Splice, Reach, Says, Differ, Plain, JsonEqual;
      DifferBelow(b, d, path, p);
      ExposedBelow(path, p, protected);
      var k := p[0];
      var c := SplicedChild(f, b, d, path, protected, order, k);
      NowhereBelow(f, c, k, p);
      DifferingPathSays(c, Get(b.fields, k), d.fields[k], path + [k], protected, order, p[1..]);
      SaysBelow(Splice(c, Get(b.fields, k), d.fields[k], path + [k], protected, order).value.focus,
                Child(Splice(f, b, d, path, protected, order).value.focus, k), p[1..], Reach(b, d, p).value.1);
    }
  }

  lemma NowhereBelow(f: Focus, c: Focus, k: string, p: Path)
    requires p != [] && p[0] == k && (c == Child(f, k) || (Child(f, k) == Missing(false) && c == Missing(true)))
    ensures FocusAt(c, p[1..]) == FocusAt(f, p) || !FocusAt(c, p[1..]).At?
  {
    BelowBlocked(c, p[1..]);
  }

  lemma WholeSays(f: Focus, d: Json, path: Path, order: KeyOrder)
    requires SpliceWhole(f, d, path, order).Done? && Plain(d) && (path == [] ==> !d.Undefined?)
    requires f.At? ==> Plain(ToJson(f.node))
    ensures Says(SpliceWhole(f, d, path, order).value.focus, d)
  {
    if !d.Undefined? { CreatedProjects(d, path, order); }
    if f.At? {
      NodesAreClean(f.node);
      JsonEqualIsIdentity(ToJson(f.node), d);
    }
  }

  /** A replaced collection keeps the flow style of the one before, and a new one has none. */
  lemma WholeKeepsFlow(f: Focus, draft: Json, path: Path, order: KeyOrder)
    requires path != [] && SpliceWhole(f, draft, path, order).Done?
    requires var g := SpliceWhole(f, draft, path, order).value.focus; g.At? && (g.node.Sequence? || g.node.Mapping?)
    ensures var g := SpliceWhole(f, draft, path, order).value.focus;
      g.node.flow <==> f.At? && (f.node.Sequence? || f.node.Mapping?) && f.node.flow
  {
  }
}
