/** What a splice leaves behind: the draft's value, and the keys it keeps in their order. */
module EntryLaws {
  import opened Json
  import opened EntryDocument
  import opened EntrySplice
  import opened EntryWrite
  import opened EntryPaths

  /** The place says `v`; an empty place says undefined. */
  predicate Projects(f: Focus, v: Json) {
    match f
    case At(n) => ToJson(n) == v
    case Missing(_) => v.Undefined?
    case Blocked(_) => false
  }

  function Own(fields: map<string, Json>, key: string): Json {
    if key in fields then fields[key] else Undefined
  }

  // ----- what a mapping shows under a name -----

  predicate IsOdd(f: Focus, k: string)
    requires IsMapping(f)
  {
    Odd(f.node.keys, f.node.fields, f.node.others, k)
  }

  /** The node JSON shows under `k`; a path finds `Child(f, k)` instead. */
  function ShownAt(f: Focus, k: string): Focus
    requires IsMapping(f)
  {
    if IsOdd(f, k) then At(f.node.others[k]) else Child(f, k)
  }

  /** A mapping says an object exactly when each node it shows says that object's value. */
  lemma ProjectsPointwise(f: Focus, fields: map<string, Json>)
    requires IsMapping(f)
    ensures Projects(f, Clean(Obj(fields))) <==> forall k: string :: Projects(ShownAt(f, k), Clean(Own(fields, k)))
  {
    var shown := ToJson(f.node).fields;
    var clean := Clean(Obj(fields)).fields;
    forall k: string
      ensures k in shown <==> ShownAt(f, k).At?
      ensures k in shown ==> shown[k] == ToJson(ShownAt(f, k).node) && !shown[k].Undefined?
    {
      if ShownAt(f, k).At? { NodesAreClean(ShownAt(f, k).node); }
    }
    if Projects(f, Clean(Obj(fields))) {
      assert shown == clean;
    }
    if forall k: string :: Projects(ShownAt(f, k), Clean(Own(fields, k))) {
      forall k: string
        ensures k in clean <==> k in shown
        ensures k in shown ==> clean[k] == shown[k]
      {
        assert Projects(ShownAt(f, k), Clean(Own(fields, k)));
      }
      assert shown == clean;
    }
  }

  lemma {:induction false} WithoutSnoc(keys: seq<Key>, last: Key, gone: set<Key>)
    ensures Without(keys + [last], gone) == Without(keys, gone) + (if last in gone then [] else [last])
  {
    var tail := if last in gone then [] else [last];
    if keys == [] {
      assert keys + [last] == [last] && [last][1..] == [];
      assert Without([last], gone) == tail + [];
    } else {
      var head := if keys[0] in gone then [] else [keys[0]];
      assert (keys + [last])[0] == keys[0] && (keys + [last])[1..] == keys[1..] + [last];
      WithoutSnoc(keys[1..], last, gone);
      assert Without(keys + [last], gone) == head + (Without(keys[1..], gone) + tail);
      assert head + (Without(keys[1..], gone) + tail) == (head + Without(keys[1..], gone)) + tail;
    }
  }

  lemma {:induction false} ShownLastWithout(keys: seq<Key>, h: string, k: string)
    requires h != k
    ensures ShownLast(Without(keys, {Name(h)}), k) == ShownLast(keys, k)
  {
    if keys != [] {
      var n := |keys| - 1;
      assert keys[..n] + [keys[n]] == keys;
      WithoutSnoc(keys[..n], keys[n], {Name(h)});
      ShownLastWithout(keys[..n], h, k);
      var rest := Without(keys[..n], {Name(h)});
      if keys[n] == Name(h) {
        assert Without(keys, {Name(h)}) == rest;
      } else {
        assert Without(keys, {Name(h)}) == rest + [keys[n]];
        assert (rest + [keys[n]])[..|rest|] == rest;
      }
    }
  }

  lemma ShownLastSnoc(keys: seq<Key>, h: string, k: string)
    ensures ShownLast(keys + [Name(h)], k) == (h != k && ShownLast(keys, k))
  {
    assert (keys + [Name(h)])[..|keys|] == keys;
  }

  /** A string key that is rebuilt keeps its place and a new one goes last, where it is the
      one that shows. */
  lemma RebuildOdd(f: Focus, h: string, x: Focus, k: string)
    requires IsMapping(f) && Fits(Child(f, h), x)
    ensures var g := Rebuild(f, h, x);
      && IsMapping(g) && g.node.others == f.node.others && g.node.style == f.node.style
      && (k != h ==>
            && ShownLast(g.node.keys, k) == ShownLast(f.node.keys, k)
            && (k in g.node.fields <==> k in f.node.fields))
      && (IsOdd(g, k) <==>
          if k == h then k in f.node.others && (!x.At? || (k in f.node.fields && ShownLast(f.node.keys, k)))
          else IsOdd(f, k))
  {
    if k != h { ShownLastWithout(f.node.keys, h, k); }
    ShownLastSnoc(f.node.keys, h, k);
  }

  lemma {:induction false} DropsOdd(f: Focus, touched: bool, draft: map<string, Json>, keys: seq<string>, k: string)
    requires IsMapping(f) && SpliceDrops(f, touched, draft, keys).Done?
    ensures var g := SpliceDrops(f, touched, draft, keys).value.focus;
      && IsMapping(g) && g.node.others == f.node.others && g.node.style == f.node.style
      && (if k in keys && !HasKey(draft, k) then IsOdd(g, k) <==> k in f.node.others
          else ShownLast(g.node.keys, k) == ShownLast(f.node.keys, k) && (k in g.node.fields <==> k in f.node.fields))
    decreases keys
  {
    if keys != [] {
      var h := keys[0];
      if HasKey(draft, h) {
        DropsOdd(f, touched, draft, keys[1..], k);
      } else {
        RebuildSame(f, h);
        RebuildOdd(f, h, if Child(f, h).At? then Missing(true) else Child(f, h), k);
        hide ShownLast;
        DropsOdd(Delete(f, h).value, true, draft, keys[1..], k);
        DropsEach(Delete(f, h).value, true, draft, keys[1..], k);
      }
    }
  }

  lemma {:induction false} KeysOdd(f: Focus, touched: bool, b: map<string, Json>, d: Json, keys: seq<string>,
                                   path: Path, protected: set<string>, order: KeyOrder, k: string)
    requires Lists(order) && d.Obj? && Distinct(keys) && IsMapping(f) && forall k :: k in keys ==> k in d.fields
    requires SpliceKeys(f, touched, b, d, keys, path, protected, order).Done?
    ensures var g := SpliceKeys(f, touched, b, d, keys, path, protected, order).value.focus;
      && IsMapping(g) && g.node.others == f.node.others && g.node.style == f.node.style
      && (IsOdd(g, k) <==>
          if k in keys then k in f.node.others
            && (!Child(g, k).At? || (k in f.node.fields && ShownLast(f.node.keys, k)))
          else IsOdd(f, k))
    decreases keys
  {
    if keys != [] {
      var h, rest := keys[0], keys[1..];
      var s := Splice(Child(f, h), Get(b, h), d.fields[h], path + [h], protected, order).value;
      var g := Rebuild(f, h, s.focus);
      DistinctTail(keys);
      SpliceFits(Child(f, h), Get(b, h), d.fields[h], path + [h], protected, order);
      RebuildOdd(f, h, s.focus, k);
      hide Splice, ShownLast;
      KeysOdd(g, touched || s.touched, b, d, rest, path, protected, order, k);
      KeysLeaveOthers(g, touched || s.touched, b, d, rest, path, protected, order, h);
    }
  }

  /** After an object is spliced into a mapping its other keys are as they were; one of them
      shows where no string key is left, or where it stood behind one that was there. */
  lemma OddAfter(f: Focus, b: Json, d: Json, path: Path, protected: set<string>, order: KeyOrder, k: string)
    requires Lists(order) && IsMapping(f) && b.Obj? && d.Obj?
    requires Join(path) !in protected && !JsonEqual(b, d)
    requires Splice(f, b, d, path, protected, order).Done?
    ensures var g := Splice(f, b, d, path, protected, order).value.focus;
      && IsMapping(g) && g.node.others == f.node.others && g.node.style == f.node.style
      && (IsOdd(g, k) <==>
          if k in d.fields then k in f.node.others
            && (!Child(g, k).At? || (k in f.node.fields && ShownLast(f.node.keys, k)))
          else if k in b.fields && k !in PROTOTYPE_NAMES then k in f.node.others
          else IsOdd(f, k))
  {
    var gone := order(path, b.fields.Keys);
    var s := SpliceDrops(f, false, d.fields, gone).value;
    DropsOdd(f, false, d.fields, gone, k);
    hide ShownLast;
    KeysOdd(s.focus, s.touched, b.fields, d, order(path, d.fields.Keys), path, protected, order, k);
  }

  // ----- a place built up from nothing -----

  /** With nothing protected, splicing a missing place below the top puts a node there. */
  predicate Grows(b: Json, d: Json)
    decreases d
  {
    && !JsonEqual(b, d)
    && if b.Obj? && d.Obj? then exists k :: k in d.fields && Grows(Get(b.fields, k), d.fields[k])
       else !d.Undefined?
  }

  lemma {:induction false} GrowsIsFills(b: Json, d: Json, path: Path)
    requires path != []
    ensures Fills(b, d, path, {}) == Grows(b, d)
    decreases d
  {
    if b.Obj? && d.Obj? {
      forall k | k in d.fields
        ensures Fills(Get(b.fields, k), d.fields[k], path + [k], {}) == Grows(Get(b.fields, k), d.fields[k])
      {
        GrowsIsFills(Get(b.fields, k), d.fields[k], path + [k]);
      }
    }
  }

  /** Building up from the baseline's differences alone gives the whole draft: what agrees
      with the baseline, and so is not written, is nothing. */
  predicate Rebuilds(b: Json, d: Json)
    decreases d
  {
    b.Obj? && d.Obj? ==>
      forall k :: k in d.fields ==>
        if Grows(Get(b.fields, k), d.fields[k]) then Rebuilds(Get(b.fields, k), d.fields[k]) else d.fields[k].Undefined?
  }

  lemma {:induction false} BuiltHasNames(f: Focus, touched: bool, b: map<string, Json>, d: Json, keys: seq<string>,
                                         path: Path, order: KeyOrder)
    requires Lists(order) && d.Obj? && forall k :: k in keys ==> k in d.fields
    requires f.Missing? || (IsMapping(f) && f.node.others == map[])
    requires SpliceKeys(f, touched, b, d, keys, path, {}, order).Done?
    ensures var g := SpliceKeys(f, touched, b, d, keys, path, {}, order).value.focus;
      g == f || (IsMapping(g) && g.node.others == map[])
    decreases keys
  {
    if keys != [] {
      var h := keys[0];
      var s := Splice(Child(f, h), Get(b, h), d.fields[h], path + [h], {}, order).value;
      SpliceFits(Child(f, h), Get(b, h), d.fields[h], path + [h], {}, order);
      RebuildSame(f, h);
      RebuildKind(f, h, s.focus);
      if IsMapping(f) { RebuildOdd(f, h, s.focus, h); }
      hide Splice;
      BuiltHasNames(Rebuild(f, h, s.focus), touched || s.touched, b, d, keys[1..], path, order);
    }
  }

  lemma BuiltObject(p: bool, b: Json, d: Json, path: Path, order: KeyOrder)
    requires Lists(order) && b.Obj? && d.Obj? && !JsonEqual(b, d)
    requires Splice(Missing(p), b, d, path, {}, order).Done?
    ensures var g := Splice(Missing(p), b, d, path, {}, order).value.focus;
      && (g == Missing(p) || (IsMapping(g) && g.node.others == map[]))
      && (forall k: string :: k !in d.fields ==> !Child(g, k).At?)
  {
    var gone, keys := order(path, b.fields.Keys), order(path, d.fields.Keys);
    DropsEach(Missing(p), false, d.fields, gone, "");
    var s := SpliceDrops(Missing(p), false, d.fields, gone).value;
    BuiltHasNames(s.focus, s.touched, b.fields, d, keys, path, order);
    forall k: string | k !in d.fields
      ensures !Child(SpliceKeys(s.focus, s.touched, b.fields, d, keys, path, {}, order).value.focus, k).At?
    {
      KeysLeaveOthers(s.focus, s.touched, b.fields, d, keys, path, {}, order, k);
    }
  }

  /** What a missing place is built up to says the draft exactly when the differences alone
      make up the draft. */
  lemma {:induction false} BuiltSaysDraft(p: bool, b: Json, d: Json, path: Path, order: KeyOrder)
    requires Lists(order) && Plain(d) && Splice(Missing(p), b, d, path, {}, order).Done?
    requires Fills(b, d, path, {}) && (path == [] ==> !d.Undefined?)
    ensures var x := Splice(Missing(p), b, d, path, {}, order).value.focus;
      x.At? && (Projects(x, Clean(d)) <==> Rebuilds(b, d))
    decreases d
  {
    FillsMeans(p, b, d, path, {}, order);
    if b.Obj? && d.Obj? {
      var g := Splice(Missing(p), b, d, path, {}, order).value.focus;
      BuiltObject(p, b, d, path, order);
      hide Splice, Fills, Rebuilds;
      forall k: string
        ensures Projects(ShownAt(g, k), Clean(Own(d.fields, k)))
           <==> (k in d.fields ==>
             if Grows(Get(b.fields, k), d.fields[k]) then Rebuilds(Get(b.fields, k), d.fields[k])
             else d.fields[k].Undefined?)
      {
        if k in d.fields { BuiltKeySays(p, b, d, path, order, k, g); }
      }
      ProjectsPointwise(g, d.fields);
      RebuildsEach(b, d);
    } else if !d.Undefined? {
      CreatedProjects(d, path, order);
    }
  }

  lemma RebuildsEach(b: Json, d: Json)
    requires b.Obj? && d.Obj?
    ensures Rebuilds(b, d) <==> forall k: string :: k in d.fields ==>
      if Grows(Get(b.fields, k), d.fields[k]) then Rebuilds(Get(b.fields, k), d.fields[k]) else d.fields[k].Undefined?
  {
  }

  lemma {:induction false} BuiltKeySays(p: bool, b: Json, d: Json, path: Path, order: KeyOrder, k: string, g: Focus)
    requires Lists(order) && Plain(d) && Splice(Missing(p), b, d, path, {}, order).Done?
    requires b.Obj? && d.Obj? && !JsonEqual(b, d) && k in d.fields
    requires g == Splice(Missing(p), b, d, path, {}, order).value.focus && IsMapping(g) && g.node.others == map[]
    ensures Projects(ShownAt(g, k), Clean(d.fields[k])) <==>
      if Grows(Get(b.fields, k), d.fields[k]) then Rebuilds(Get(b.fields, k), d.fields[k]) else d.fields[k].Undefined?
    decreases d, 0
  {
    hide Splice, Fills, Rebuilds, Grows, Clean;
    var c := SplicedChild(Missing(p), b, d, path, {}, order, k);
    GrowsIsFills(Get(b.fields, k), d.fields[k], path + [k]);
    FillsMeans(c.parent, Get(b.fields, k), d.fields[k], path + [k], {}, order);
    CleanUndefined(d.fields[k]);
    if Grows(Get(b.fields, k), d.fields[k]) {
      BuiltSaysDraft(c.parent, Get(b.fields, k), d.fields[k], path + [k], order);
    }
  }

  lemma CleanUndefined(v: Json)
    ensures Clean(v).Undefined? == v.Undefined?
  {
  }

  // ----- the document says the draft -----

  /** A name shown by a key that is no string keeps showing it, unless no string key hides
      behind it and the write appends one. */
  predicate OddKept(hidden: bool, b: Json, d: Json) {
    if !hidden && Grows(b, d) then Rebuilds(b, d) else b == Clean(d)
  }

  /** The write leaves what the draft says: at every key of a mapping; an alias or a leaf
      takes no key, so there must be nothing to write. */
  ghost predicate Keepable(f: Focus, b: Json, d: Json)
    decreases d, 1
  {
    || b == d || !(b.Obj? && d.Obj?)
    || if IsMapping(f) then forall k: string :: KeepableAt(f, b, d, k) else b == Clean(d)
  }

  /** The same at one key. The draft must not drop a key every object inherits or another
      kind of key spells, nor clear one that would uncover another. */
  ghost predicate KeepableAt(f: Focus, b: Json, d: Json, k: string)
    requires IsMapping(f) && b.Obj? && d.Obj?
    decreases d, 0
  {
    if k !in d.fields then k in b.fields ==> k !in PROTOTYPE_NAMES && k !in f.node.others
    else if IsOdd(f, k) then OddKept(k in f.node.fields, Get(b.fields, k), d.fields[k])
    else
      && (d.fields[k].Undefined? ==> k !in f.node.others)
      && Keepable(Child(f, k), Get(b.fields, k), d.fields[k])
  }

  /** The place holds the baseline, or is empty where the baseline has no own value. */
  predicate Starts(f: Focus, b: Json) {
    (f.At? && ToJson(f.node) == b) || (f == Missing(true) && (b.Undefined? || b.Callable?))
  }

  /** From a document that says the baseline, with nothing protected: unless the write throws
      the document says the draft afterwards if and only if it is keepable. */
  lemma {:induction false} SpliceSaysDraft(f: Focus, b: Json, d: Json, path: Path, order: KeyOrder)
    requires Lists(order) && Plain(d) && (Plain(b) || b.Callable?)
    requires Starts(f, b) && (path == [] ==> f.At? && !d.Undefined?)
    requires Splice(f, b, d, path, {}, order).Done?
    ensures Projects(Splice(f, b, d, path, {}, order).value.focus, Clean(d)) <==> Keepable(f, b, d)
    decreases d
  {
    JsonEqualIsIdentity(b, d);
    if f.At? { NodesAreClean(f.node); }
    if b == d {
    } else if b.Obj? && d.Obj? {
      if IsMapping(f) {
        ObjectSaysDraft(f, b, d, path, order);
      } else {
        LeafIsKept(f, b, d, path, {}, order);
      }
    } else {
      if f.At? { JsonEqualIsIdentity(ToJson(f.node), d); }
      if !d.Undefined? { CreatedProjects(d, path, order); }
    }
  }

  /** No key reaches into a node that is no mapping. */
  lemma LeafIsKept(f: Focus, b: Json, d: Json, path: Path, protected: set<string>, order: KeyOrder)
    requires Lists(order) && f.At? && !f.node.Mapping? && b.Obj? && d.Obj?
    requires Splice(f, b, d, path, protected, order).Done?
    ensures Splice(f, b, d, path, protected, order).value.focus == f
  {
    if Join(path) !in protected && !JsonEqual(b, d) {
      var gone := order(path, b.fields.Keys);
      DropsEach(f, false, d.fields, gone, "");
      var s := SpliceDrops(f, false, d.fields, gone).value;
      KeysOnLeaf(f, s.touched, b.fields, d, order(path, d.fields.Keys), path, protected, order);
    }
  }

  lemma {:induction false} KeysOnLeaf(f: Focus, touched: bool, b: map<string, Json>, d: Json, keys: seq<string>,
                                      path: Path, protected: set<string>, order: KeyOrder)
    requires Lists(order) && f.At? && !f.node.Mapping? && d.Obj? && forall k :: k in keys ==> k in d.fields
    requires SpliceKeys(f, touched, b, d, keys, path, protected, order).Done?
    ensures SpliceKeys(f, touched, b, d, keys, path, protected, order).value.focus == f
    decreases keys
  {
    if keys != [] {
      var s := Splice(Child(f, keys[0]), Get(b, keys[0]), d.fields[keys[0]], path + [keys[0]], protected, order).value;
      KeysOnLeaf(f, touched || s.touched, b, d, keys[1..], path, protected, order);
    }
  }

  lemma {:induction false} ObjectSaysDraft(f: Focus, b: Json, d: Json, path: Path, order: KeyOrder)
    requires Lists(order) && Plain(d) && Plain(b) && b.Obj? && d.Obj? && b != d
    requires IsMapping(f) && ToJson(f.node) == b && Splice(f, b, d, path, {}, order).Done?
    ensures Projects(Splice(f, b, d, path, {}, order).value.focus, Clean(d)) <==> Keepable(f, b, d)
    decreases d, 2
  {
    JsonEqualIsIdentity(b, d);
    var g := Splice(f, b, d, path, {}, order).value.focus;
    ChildAfter(f, b, d, path, {}, order, "");
    hide Splice, KeepableAt, Clean, Projects;
    forall k: string
      ensures Projects(ShownAt(g, k), Clean(Own(d.fields, k))) <==> KeepableAt(f, b, d, k)
    {
      OneKeySays(f, b, d, path, order, k, g);
    }
    ProjectsPointwise(g, d.fields);
    assert Obj(d.fields) == d;
  }

  lemma {:induction false} OneKeySays(f: Focus, b: Json, d: Json, path: Path, order: KeyOrder, k: string, g: Focus)
    requires Lists(order) && Plain(d) && Plain(b) && b.Obj? && d.Obj? && b != d && !JsonEqual(b, d)
    requires IsMapping(f) && ToJson(f.node) == b && Splice(f, b, d, path, {}, order).Done?
    requires g == Splice(f, b, d, path, {}, order).value.focus && IsMapping(g)
    ensures Projects(ShownAt(g, k), Clean(Own(d.fields, k))) <==> KeepableAt(f, b, d, k)
    decreases d, 1
  {
    ChildAfter(f, b, d, path, {}, order, k);
    OddAfter(f, b, d, path, {}, order, k);
    hide Splice, Keepable, Clean, ShownLast;
    if k in d.fields {
      CleanUndefined(d.fields[k]);
      if IsOdd(f, k) {
        OddKeySays(f, b, d, path, order, k, g);
      } else {
        SpliceSaysDraft(Child(f, k), Get(b.fields, k), d.fields[k], path + [k], order);
        SpliceFits(Child(f, k), Get(b.fields, k), d.fields[k], path + [k], {}, order);
        if k in f.node.others {
          NodesAreClean(f.node.others[k]);
          NodesAreClean(f.node.fields[k]);
          StaysThere(Child(f, k), Get(b.fields, k), d.fields[k], path + [k], {}, order);
        }
      }
    } else if ShownAt(g, k).At? {
      NodesAreClean(ShownAt(g, k).node);
      assert Clean(Undefined) == Undefined by { CleanUndefined(Undefined); }
    } else {
      assert Clean(Undefined) == Undefined by { CleanUndefined(Undefined); }
    }
  }

  /** A node goes exactly when its value is cleared. */
  lemma StaysThere(f: Focus, b: Json, d: Json, path: Path, protected: set<string>, order: KeyOrder)
    requires Lists(order) && f.At? && path != [] && Join(path) !in protected && !b.Undefined?
    requires Splice(f, b, d, path, protected, order).Done?
    ensures Splice(f, b, d, path, protected, order).value.focus.At? <==> !d.Undefined?
  {
    if !JsonEqual(b, d) && b.Obj? && d.Obj? {
      var gone := order(path, b.fields.Keys);
      DropsEach(f, false, d.fields, gone, "");
      var s := SpliceDrops(f, false, d.fields, gone).value;
      FillsKeys(s.focus, s.touched, b.fields, d, order(path, d.fields.Keys), path, protected, order);
    }
  }

  lemma OddKeySays(f: Focus, b: Json, d: Json, path: Path, order: KeyOrder, k: string, g: Focus)
    requires Lists(order) && Plain(d) && b.Obj? && d.Obj? && !JsonEqual(b, d)
    requires IsMapping(f) && ToJson(f.node) == b && IsOdd(f, k) && k in d.fields
    requires Splice(f, b, d, path, {}, order).Done?
    requires g == Splice(f, b, d, path, {}, order).value.focus && IsMapping(g)
    ensures Projects(ShownAt(g, k), Clean(d.fields[k])) <==> OddKept(k in f.node.fields, Get(b.fields, k), d.fields[k])
  {
    ChildAfter(f, b, d, path, {}, order, k);
    OddAfter(f, b, d, path, {}, order, k);
    hide Splice, Clean, ShownLast, Fills, Rebuilds, Grows;
    GrowsIsFills(Get(b.fields, k), d.fields[k], path + [k]);
    if k !in f.node.fields {
      FillsMeans(true, Get(b.fields, k), d.fields[k], path + [k], {}, order);
      if Grows(Get(b.fields, k), d.fields[k]) {
        BuiltSaysDraft(true, Get(b.fields, k), d.fields[k], path + [k], order);
      }
    }
  }
}
