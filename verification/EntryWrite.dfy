/** When a splice throws, when it reports a change, and when it changes anything: exact
    answers for any document, baseline, draft and protected paths. */
module EntryWrite {
  import opened Json
  import opened EntryDocument
  import opened EntrySplice

  predicate IsMapping(f: Focus) {
    f.At? && f.node.Mapping?
  }

  // ----- the places a splice goes on to -----

  /** Rebuilding one child leaves the others where they were; the first child of a missing
      mapping brings it into being around them. */
  lemma ChildOfRebuild(f: Focus, h: string, x: Focus, k: string)
    requires k != h && Fits(Child(f, h), x)
    ensures Child(Rebuild(f, h, x), k) == if f.Missing? && x.At? then Missing(true) else Child(f, k)
  {
  }

  lemma RebuildKind(f: Focus, h: string, x: Focus)
    requires Fits(Child(f, h), x)
    ensures f.At? ==> Rebuild(f, h, x).At? && (IsMapping(f) <==> IsMapping(Rebuild(f, h, x)))
    ensures f.Missing? ==> if x.At? then IsMapping(Rebuild(f, h, x)) else Rebuild(f, h, x) == f
    ensures f.Blocked? ==> Rebuild(f, h, x) == f
  {
  }

  /** A key the library deletes without throwing, whether or not it is there. */
  predicate Deletable(c: Focus) {
    c.At? || c == Missing(true) || c == Blocked(true)
  }

  lemma {:induction false} DropsDone(f: Focus, touched: bool, draft: map<string, Json>, keys: seq<string>)
    ensures SpliceDrops(f, touched, draft, keys).Done?
       <==> forall k :: k in keys && !HasKey(draft, k) ==> Deletable(Child(f, k))
    decreases keys
  {
    if keys != [] {
      var h := keys[0];
      assert keys == [h] + keys[1..];
      if HasKey(draft, h) {
        DropsDone(f, touched, draft, keys[1..]);
      } else if Delete(f, h).Done? {
        var g := Delete(f, h).value;
        DropsDone(g, true, draft, keys[1..]);
        forall k ensures Deletable(Child(g, k)) <==> Deletable(Child(f, k)) {
          if k != h && Child(f, h).At? { ChildOfRebuild(f, h, Missing(true), k); }
        }
      }
    }
  }

  /** The first loop deletes what the draft lacks and nothing else. */
  lemma {:induction false} DropsEach(f: Focus, touched: bool, draft: map<string, Json>, keys: seq<string>, k: string)
    requires SpliceDrops(f, touched, draft, keys).Done?
    ensures var s := SpliceDrops(f, touched, draft, keys).value;
      && (f.At? ==> s.focus.At? && (IsMapping(f) <==> IsMapping(s.focus)))
      && (!IsMapping(f) ==> s.focus == f)
      && Child(s.focus, k) == (if k in keys && !HasKey(draft, k) && Child(f, k).At? then Missing(true) else Child(f, k))
    decreases keys
  {
    if keys != [] {
      var h := keys[0];
      if HasKey(draft, h) {
        DropsEach(f, touched, draft, keys[1..], k);
      } else {
        var g := Delete(f, h).value;
        DropsEach(g, true, draft, keys[1..], k);
        if k != h && Child(f, h).At? { ChildOfRebuild(f, h, Missing(true), k); }
      }
    }
  }

  lemma {:induction false} DropsTouch(f: Focus, touched: bool, draft: map<string, Json>, keys: seq<string>)
    requires SpliceDrops(f, touched, draft, keys).Done?
    ensures SpliceDrops(f, touched, draft, keys).value.touched
      <==> touched || exists k :: k in keys && !HasKey(draft, k)
    decreases keys
  {
    if keys != [] {
      assert keys == [keys[0]] + keys[1..];
      if HasKey(draft, keys[0]) { DropsTouch(f, touched, draft, keys[1..]); }
      else { DropsTouch(Delete(f, keys[0]).value, true, draft, keys[1..]); }
    }
  }

  lemma {:induction false} DropsIdle(f: Focus, touched: bool, draft: map<string, Json>, keys: seq<string>)
    requires forall k :: k in keys && !HasKey(draft, k) ==> !Child(f, k).At?
    requires SpliceDrops(f, touched, draft, keys).Done?
    ensures SpliceDrops(f, touched, draft, keys).value.focus == f
    decreases keys
  {
    if keys != [] {
      assert keys == [keys[0]] + keys[1..];
      if HasKey(draft, keys[0]) { DropsIdle(f, touched, draft, keys[1..]); }
      else { DropsIdle(f, true, draft, keys[1..]); }
    }
  }

  // ----- what a missing place becomes -----

  /** Splicing a place that is missing puts a node there. */
  predicate Fills(b: Json, d: Json, path: Path, protected: set<string>)
    decreases d
  {
    && Join(path) !in protected && !JsonEqual(b, d)
    && if b.Obj? && d.Obj? then
         exists k :: k in d.fields && Fills(Get(b.fields, k), d.fields[k], path + [k], protected)
       else path == [] || !d.Undefined?
  }

  lemma {:induction false} FillsMeans(p: bool, b: Json, d: Json, path: Path, protected: set<string>, order: KeyOrder)
    requires Lists(order) && Splice(Missing(p), b, d, path, protected, order).Done?
    ensures var x := Splice(Missing(p), b, d, path, protected, order).value.focus;
      if Fills(b, d, path, protected) then x.At? else x == Missing(p)
    decreases d, 1, 0
  {
    if Join(path) !in protected && !JsonEqual(b, d) && b.Obj? && d.Obj? {
      var keys := order(path, b.fields.Keys);
      DropsEach(Missing(p), false, d.fields, keys, "");
      var s := SpliceDrops(Missing(p), false, d.fields, keys).value;
      FillsKeys(s.focus, s.touched, b.fields, d, order(path, d.fields.Keys), path, protected, order);
    }
  }

  lemma {:induction false} FillsKeys(f: Focus, touched: bool, b: map<string, Json>, d: Json, keys: seq<string>,
                                     path: Path, protected: set<string>, order: KeyOrder)
    requires Lists(order) && d.Obj? && (f.Missing? || f.At?) && forall k :: k in keys ==> k in d.fields
    requires SpliceKeys(f, touched, b, d, keys, path, protected, order).Done?
    ensures var x := SpliceKeys(f, touched, b, d, keys, path, protected, order).value.focus;
      if f.At? || exists k :: k in keys && Fills(Get(b, k), d.fields[k], path + [k], protected) then x.At? else x == f
    decreases d, 0, |keys|
  {
    if keys != [] {
      var h := keys[0];
      assert keys == [h] + keys[1..];
      var c := Child(f, h);
      var s := Splice(c, Get(b, h), d.fields[h], path + [h], protected, order).value;
      if c.Missing? { FillsMeans(c.parent, Get(b, h), d.fields[h], path + [h], protected, order); }
      hide Fills, Splice;
      FillsKeys(Rebuild(f, h, s.focus), touched || s.touched, b, d, keys[1..], path, protected, order);
    }
  }

  // ----- when a write throws -----

  /** A whole value can be put where `f` stands: setting throws where no key reaches, and
      clearing throws there and below missing contents. */
  predicate Writable(f: Focus, d: Json, path: Path) {
    path == [] || if d.Undefined? then Deletable(f) else !f.Blocked?
  }

  /** The node reached from the contents by mappings alone. */
  function NodeAt(contents: Option<Node>, path: Path): Option<Node>
    decreases path
  {
    if path == [] then contents
    else if contents.Some? && contents.value.Mapping? && path[0] in contents.value.fields then
      NodeAt(Some(contents.value.fields[path[0]]), path[1..])
    else None
  }

  /** Something that is no mapping stands on the way, or at its end. */
  ghost predicate Barred(contents: Option<Node>, path: Path) {
    exists i :: 0 <= i <= |path| && NodeAt(contents, path[..i]).Some? && !NodeAt(contents, path[..i]).value.Mapping?
  }

  /** What the document does with a key, spelled out: it holds a node there if mappings lead to
      one, it deletes the key without throwing exactly where mappings lead to a mapping or a
      sequence around it, and it takes a value for it exactly when nothing but mappings stands
      on the way. */
  lemma {:induction false} PlaceMeans(contents: Option<Node>, path: Path, key: string)
    ensures var f := FocusAt(Root(contents), path + [key]);
      && (f.At? <==> NodeAt(contents, path + [key]).Some?)
      && (f.At? ==> NodeAt(contents, path + [key]) == Some(f.node))
      && (Deletable(f) <==> NodeAt(contents, path).Some?
                            && (NodeAt(contents, path).value.Mapping? || NodeAt(contents, path).value.Sequence?))
      && (f.Blocked? <==> Barred(contents, path))
    decreases path
  {
    var whole := path + [key];
    if path == [] {
      assert whole[1..] == [];
      assert path[..0] == path;
    } else {
      var c := Child(Root(contents), path[0]);
      assert whole[0] == path[0] && whole[1..] == path[1..] + [key];
      assert path[..0] == [];
      if c.At? {
        PlaceMeans(Some(c.node), path[1..], key);
        BarredBelow(contents, path);
      } else {
        NothingBelow(c, path[1..] + [key]);
        NothingOnTheWay(contents, path);
      }
    }
  }

  lemma BarredBelow(contents: Option<Node>, path: Path)
    requires path != [] && contents.Some? && contents.value.Mapping? && path[0] in contents.value.fields
    ensures Barred(contents, path) <==> Barred(Some(contents.value.fields[path[0]]), path[1..])
  {
    var below := Some(contents.value.fields[path[0]]);
    forall i | 0 < i <= |path| ensures NodeAt(contents, path[..i]) == NodeAt(below, path[1..][..i - 1]) {
      assert path[..i][1..] == path[1..][..i - 1];
    }
    if Barred(below, path[1..]) {
      var j :| 0 <= j <= |path| - 1 && NodeAt(below, path[1..][..j]).Some?
               && !NodeAt(below, path[1..][..j]).value.Mapping?;
      assert NodeAt(contents, path[..j + 1]) == NodeAt(below, path[1..][..j + 1 - 1]);
    }
  }

  lemma NothingOnTheWay(contents: Option<Node>, path: Path)
    requires path != [] && !Child(Root(contents), path[0]).At?
    ensures Barred(contents, path) <==> contents.Some? && !contents.value.Mapping?
    ensures NodeAt(contents, path) == None
  {
    assert path[..0] == [];
    forall i | 0 < i <= |path| ensures NodeAt(contents, path[..i]) == None {
      assert path[..i][0] == path[0];
    }
    assert path[..|path|] == path;
  }

  lemma {:induction false} NothingBelow(f: Focus, path: Path)
    requires !f.At?
    ensures path != [] ==> FocusAt(f, path) == if f.Missing? then Missing(false) else Blocked(false)
    decreases path
  {
    if path != [] { NothingBelow(Child(f, path[0]), path[1..]); }
  }

  /** The write goes through. Under a mapping the keys do not depend on each other; below
      missing contents the first one that fills makes the rest easier. */
  predicate Takes(f: Focus, b: Json, d: Json, path: Path, protected: set<string>, order: KeyOrder)
    requires Lists(order)
    decreases d, 1, 0
  {
    || Join(path) in protected || JsonEqual(b, d)
    || if b.Obj? && d.Obj? then
         && (forall k :: k in b.fields && !HasKey(d.fields, k) ==> Deletable(Child(f, k)))
         && if f.Missing? then BuildTakes(false, b.fields, d, order(path, d.fields.Keys), path, protected, order)
            else forall k :: k in d.fields ==>
              Takes(Child(f, k), Get(b.fields, k), d.fields[k], path + [k], protected, order)
       else Writable(f, d, path)
  }

  predicate BuildTakes(there: bool, b: map<string, Json>, d: Json, keys: seq<string>, path: Path,
                       protected: set<string>,
                       order: KeyOrder)
    requires Lists(order) && d.Obj? && forall k :: k in keys ==> k in d.fields
    decreases d, 0, |keys|
  {
    keys == [] ||
    (&& Takes(Missing(there), Get(b, keys[0]), d.fields[keys[0]], path + [keys[0]], protected, order)
     && BuildTakes(there || Fills(Get(b, keys[0]), d.fields[keys[0]], path + [keys[0]], protected),
                   b, d, keys[1..], path, protected, order))
  }

  lemma {:induction false} BuildTakesThere(b: map<string, Json>, d: Json, keys: seq<string>, path: Path,
                                           protected: set<string>,
                                           order: KeyOrder)
    requires Lists(order) && d.Obj? && forall k :: k in keys ==> k in d.fields
    ensures BuildTakes(true, b, d, keys, path, protected, order)
       <==> forall k :: k in keys ==> Takes(Missing(true), Get(b, k), d.fields[k], path + [k], protected, order)
    decreases keys
  {
    hide Takes;
    if keys != [] {
      assert keys == [keys[0]] + keys[1..];
      BuildTakesThere(b, d, keys[1..], path, protected, order);
    }
  }

  ghost predicate Distinct(keys: seq<string>) {
    forall i, j :: 0 <= i < j < |keys| ==> keys[i] != keys[j]
  }

  lemma DistinctTail(keys: seq<string>)
    requires keys != [] && Distinct(keys)
    ensures keys[0] !in keys[1..] && Distinct(keys[1..]) && keys == [keys[0]] + keys[1..]
  {
  }

  lemma {:induction false} KeysTake(f: Focus, touched: bool, b: map<string, Json>, d: Json, keys: seq<string>,
                                    path: Path, protected: set<string>, order: KeyOrder)
    requires Lists(order) && d.Obj? && Distinct(keys) && forall k :: k in keys ==> k in d.fields
    ensures SpliceKeys(f, touched, b, d, keys, path, protected, order).Done?
       <==> if f.Missing? then BuildTakes(false, b, d, keys, path, protected, order)
            else forall k :: k in keys ==> Takes(Child(f, k), Get(b, k), d.fields[k], path + [k], protected, order)
    decreases d, 0, |keys|
  {
    if keys != [] {
      var h, rest := keys[0], keys[1..];
      var c := Child(f, h);
      var r := Splice(c, Get(b, h), d.fields[h], path + [h], protected, order);
      DistinctTail(keys);
      WriteThrows(c, Get(b, h), d.fields[h], path + [h], protected, order);
      if r.Done? {
        var x := r.value.focus;
        var g := Rebuild(f, h, x);
        SpliceFits(c, Get(b, h), d.fields[h], path + [h], protected, order);
        if f.Missing? { FillsMeans(false, Get(b, h), d.fields[h], path + [h], protected, order); }
        hide Splice, Takes, Fills;
        KeysTake(g, touched || r.value.touched, b, d, rest, path, protected, order);
        forall k | k in rest ensures Child(g, k) == if f.Missing? && x.At? then Missing(true) else Child(f, k) {
          ChildOfRebuild(f, h, x, k);
        }
        RebuildKind(f, h, x);
        BuildTakesThere(b, d, rest, path, protected, order);
      }
    }
  }

  /** For any document, baseline, draft and protected paths: the write throws exactly when
      the document cannot take it. */
  lemma {:induction false} WriteThrows(f: Focus, b: Json, d: Json, path: Path, protected: set<string>, order: KeyOrder)
    requires Lists(order)
    ensures Splice(f, b, d, path, protected, order).Done? <==> Takes(f, b, d, path, protected, order)
    decreases d, 1, 0
  {
    hide JsonEqual, Get, Join, SpliceDrops, SpliceKeys;
    if Join(path) !in protected && !JsonEqual(b, d) && b.Obj? && d.Obj? {
      var gone, keys := order(path, b.fields.Keys), order(path, d.fields.Keys);
      DropsDone(f, false, d.fields, gone);
      var drops := SpliceDrops(f, false, d.fields, gone);
      if drops.Done? {
        var g := drops.value.focus;
        KeysTake(g, drops.value.touched, b.fields, d, keys, path, protected, order);
        DropsEach(f, false, d.fields, gone, "");
        forall k | k in d.fields ensures Child(g, k) == Child(f, k) { DropsEach(f, false, d.fields, gone, k); }
      }
    }
  }

  // ----- when a write reports a change -----

  /** A whole write reports: it sets, or it deletes something. */
  predicate Sets(f: Focus, d: Json, path: Path) {
    path == [] || if d.Undefined? then f.At? else !(f.At? && JsonEqual(ToJson(f.node), d))
  }

  /** The write reports a change: a key of the baseline is dropped, whether or not the
      document has it, or some whole value is set. */
  predicate Reports(f: Focus, b: Json, d: Json, path: Path, protected: set<string>)
    decreases d
  {
    && Join(path) !in protected && !JsonEqual(b, d)
    && if b.Obj? && d.Obj? then
         || (exists k :: k in b.fields && !HasKey(d.fields, k))
         || (exists k :: k in d.fields && Reports(Child(f, k), Get(b.fields, k), d.fields[k], path + [k], protected))
       else Sets(f, d, path)
  }

  /** Whether missing contents are there already makes no difference to a report. */
  lemma {:induction false} ReportsMissing(b: Json, d: Json, path: Path, protected: set<string>)
    requires path != []
    ensures Reports(Missing(true), b, d, path, protected) == Reports(Missing(false), b, d, path, protected)
  {
  }

  lemma {:induction false} KeysReport(f: Focus, touched: bool, b: map<string, Json>, d: Json, keys: seq<string>,
                                      path: Path, protected: set<string>, order: KeyOrder)
    requires Lists(order) && d.Obj? && Distinct(keys) && forall k :: k in keys ==> k in d.fields
    requires SpliceKeys(f, touched, b, d, keys, path, protected, order).Done?
    ensures SpliceKeys(f, touched, b, d, keys, path, protected, order).value.touched
       <==> touched || exists k :: k in keys && Reports(Child(f, k), Get(b, k), d.fields[k], path + [k], protected)
    decreases d, 0, |keys|
  {
    if keys != [] {
      var h, rest := keys[0], keys[1..];
      var c := Child(f, h);
      var s := Splice(c, Get(b, h), d.fields[h], path + [h], protected, order).value;
      DistinctTail(keys);
      WriteReports(c, Get(b, h), d.fields[h], path + [h], protected, order);
      SpliceFits(c, Get(b, h), d.fields[h], path + [h], protected, order);
      hide Splice, Reports;
      var g := Rebuild(f, h, s.focus);
      KeysReport(g, touched || s.touched, b, d, rest, path, protected, order);
      forall k | k in rest
        ensures Reports(Child(g, k), Get(b, k), d.fields[k], path + [k], protected)
             == Reports(Child(f, k), Get(b, k), d.fields[k], path + [k], protected)
      {
        ChildOfRebuild(f, h, s.focus, k);
        ReportsMissing(Get(b, k), d.fields[k], path + [k], protected);
      }
    }
  }

  /** For any document, baseline, draft and protected paths: what the write answers. */
  lemma {:induction false} WriteReports(f: Focus, b: Json, d: Json, path: Path, protected: set<string>, order: KeyOrder)
    requires Lists(order) && Splice(f, b, d, path, protected, order).Done?
    ensures Splice(f, b, d, path, protected, order).value.touched <==> Reports(f, b, d, path, protected)
    decreases d, 1, 0
  {
    hide JsonEqual, Get, Join, SpliceDrops, SpliceKeys;
    if Join(path) !in protected && !JsonEqual(b, d) && b.Obj? && d.Obj? {
      var gone, keys := order(path, b.fields.Keys), order(path, d.fields.Keys);
      var s := SpliceDrops(f, false, d.fields, gone).value;
      DropsTouch(f, false, d.fields, gone);
      KeysReport(s.focus, s.touched, b.fields, d, keys, path, protected, order);
      forall k | k in d.fields ensures Child(s.focus, k) == Child(f, k) { DropsEach(f, false, d.fields, gone, k); }
    }
  }

  // ----- when a write changes anything -----

  /** A whole write leaves the very node: nothing to clear, the value held already, or a node
      rebuilt exactly as it stood. */
  predicate Rewrites(f: Focus, d: Json, path: Path, order: KeyOrder) {
    if path == [] then f == At(CreateNode(d, path, order))
    else if d.Undefined? then !f.At?
    else f.At? && (JsonEqual(ToJson(f.node), d) || WithFlow(CreateNode(d, path, order), f.node) == f.node)
  }

  /** Nothing the write does changes the document: every key it drops is missing, and every
      whole value it writes leaves the very node. */
  predicate Idle(f: Focus, b: Json, d: Json, path: Path, protected: set<string>, order: KeyOrder)
    decreases d
  {
    || Join(path) in protected || JsonEqual(b, d)
    || if b.Obj? && d.Obj? then
         && (forall k :: k in b.fields && !HasKey(d.fields, k) ==> !Child(f, k).At?)
         && (forall k :: k in d.fields ==>
           Idle(Child(f, k), Get(b.fields, k), d.fields[k], path + [k], protected, order))
       else Rewrites(f, d, path, order)
  }

  /** What the second loop has rebuilt stays rebuilt. */
  lemma {:induction false} KeysLeaveOthers(f: Focus, touched: bool, b: map<string, Json>, d: Json, keys: seq<string>,
                                           path: Path, protected: set<string>, order: KeyOrder, k: string)
    requires Lists(order) && d.Obj? && k !in keys && forall k :: k in keys ==> k in d.fields
    requires SpliceKeys(f, touched, b, d, keys, path, protected, order).Done?
    ensures var x := SpliceKeys(f, touched, b, d, keys, path, protected, order).value.focus;
      && (f.At? ==> x.At? && Child(x, k) == Child(f, k) && (IsMapping(f) <==> IsMapping(x)))
      && (f.Blocked? ==> x == f)
      && (f.Missing? ==> (x == f || IsMapping(x)) && !Child(x, k).At?)
    decreases keys
  {
    if keys != [] {
      var h := keys[0];
      var c := Child(f, h);
      var s := Splice(c, Get(b, h), d.fields[h], path + [h], protected, order).value;
      assert keys == [h] + keys[1..];
      SpliceFits(c, Get(b, h), d.fields[h], path + [h], protected, order);
      hide Splice;
      KeysLeaveOthers(Rebuild(f, h, s.focus), touched || s.touched, b, d, keys[1..], path, protected, order, k);
      RebuildKind(f, h, s.focus);
      ChildOfRebuild(f, h, s.focus, k);
    }
  }

  lemma {:induction false} KeysIdle(f: Focus, touched: bool, b: map<string, Json>, d: Json, keys: seq<string>,
                                    path: Path, protected: set<string>, order: KeyOrder)
    requires Lists(order) && d.Obj? && Distinct(keys) && forall k :: k in keys ==> k in d.fields
    requires SpliceKeys(f, touched, b, d, keys, path, protected, order).Done?
    ensures SpliceKeys(f, touched, b, d, keys, path, protected, order).value.focus == f
       <==> forall k :: k in keys ==> Idle(Child(f, k), Get(b, k), d.fields[k], path + [k], protected, order)
    decreases d, 0, |keys|
  {
    hide Splice, Idle;
    if keys != [] {
      var h, rest := keys[0], keys[1..];
      var c := Child(f, h);
      var s := Splice(c, Get(b, h), d.fields[h], path + [h], protected, order).value;
      DistinctTail(keys);
      WriteIsIdle(c, Get(b, h), d.fields[h], path + [h], protected, order);
      SpliceFits(c, Get(b, h), d.fields[h], path + [h], protected, order);
      var g := Rebuild(f, h, s.focus);
      RebuildSame(f, h);
      if s.focus == c {
        KeysIdle(f, touched || s.touched, b, d, rest, path, protected, order);
      } else {
        KeysLeaveOthers(g, touched || s.touched, b, d, rest, path, protected, order, h);
      }
    }
  }

  /** For any document, baseline, draft and protected paths: the write leaves every node as it
      is exactly when it is idle. */
  lemma {:induction false} WriteIsIdle(f: Focus, b: Json, d: Json, path: Path, protected: set<string>, order: KeyOrder)
    requires Lists(order) && Splice(f, b, d, path, protected, order).Done?
    ensures Splice(f, b, d, path, protected, order).value.focus == f <==> Idle(f, b, d, path, protected, order)
    decreases d, 2, 0
  {
    hide JsonEqual, Get, Join, SpliceDrops, SpliceKeys;
    if Join(path) !in protected && !JsonEqual(b, d) && b.Obj? && d.Obj? {
      ObjectIsIdle(f, b, d, path, protected, order);
    }
  }

  lemma {:induction false} ObjectIsIdle(f: Focus, b: Json, d: Json, path: Path, protected: set<string>, order: KeyOrder)
    requires Lists(order) && Splice(f, b, d, path, protected, order).Done?
    requires Join(path) !in protected && !JsonEqual(b, d) && b.Obj? && d.Obj?
    ensures Splice(f, b, d, path, protected, order).value.focus == f
       <==> (&& (forall k :: k in b.fields && !HasKey(d.fields, k) ==> !Child(f, k).At?)
             && (forall k :: k in d.fields ==>
               Idle(Child(f, k), Get(b.fields, k), d.fields[k], path + [k], protected, order)))
    decreases d, 1, 0
  {
    hide Idle, Delete;
    var gone, keys := order(path, b.fields.Keys), order(path, d.fields.Keys);
    var s := SpliceDrops(f, false, d.fields, gone).value;
    var x := SpliceKeys(s.focus, s.touched, b.fields, d, keys, path, protected, order).value.focus;
    KeysIdle(s.focus, s.touched, b.fields, d, keys, path, protected, order);
    forall k | k in d.fields ensures Child(s.focus, k) == Child(f, k) { DropsEach(f, false, d.fields, gone, k); }
    if forall k :: k in b.fields && !HasKey(d.fields, k) ==> !Child(f, k).At? {
      DropsIdle(f, false, d.fields, gone);
    } else {
      var k :| k in b.fields && !HasKey(d.fields, k) && Child(f, k).At?;
      DropsEach(f, false, d.fields, gone, k);
      KeysLeaveOthers(s.focus, s.touched, b.fields, d, keys, path, protected, order, k);
    }
  }

  /** A reported change that is none: exactly when the write reports and is idle, that is,
      every report comes from dropping a key its mapping lacks or from rebuilding an
      identical node. */
  lemma ReportedInVain(f: Focus, b: Json, d: Json, path: Path, protected: set<string>, order: KeyOrder)
    requires Lists(order) && Splice(f, b, d, path, protected, order).Done?
    ensures var s := Splice(f, b, d, path, protected, order).value;
      s.touched && s.focus == f <==> Reports(f, b, d, path, protected) && Idle(f, b, d, path, protected, order)
  {
    hide Splice;
    WriteReports(f, b, d, path, protected, order);
    WriteIsIdle(f, b, d, path, protected, order);
  }

  lemma {:induction false} KeysUnchanged(f: Focus, touched: bool, baseline: map<string, Json>, draft: Json,
                                         keys: seq<string>, path: Path, protected: set<string>, order: KeyOrder)
    requires Lists(order) && draft.Obj? && forall k :: k in keys ==> k in draft.fields
    requires SpliceKeys(f, touched, baseline, draft, keys, path, protected, order).Done?
    requires !SpliceKeys(f, touched, baseline, draft, keys, path, protected, order).value.touched
    ensures !touched && SpliceKeys(f, touched, baseline, draft, keys, path, protected, order).value.focus == f
    decreases draft, 0, |keys|
  {
    if keys != [] {
      var k := keys[0];
      var s := Splice(Child(f, k), Get(baseline, k), draft.fields[k], path + [k], protected, order).value;
      KeysUnchanged(Rebuild(f, k, s.focus), touched || s.touched, baseline, draft, keys[1..], path, protected, order);
      FalseMeansUnchanged(Child(f, k), Get(baseline, k), draft.fields[k], path + [k], protected, order);
      RebuildSame(f, k);
    }
  }

  lemma {:induction false} DropsUnchanged(f: Focus, touched: bool, draft: map<string, Json>, keys: seq<string>)
    requires SpliceDrops(f, touched, draft, keys).Done? && !SpliceDrops(f, touched, draft, keys).value.touched
    ensures !touched && SpliceDrops(f, touched, draft, keys).value.focus == f
    decreases keys
  {
    if keys != [] {
      if HasKey(draft, keys[0]) { DropsUnchanged(f, touched, draft, keys[1..]); }
      else { DropsUnchanged(Delete(f, keys[0]).value, true, draft, keys[1..]); }
    }
  }

  /** Any document, any baseline, any protected paths: `false` means not one node moved. */
  lemma {:induction false} FalseMeansUnchanged(f: Focus, baseline: Json, draft: Json, path: Path,
                                               protected: set<string>, order: KeyOrder)
    requires Lists(order)
    requires Splice(f, baseline, draft, path, protected, order).Done?
    requires !Splice(f, baseline, draft, path, protected, order).value.touched
    ensures Splice(f, baseline, draft, path, protected, order).value.focus == f
    decreases draft, 1, 0
  {
    if Join(path) !in protected && !JsonEqual(baseline, draft) && baseline.Obj? && draft.Obj? {
      var s := SpliceDrops(f, false, draft.fields, order(path, baseline.fields.Keys)).value;
      KeysUnchanged(s.focus, s.touched, baseline.fields, draft, order(path, draft.fields.Keys), path, protected, order);
      DropsUnchanged(f, false, draft.fields, order(path, baseline.fields.Keys));
    }
  }
}
