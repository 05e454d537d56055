/** Inputs on which the write does not do what its description says, each a family or a
    smallest member of one the exact laws shut out. */
module EntryInputs {
  import opened Json
  import opened EntryDocument
  import opened EntrySplice
  import opened EntryWrite
  import opened EntryPaths
  import opened EntryLaws
  import opened EntryAnchors
  import opened EntryTies

  // ----- keys -----

  /** A dropped key named like an inherited method is taken for one the draft still has. */
  lemma InheritedNameSurvives(f: Focus, b: Json, d: Json, path: Path, protected: set<string>, order: KeyOrder,
                              k: string)
    requires Lists(order) && IsMapping(f) && b.Obj? && d.Obj?
    requires k in PROTOTYPE_NAMES && k in b.fields && k !in d.fields
    requires Splice(f, b, d, path, protected, order).Done?
    ensures Child(Splice(f, b, d, path, protected, order).value.focus, k) == Child(f, k)
  {
    if Join(path) !in protected && !JsonEqual(b, d) { ChildAfter(f, b, d, path, protected, order, k); }
  }

  /** A key that is a number, a boolean or null is never found: dropping it is reported and
      leaves it where it is, with the value it has. */
  lemma OddKeyStays(f: Focus, b: Json, d: Json, path: Path, protected: set<string>, order: KeyOrder, k: string)
    requires Lists(order) && IsMapping(f) && b.Obj? && d.Obj? && Join(path) !in protected && !JsonEqual(b, d)
    requires k in f.node.others && k !in f.node.fields
    requires k in b.fields && k !in d.fields && k !in PROTOTYPE_NAMES
    requires Splice(f, b, d, path, protected, order).Done?
    ensures var s := Splice(f, b, d, path, protected, order).value;
      s.touched && IsMapping(s.focus) && ShownAt(s.focus, k) == At(f.node.others[k])
  {
    WriteReports(f, b, d, path, protected, order);
    OddAfter(f, b, d, path, protected, order, k);
    hide Splice;
    assert !HasKey(d.fields, k);
  }

  /** Setting one appends a second key that shows alike. */
  lemma OddKeyDoubles(f: Focus, b: Json, d: Json, path: Path, order: KeyOrder, k: string)
    requires Lists(order) && IsMapping(f) && b.Obj? && d.Obj? && !JsonEqual(b, d)
    requires k in f.node.others && k !in f.node.fields && k in d.fields && Grows(Get(b.fields, k), d.fields[k])
    requires Splice(f, b, d, path, {}, order).Done?
    ensures var g := Splice(f, b, d, path, {}, order).value.focus;
      && IsMapping(g) && k in g.node.fields && k in g.node.others && g.node.others[k] == f.node.others[k]
      && ShownAt(g, k) == At(g.node.fields[k])
  {
    ChildAfter(f, b, d, path, {}, order, k);
    OddAfter(f, b, d, path, {}, order, k);
    hide Splice, Grows, Fills;
    GrowsIsFills(Get(b.fields, k), d.fields[k], path + [k]);
    FillsMeans(true, Get(b.fields, k), d.fields[k], path + [k], {}, order);
  }

  /** `k: v` beside `t: w`, where `k` is written as a number, a boolean or null. */
  function OddBeside(k: string, t: string, v: Atom, w: Atom): Node {
    Mapping([Shown(k), Name(t)], map[t := Scalar(w, FRESH_STYLE)], map[k := Scalar(v, FRESH_STYLE)], false, FRESH_STYLE)
  }

  lemma OddBesideSays(k: string, t: string, v: Atom, w: Atom)
    requires k != t
    ensures ToJson(OddBeside(k, t, v, w)) == Obj(map[k := Leaf(v), t := Leaf(w)])
  {
    assert ToJson(OddBeside(k, t, v, w)).fields == map[k := Leaf(v), t := Leaf(w)];
  }

  /** `2024: x` beside `title: t`, with 2024 dropped: reported, and not one byte different.
      So for every name that is not inherited. */
  lemma OddKeyIsNotDropped(k: string, t: string, v: Atom, w: Atom, order: KeyOrder)
    requires Lists(order) && k != t && k !in PROTOTYPE_NAMES
    ensures var n := OddBeside(k, t, v, w);
      Splice(At(n), ToJson(n), Obj(map[t := Leaf(w)]), [], {}, order) == Done(Spliced(At(n), true))
  {
    var n, b, d := OddBeside(k, t, v, w), Obj(map[k := Leaf(v), t := Leaf(w)]), Obj(map[t := Leaf(w)]);
    OddBesideSays(k, t, v, w);
    hide ToJson, Splice, Takes, Reports, Idle;
    assert !JsonEqual(b, d) by { assert b.fields.Keys == {k, t} && d.fields.Keys == {t}; }
    DropOfMissing(At(n), b, d, k, order);
    WriteThrows(At(n), b, d, [], {}, order);
    ReportedInVain(At(n), b, d, [], {}, order);
  }

  /** Dropping one key a mapping lacks, and agreeing everywhere else. */
  lemma DropOfMissing(f: Focus, b: Json, d: Json, k: string, order: KeyOrder)
    requires Lists(order) && b.Obj? && d.Obj? && !JsonEqual(b, d) && k !in PROTOTYPE_NAMES
    requires k in b.fields && k !in d.fields && IsMapping(f) && k !in f.node.fields
    requires forall j :: j in b.fields && j != k ==> j in d.fields
    requires forall j :: j in d.fields ==> JsonEqual(Get(b.fields, j), d.fields[j])
    ensures Takes(f, b, d, [], {}, order) && Reports(f, b, d, [], {}) && Idle(f, b, d, [], {}, order)
  {
    hide JsonEqual, Get;
    assert !HasKey(d.fields, k);
  }

  // ----- aliases -----

  /** A value below an alias cannot be changed: the write throws. */
  lemma EnteringAliasThrows(n: Node, b: Json, d: Json, path: Path, protected: set<string>, order: KeyOrder, k: string)
    requires Lists(order) && n.Alias? && b.Obj? && d.Obj? && k in d.fields
    requires Join(path) !in protected && !JsonEqual(b, d) && Join(path + [k]) !in protected
    requires !JsonEqual(Get(b.fields, k), d.fields[k]) && !(Get(b.fields, k).Obj? && d.fields[k].Obj?)
    ensures Splice(At(n), b, d, path, protected, order).Threw?
  {
    hide Splice, JsonEqual, Get, HasKey, Join;
    WriteThrows(At(n), b, d, path, protected, order);
    NoKeyTakes(Get(b.fields, k), d.fields[k], path + [k], protected, order);
    assert Child(At(n), k) == Blocked(false);
  }

  lemma NoKeyTakes(b: Json, d: Json, path: Path, protected: set<string>, order: KeyOrder)
    requires Lists(order) && path != [] && Join(path) !in protected && !JsonEqual(b, d) && !(b.Obj? && d.Obj?)
    ensures !Takes(Blocked(false), b, d, path, protected, order)
  {
  }

  /** An anchored mapping that is edited no longer is what its alias stands for: read again,
      the file says the new value in both places. */
  lemma AnchoredEditSpreads(f: Focus, b: Json, d: Json, path: Path, protected: set<string>, order: KeyOrder,
                            k: string, j: string, source: string)
    requires Lists(order) && IsMapping(f) && b.Obj? && d.Obj? && Join(path) !in protected && !JsonEqual(b, d)
    requires IsMapping(Child(f, k)) && Child(f, k).node.style.anchor == Some(source)
    requires Child(f, j) == At(Alias(source, Child(f, k).node))
    requires k in d.fields && Get(b.fields, k).Obj? && d.fields[k].Obj?
    requires !Idle(Child(f, k), Get(b.fields, k), d.fields[k], path + [k], protected, order)
    requires j in d.fields && JsonEqual(Get(b.fields, j), d.fields[j])
    requires Splice(f, b, d, path, protected, order).Done?
    ensures var g := Splice(f, b, d, path, protected, order).value.focus;
      Child(g, j) == Child(f, j) && !Consistent(g)
  {
    ChildAfter(f, b, d, path, protected, order, k);
    ChildAfter(f, b, d, path, protected, order, j);
    OddAfter(Child(f, k), Get(b.fields, k), d.fields[k], path + [k], protected, order, "");
    WriteIsIdle(Child(f, k), Get(b.fields, k), d.fields[k], path + [k], protected, order);
    var g := Splice(f, b, d, path, protected, order).value.focus;
    hide Splice, Idle, IsOdd;
    assert Anchored(source, Child(g, k).node) in TiesAt(g) by { AnchorOfChild(g, k, source); }
    assert Aliased(source, Child(f, k).node) in TiesAt(g) by { AliasOfChild(g, j); }
    if Consistent(g) {
      SingleTies(g.node, Anchored(source, Child(f, k).node), Anchored(source, Child(g, k).node));
    }
  }

  /** Without an alias the same edit leaves the document true, and the node its anchor. */
  lemma UnaliasedEditStands(f: Focus, b: Json, d: Json, path: Path, protected: set<string>, order: KeyOrder,
                            k: string, source: string)
    requires Lists(order) && IsMapping(f) && b.Obj? && d.Obj? && Join(path) !in protected && !JsonEqual(b, d)
    requires Consistent(f) && forall t :: t in TiesAt(f) ==> t.Anchored?
    requires IsMapping(Child(f, k)) && Child(f, k).node.style.anchor == Some(source)
    requires k in d.fields && Get(b.fields, k).Obj? && d.fields[k].Obj?
    requires !Idle(Child(f, k), Get(b.fields, k), d.fields[k], path + [k], protected, order)
    requires Splice(f, b, d, path, protected, order).Done?
    ensures var g := Splice(f, b, d, path, protected, order).value.focus;
      && Consistent(g) && Child(g, k) != Child(f, k)
      && IsMapping(Child(g, k)) && Child(g, k).node.style.anchor == Some(source)
  {
    ChildAfter(f, b, d, path, protected, order, k);
    OddAfter(Child(f, k), Get(b.fields, k), d.fields[k], path + [k], protected, order, "");
    WriteIsIdle(Child(f, k), Get(b.fields, k), d.fields[k], path + [k], protected, order);
    hide Splice, Idle, IsOdd, Ties;
    UnaliasedStaysTrue(f, b, d, path, protected, order);
  }

  lemma AnchorOfChild(g: Focus, k: string, source: string)
    requires IsMapping(g) && IsMapping(Child(g, k)) && Child(g, k).node.style.anchor == Some(source)
    ensures Anchored(source, Child(g, k).node) in TiesAt(g)
  {
    assert Anchored(source, Child(g, k).node) in Ties(g.node.fields[k]);
  }

  lemma AliasOfChild(g: Focus, j: string)
    requires IsMapping(g) && Child(g, j).At? && Child(g, j).node.Alias?
    ensures Aliased(Child(g, j).node.source, Child(g, j).node.target) in TiesAt(g)
  {
    assert Aliased(Child(g, j).node.source, Child(g, j).node.target) in Ties(g.node.fields[j]);
  }

  /** What reading it again says: in a consistent document an alias says its anchor's value. */
  lemma AliasSaysItsAnchor(g: Focus, k: string, j: string)
    requires Consistent(g) && IsMapping(g) && IsMapping(Child(g, k)) && Child(g, j).At? && Child(g, j).node.Alias?
    requires Child(g, k).node.style.anchor == Some(Child(g, j).node.source)
    ensures ToJson(Child(g, j).node) == ToJson(Child(g, k).node)
  {
    var n := Child(g, j).node;
    AnchorOfChild(g, k, n.source);
    AliasOfChild(g, j);
    SingleTies(g.node, Anchored(n.source, n.target), Anchored(n.source, Child(g, k).node));
  }

  // ----- reports and protected paths -----

  /** Against a stale baseline a key that is long gone counts as a change: the write is
      reported although not one node moved. */
  lemma StaleDropIsReported(f: Focus, b: Json, key: string, order: KeyOrder)
    requires Lists(order) && IsMapping(f) && f.node.fields == map[]
    requires b.Obj? && key in b.fields && key !in PROTOTYPE_NAMES
    ensures Splice(f, b, EMPTY, [], {}, order) == Done(Spliced(f, true))
  {
    assert !HasKey(EMPTY.fields, key) && !JsonEqual(b, EMPTY) by { assert |b.fields.Keys| > 0; }
    WriteThrows(f, b, EMPTY, [], {}, order);
    hide PROTOTYPE_NAMES;
    ReportedInVain(f, b, EMPTY, [], {}, order);
  }

  /** A dropped key takes the node of every protected path below it along, in any document
      and at any depth, unless every object inherits its name. */
  lemma ProtectedNodeIsDropped(f: Focus, b: Json, d: Json, path: Path, protected: set<string>, order: KeyOrder, p: Path)
    requires Lists(order) && IsMapping(f) && b.Obj? && d.Obj? && p != [] && FocusAt(f, p).At?
    requires Join(path) !in protected && Join(path + p) in protected
    requires p[0] in b.fields && p[0] !in d.fields && p[0] !in PROTOTYPE_NAMES
    requires Splice(f, b, d, path, protected, order).Done?
    ensures !FocusAt(Splice(f, b, d, path, protected, order).value.focus, p).At?
  {
    assert !JsonEqual(b, d) by { if JsonEqual(b, d) { KeysAgree(b.fields, d.fields, p[0]); } }
    ChildAfter(f, b, d, path, protected, order, p[0]);
    BelowBlocked(Missing(true), p[1..]);
  }

  lemma KeysAgree(b: map<string, Json>, d: map<string, Json>, k: string)
    requires JsonEqual(Obj(b), Obj(d)) && k in b && k !in d
    ensures k in PROTOTYPE_NAMES
  {
    assert HasKey(d, k);
  }
}
