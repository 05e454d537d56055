/** Splicing a draft into the document in place: `applyDraft` and `setNode`. */
module EntrySplice {
  import opened Json
  import opened EntryDocument

  /** A result, or the exception the document library raises when a path runs into
      something that is not a collection. */
  datatype Outcome<+T> = Done(value: T) | Threw

  /** What stands at the spliced place afterwards, and whether the writer reports a change. */
  datatype Spliced = Spliced(focus: Focus, touched: bool)

  /** `path.join('.')` */
  function Join(path: Path): string {
    if path == [] then ""
    else if |path| == 1 then path[0]
    else path[0] + "." + Join(path[1..])
  }

  function WithFlow(created: Node, existing: Node): Node {
    if (existing.Sequence? || existing.Mapping?) && existing.flow && (created.Sequence? || created.Mapping?)
    then created.(flow := true)
    else created
  }

  function Delete(f: Focus, key: string): Outcome<Focus> {
    match Child(f, key)
    case At(_) => Done(Rebuild(f, key, Missing(true)))
    case Missing(parent) => if parent then Done(f) else Threw
    case Blocked(soft) => if soft then Done(f) else Threw
  }

  function SpliceWhole(f: Focus, draft: Json, path: Path, order: KeyOrder): Outcome<Spliced> {
    if path == [] then
      Done(Spliced(At(CreateNode(draft, path, order)), true))
    else if draft.Undefined? then
      match f {
        case At(_) => Done(Spliced(Missing(true), true))
        case Missing(parent) => if parent then Done(Spliced(f, false)) else Threw
        case Blocked(soft) => if soft then Done(Spliced(f, false)) else Threw
      }
    else
      match f {
        case At(n) =>
          if JsonEqual(ToJson(n), draft) then Done(Spliced(f, false))
          else Done(Spliced(At(WithFlow(CreateNode(draft, path, order), n)), true))
        case Missing(_) => Done(Spliced(At(CreateNode(draft, path, order)), true))
        case Blocked(_) => Threw
      }
  }

  function SpliceDrops(f: Focus, touched: bool, draft: map<string, Json>, keys: seq<string>): Outcome<Spliced>
    decreases keys
  {
    if keys == [] then Done(Spliced(f, touched))
    else if HasKey(draft, keys[0]) then SpliceDrops(f, touched, draft, keys[1..])
    else
      match Delete(f, keys[0])
      case Threw => Threw
      case Done(g) => SpliceDrops(g, true, draft, keys[1..])
  }

  function SpliceKeys(f: Focus, touched: bool, baseline: map<string, Json>, draft: Json, keys: seq<string>,
                      path: Path, protected: set<string>, order: KeyOrder): Outcome<Spliced>
    requires Lists(order) && draft.Obj? && forall k :: k in keys ==> k in draft.fields
    decreases draft, 0, |keys|
  {
    if keys == [] then Done(Spliced(f, touched))
    else
      var k := keys[0];
      match Splice(Child(f, k), Get(baseline, k), draft.fields[k], path + [k], protected, order)
      case Threw => Threw
      case Done(s) =>
        SpliceKeys(Rebuild(f, k, s.focus), touched || s.touched, baseline, draft, keys[1..], path, protected, order)
  }

  /** What `applyDraft` makes of the place it is called for. */
  function Splice(f: Focus, baseline: Json, draft: Json, path: Path, protected: set<string>,
                  order: KeyOrder): Outcome<Spliced>
    requires Lists(order)
    decreases draft, 1, 0
  {
    if Join(path) in protected || JsonEqual(baseline, draft) then Done(Spliced(f, false))
    else if baseline.Obj? && draft.Obj? then
      match SpliceDrops(f, false, draft.fields, order(path, baseline.fields.Keys))
      case Threw => Threw
      case Done(s) =>
        SpliceKeys(s.focus, s.touched, baseline.fields, draft, order(path, draft.fields.Keys), path, protected, order)
    else SpliceWhole(f, draft, path, order)
  }

  lemma {:induction false} DropsFit(f: Focus, touched: bool, draft: map<string, Json>, keys: seq<string>)
    requires SpliceDrops(f, touched, draft, keys).Done?
    ensures f.At? ==> SpliceDrops(f, touched, draft, keys).value.focus.At?
    ensures !f.At? ==> SpliceDrops(f, touched, draft, keys).value.focus == f
    decreases keys
  {
    if keys != [] {
      if HasKey(draft, keys[0]) {
        DropsFit(f, touched, draft, keys[1..]);
      } else {
        DropsFit(Delete(f, keys[0]).value, true, draft, keys[1..]);
      }
    }
  }

  lemma {:induction false} KeysFit(f: Focus, touched: bool, baseline: map<string, Json>, draft: Json, keys: seq<string>,
                                   path: Path, protected: set<string>, order: KeyOrder)
    requires Lists(order) && draft.Obj? && forall k :: k in keys ==> k in draft.fields
    requires SpliceKeys(f, touched, baseline, draft, keys, path, protected, order).Done?
    ensures var x := SpliceKeys(f, touched, baseline, draft, keys, path, protected, order).value.focus;
      x == f || (x.At? && !f.Blocked?)
    decreases draft, 0, |keys|
  {
    if keys != [] {
      var k := keys[0];
      var s := Splice(Child(f, k), Get(baseline, k), draft.fields[k], path + [k], protected, order).value;
      SpliceFits(Child(f, k), Get(baseline, k), draft.fields[k], path + [k], protected, order);
      RebuildSame(f, k);
      KeysFit(Rebuild(f, k, s.focus), touched || s.touched, baseline, draft, keys[1..], path, protected, order);
    }
  }

  lemma {:induction false} SpliceFits(f: Focus, baseline: Json, draft: Json, path: Path, protected: set<string>,
                                      order: KeyOrder)
    requires Lists(order) && (path != [] || !f.Blocked?)
    requires Splice(f, baseline, draft, path, protected, order).Done?
    ensures Fits(f, Splice(f, baseline, draft, path, protected, order).value.focus)
    decreases draft, 1, 0
  {
    if Join(path) in protected || JsonEqual(baseline, draft) {
    } else if baseline.Obj? && draft.Obj? {
      DropsFit(f, false, draft.fields, order(path, baseline.fields.Keys));
      var s := SpliceDrops(f, false, draft.fields, order(path, baseline.fields.Keys)).value;
      KeysFit(s.focus, s.touched, baseline.fields, draft, order(path, draft.fields.Keys), path, protected, order);
    }
  }

  // ----- the document itself -----

  class Document {
    var contents: Option<Node>

    constructor (contents: Option<Node>)
      ensures this.contents == contents
    {
      this.contents := contents;
    }

    /** `doc.getIn(path, true)` */
    function GetIn(path: Path): Option<Node>
      reads this
    {
      Contents(FocusAt(Root(contents), path))
    }

    /** `doc.setIn(path, node)`: parents that are missing come into being. */
    method SetIn(path: Path, node: Node) returns (r: Outcome<()>)
      requires path != []
      modifies this
      ensures r.Threw? <==> FocusAt(Root(old(contents)), path).Blocked?
      ensures Root(contents) == if r.Threw? then Root(old(contents)) else Put(Root(old(contents)), path, At(node))
    {
      if FocusAt(Root(contents), path).Blocked? { return Threw; }
      FillingFills(Root(contents), path, At(node));
      contents := Contents(Put(Root(contents), path, At(node)));
      r := Done(());
    }

    /** `doc.deleteIn(path)`: true when there was something to delete. */
    method DeleteIn(path: Path) returns (r: Outcome<bool>)
      requires path != []
      modifies this
      ensures match FocusAt(Root(old(contents)), path)
        case At(_) => r == Done(true) && Root(contents) == Put(Root(old(contents)), path, Missing(true))
        case Missing(parent) => r == (if parent then Done(false) else Threw) && contents == old(contents)
        case Blocked(soft) => r == (if soft then Done(false) else Threw) && contents == old(contents)
    {
      match FocusAt(Root(contents), path)
      case At(_) =>
        BelowBlocked(Root(contents), path);
        contents := Contents(Put(Root(contents), path, Missing(true)));
        r := Done(true);
      case Missing(parent) => r := if parent then Done(false) else Threw;
      case Blocked(soft) => r := if soft then Done(false) else Threw;
    }

    /** `setNode`: replaces the whole value, unless the node already holds it. */
    method SetNode(path: Path, value: Json, order: KeyOrder) returns (r: Outcome<bool>)
      modifies this
      ensures Effect(Root(old(contents)), path, SpliceWhole(FocusAt(Root(old(contents)), path), value, path, order),
        r, Root(contents))
    {
      PutSame(Root(contents), path);
      if path == [] {
        contents := Some(CreateNode(value, path, order));
        return Done(true);
      }
      if value.Undefined? {
        r := DeleteIn(path);
        return;
      }
      var existing := GetIn(path);
      if existing.Some? && JsonEqual(ToJson(existing.value), value) { return Done(false); }
      var node := CreateNode(value, path, order);
      if existing.Some? { node := WithFlow(node, existing.value); }
      var written := SetIn(path, node);
      r := if written.Threw? then Threw else Done(true);
    }

    /** `applyDraft`: afterwards the place at `path` is what `Splice` says and every other
        part of the document stands as it stood. */
    method ApplyDraft(baseline: Json, draft: Json, path: Path, protected: set<string>, order: KeyOrder)
      returns (r: Outcome<bool>)
      requires Lists(order)
      modifies this
      ensures Effect(Root(old(contents)), path,
                     Splice(FocusAt(Root(old(contents)), path), baseline, draft, path, protected, order), r,
                     Root(contents))
      decreases draft, 1
    {
      ghost var root := Root(contents);
      PutSame(root, path);
      if Join(path) in protected || JsonEqual(baseline, draft) { return Done(false); }
      if baseline.Obj? && draft.Obj? {
        var dropped := DropKeys(baseline, draft, path, order);
        if dropped.Threw? { return Threw; }
        r := SpliceEntries(dropped.value, baseline, draft, path, protected, order, root);
      } else {
        r := SetNode(path, draft, order);
      }
    }

    /** The first loop: every key the draft no longer has goes. */
    method DropKeys(baseline: Json, draft: Json, path: Path, order: KeyOrder) returns (r: Outcome<bool>)
      requires baseline.Obj? && draft.Obj?
      modifies this
      ensures SpliceDrops(FocusAt(Root(old(contents)), path), false, draft.fields, order(path, baseline.fields.Keys))
           == if r.Threw? then Threw else Done(Spliced(FocusAt(Root(contents), path), r.value))
      ensures r.Done? ==> Follows(Root(old(contents)), path, Root(contents))
    {
      ghost var root := Root(contents);
      PutSame(root, path);
      var keys := order(path, baseline.fields.Keys);
      var touched := false;
      for i := 0 to |keys|
        invariant Follows(root, path, Root(contents))
        invariant SpliceDrops(FocusAt(root, path), false, draft.fields, keys)
               == SpliceDrops(FocusAt(Root(contents), path), touched, draft.fields, keys[i..])
      {
        if !HasKey(draft.fields, keys[i]) {
          ghost var before := Root(contents);
          PutBelow(before, path, keys[i], Missing(true));
          var deleted := DeleteIn(path + [keys[i]]);
          if deleted.Threw? { return Threw; }
          touched := true;
          if deleted.value { StepFollows(root, path, before, keys[i], Missing(true)); }
        }
      }
      r := Done(touched);
    }

    /** The second loop: every key of the draft is spliced under its own path. */
    method SpliceEntries(touchedBefore: bool, baseline: Json, draft: Json, path: Path, protected: set<string>,
                         order: KeyOrder, ghost root: Focus)
      returns (r: Outcome<bool>)
      requires Lists(order) && baseline.Obj? && draft.Obj?
      requires Follows(root, path, Root(contents))
      modifies this
      ensures var f := FocusAt(Root(old(contents)), path);
        Effect(root, path,
               SpliceKeys(f, touchedBefore, baseline.fields, draft, order(path, draft.fields.Keys), path, protected,
                          order), r, Root(contents))
      decreases draft, 0
    {
      ghost var f := FocusAt(Root(contents), path);
      var keys := order(path, draft.fields.Keys);
      var touched := touchedBefore;
      for i := 0 to |keys|
        invariant Follows(root, path, Root(contents))
        invariant SpliceKeys(f, touchedBefore, baseline.fields, draft, keys, path, protected, order)
               == SpliceKeys(FocusAt(Root(contents), path), touched, baseline.fields, draft, keys[i..], path,
                 protected, order)
      {
        var k := keys[i];
        ghost var before := Root(contents);
        ghost var child := Child(FocusAt(before, path), k);
        PutBelow(before, path, k, child);
        var spliced := ApplyDraft(Get(baseline.fields, k), draft.fields[k], path + [k], protected, order);
        if spliced.Threw? { return Threw; }
        if spliced.value { touched := true; }
        SpliceFits(child, Get(baseline.fields, k), draft.fields[k], path + [k], protected, order);
        StepFollows(root, path, before, k,
          Splice(child, Get(baseline.fields, k), draft.fields[k], path + [k], protected, order).value.focus);
      }
      r := Done(touched);
    }
  }

  /** A call that ended as `spec` says: it threw, or it reported the change flag and
      replaced the place at `path` and nothing else. */
  ghost predicate Effect(root: Focus, path: Path, spec: Outcome<Spliced>, r: Outcome<bool>, now: Focus) {
    match spec
    case Threw => r.Threw?
    case Done(s) => r == Done(s.touched) && now == Put(root, path, s.focus)
  }

  /** The document is the old one with only the place at `path` replaced so far. */
  ghost predicate Follows(root: Focus, path: Path, now: Focus) {
    && Fits(FocusAt(root, path), FocusAt(now, path))
    && (FocusAt(now, path) == FocusAt(root, path) || FocusAt(now, path).At?)
    && now == Put(root, path, FocusAt(now, path))
  }

  lemma StepFollows(root: Focus, path: Path, before: Focus, key: string, x: Focus)
    requires Follows(root, path, before) && Fits(Child(FocusAt(before, path), key), x)
    ensures Follows(root, path, Put(before, path + [key], x))
    ensures FocusAt(Put(before, path + [key], x), path) == Rebuild(FocusAt(before, path), key, x)
  {
    var g := FocusAt(before, path);
    PutBelow(before, path, key, x);
    RebuildSame(g, key);
    PutFits(before, path, Rebuild(g, key, x));
    PutTwice(root, path, g, Rebuild(g, key, x));
  }
}
