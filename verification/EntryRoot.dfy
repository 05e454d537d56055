/** The whole document: ordinary contents, none at all, and a frontmatter that spells out
    null. */
module EntryRoot {
  import opened Json
  import opened EntryDocument
  import opened EntrySplice
  import opened EntryWrite
  import opened EntryPaths
  import opened EntryLaws

  // ----- ordinary contents -----

  /** At no depth does the draft drop a key that plain objects answer to anyway. */
  predicate DropsNoInherited(b: Json, d: Json)
    decreases d
  {
    b == d || (b.Obj? && d.Obj? ==>
      && (forall k :: k in b.fields && k !in d.fields ==> k !in PROTOTYPE_NAMES)
      && (forall k :: k in d.fields ==> DropsNoInherited(Get(b.fields, k), d.fields[k])))
  }

  lemma {:induction false} OrdinaryTakes(f: Focus, b: Json, d: Json, path: Path, order: KeyOrder)
    requires Lists(order) && Plain(d) && Starts(f, b) && (f.At? ==> Ordinary(f.node))
    ensures Takes(f, b, d, path, {}, order)
    decreases d
  {
    if b.Obj? && d.Obj? {
      forall k | k in d.fields
        ensures Takes(Child(f, k), Get(b.fields, k), d.fields[k], path + [k], {}, order)
      {
        OrdinaryTakes(Child(f, k), Get(b.fields, k), d.fields[k], path + [k], order);
      }
    }
  }

  lemma {:induction false} OrdinaryKeepable(f: Focus, b: Json, d: Json)
    requires Plain(d) && Starts(f, b) && (f.At? ==> Ordinary(f.node))
    ensures Keepable(f, b, d) <==> DropsNoInherited(b, d)
    decreases d
  {
    if b != d && b.Obj? && d.Obj? {
      forall k | k in d.fields
        ensures Keepable(Child(f, k), Get(b.fields, k), d.fields[k])
          <==> DropsNoInherited(Get(b.fields, k), d.fields[k])
      {
        OrdinaryKeepable(Child(f, k), Get(b.fields, k), d.fields[k]);
      }
      hide Keepable, DropsNoInherited;
      OrdinaryKeepableAt(f, b, d);
    }
  }

  lemma OrdinaryKeepableAt(f: Focus, b: Json, d: Json)
    requires b.Obj? && d.Obj? && b != d && f.At? && ToJson(f.node) == b && Ordinary(f.node)
    requires forall k :: k in d.fields ==>
      (Keepable(Child(f, k), Get(b.fields, k), d.fields[k]) <==> DropsNoInherited(Get(b.fields, k), d.fields[k]))
    ensures Keepable(f, b, d) <==> DropsNoInherited(b, d)
  {
    if Keepable(f, b, d) {
      forall k | k in b.fields && k !in d.fields ensures k !in PROTOTYPE_NAMES { assert KeepableAt(f, b, d, k); }
      forall k | k in d.fields ensures DropsNoInherited(Get(b.fields, k), d.fields[k]) {
        assert KeepableAt(f, b, d, k);
      }
    }
  }

  /** A document that has string keys only and no aliases, and says the baseline: the write
      never throws, and the document says the draft afterwards if and only if at no depth it
      drops a key every object inherits. */
  lemma OrdinarySaysDraft(n: Node, b: Json, d: Json, path: Path, order: KeyOrder)
    requires Lists(order) && Plain(b) && Plain(d) && Ordinary(n) && ToJson(n) == b && (path == [] ==> !d.Undefined?)
    ensures var w := Splice(At(n), b, d, path, {}, order);
      w.Done? && (Projects(w.value.focus, Clean(d)) <==> DropsNoInherited(b, d))
  {
    OrdinaryTakes(At(n), b, d, path, order);
    WriteThrows(At(n), b, d, path, {}, order);
    SpliceSaysDraft(At(n), b, d, path, order);
    OrdinaryKeepable(At(n), b, d);
  }

  // ----- no contents -----

  /** Written in this order into an empty document the keys never ask to clear an inherited
      name before a value has brought the contents into being. */
  predicate Buildable(d: map<string, Json>, keys: seq<string>) {
    keys != [] && !(keys[0] in d && !d[keys[0]].Undefined?) ==>
      keys[0] !in PROTOTYPE_NAMES && Buildable(d, keys[1..])
  }

  /** What reading a key off an object without own keys and a form's value have to do. */
  lemma NewKey(d: Json, k: string)
    requires d.Obj? && Plain(d) && k in d.fields
    ensures !Get(map[], k).Obj? && Plain(d.fields[k])
    ensures JsonEqual(Get(map[], k), d.fields[k]) <==> d.fields[k].Undefined? && k !in PROTOTYPE_NAMES
  {
    JsonEqualIsIdentity(Get(map[], k), d.fields[k]);
  }

  lemma {:induction false} BuildTakesNothing(d: Json, keys: seq<string>, order: KeyOrder)
    requires Lists(order) && d.Obj? && Plain(d) && forall k :: k in keys ==> k in d.fields
    ensures BuildTakes(false, map[], d, keys, [], {}, order) <==> Buildable(d.fields, keys)
    decreases keys
  {
    if keys != [] {
      var h := keys[0];
      assert keys == [h] + keys[1..] && [] + [h] == [h];
      NewKey(d, h);
      if d.fields[h].Undefined? {
        BuildTakesNothing(d, keys[1..], order);
      } else {
        BuildTakesThere(map[], d, keys[1..], [], {}, order);
        forall k | k in keys[1..] ensures Takes(Missing(true), Get(map[], k), d.fields[k], [] + [k], {}, order) {
          NewKey(d, k);
        }
      }
    }
  }

  /** An empty document takes every draft except one that clears an inherited name before it
      sets any value. */
  lemma EmptyTakes(d: Json, order: KeyOrder)
    requires Lists(order) && d.Obj? && Plain(d)
    ensures Takes(Missing(false), EMPTY, d, [], {}, order) <==> Buildable(d.fields, order([], d.fields.Keys))
  {
    JsonEqualIsIdentity(d, EMPTY);
    JsonEqualIsIdentity(EMPTY, d);
    BuildTakesNothing(d, order([], d.fields.Keys), order);
    if d == EMPTY { NoKeys([], order); }
  }

  lemma NoKeys(path: Path, order: KeyOrder)
    requires Lists(order)
    ensures order(path, {}) == []
    ensures EMPTY.fields.Keys == {}
  {
    HasFirst(order(path, {}));
  }

  lemma HasFirst(keys: seq<string>)
    ensures keys == [] || exists k :: k in keys
  {
    if keys != [] { assert keys[0] in keys; }
  }

  /** Into an empty document: what the write leaves says the draft, and it leaves nothing
      only for a draft with nothing to say. */
  lemma EmptySaysDraft(d: Json, order: KeyOrder)
    requires Lists(order) && d.Obj? && Plain(d) && Splice(Missing(false), EMPTY, d, [], {}, order).Done?
    ensures var x := Splice(Missing(false), EMPTY, d, [], {}, order).value.focus;
      Projects(x, Clean(d)) || (x == Missing(false) && Clean(d) == EMPTY)
  {
    JsonEqualIsIdentity(EMPTY, d);
    FillsMeans(false, EMPTY, d, [], {}, order);
    forall k | k in d.fields
      ensures Grows(Get(map[], k), d.fields[k]) <==> !d.fields[k].Undefined?
      ensures Fills(Get(map[], k), d.fields[k], [] + [k], {}) == Grows(Get(map[], k), d.fields[k])
      ensures Rebuilds(Get(map[], k), d.fields[k])
    {
      NewKey(d, k);
      GrowsIsFills(Get(map[], k), d.fields[k], [] + [k]);
    }
    if Fills(EMPTY, d, [], {}) {
      BuiltSaysDraft(false, EMPTY, d, [], order);
    } else {
      assert Clean(d).fields == map[];
    }
  }

  // ----- a frontmatter that spells out null -----

  /** It reads as an empty object, yet every value throws, and so does clearing an inherited
      name. */
  lemma NullTakes(n: Node, d: Json, order: KeyOrder)
    requires Lists(order) && ToJson(n) == NULL && d.Obj? && Plain(d)
    ensures Takes(At(n), EMPTY, d, [], {}, order)
       <==> forall k :: k in d.fields ==> d.fields[k].Undefined? && k !in PROTOTYPE_NAMES
  {
    JsonEqualIsIdentity(EMPTY, d);
    forall k | k in d.fields
      ensures Takes(Child(At(n), k), Get(map[], k), d.fields[k], [] + [k], {}, order)
         <==> d.fields[k].Undefined? && k !in PROTOTYPE_NAMES
    {
      NewKey(d, k);
    }
  }

  // ----- any contents -----

  /** The draft can be read back: contents that say something keep it. */
  ghost predicate FileKeeps(contents: Option<Node>, d: Json) {
    DataOf(contents) != NULL ==> Keepable(Root(contents), DataOf(contents), d)
  }

  /** A whole document, spliced from its own data: what it says afterwards, null read as an
      empty object, is the draft if and only if it keeps it. */
  lemma RootSaysDraft(contents: Option<Node>, d: Json, order: KeyOrder)
    requires Lists(order) && Plain(d) && !d.Undefined? && d != NULL && Plain(DataOf(contents))
    requires Splice(Root(contents), OrEmpty(DataOf(contents)), d, [], {}, order).Done?
    ensures var x := Splice(Root(contents), OrEmpty(DataOf(contents)), d, [], {}, order).value.focus;
      OrEmpty(DataOf(Contents(x))) == Clean(d) <==> FileKeeps(contents, d)
  {
    var b := OrEmpty(DataOf(contents));
    var x := Splice(Root(contents), b, d, [], {}, order).value.focus;
    JsonEqualIsIdentity(b, d);
    if contents.Some? { NodesAreClean(contents.value); }
    if DataOf(contents) == NULL {
      if !d.Obj? {
        CreatedProjects(d, [], order);
      } else if contents.None? {
        EmptySaysDraft(d, order);
      } else {
        WriteThrows(Root(contents), EMPTY, d, [], {}, order);
        NullTakes(contents.value, d, order);
        LeafIsKept(Root(contents), EMPTY, d, [], {}, order);
        assert Clean(d).fields == map[];
      }
    } else {
      SpliceSaysDraft(Root(contents), b, d, [], order);
      RootStays(contents.value, d, order);
    }
  }

  /** Contents are never deleted, and never turn into null. */
  lemma RootStays(n: Node, d: Json, order: KeyOrder)
    requires Lists(order) && Plain(d) && Plain(ToJson(n)) && ToJson(n) != NULL && !d.Undefined? && d != NULL
    requires Splice(At(n), ToJson(n), d, [], {}, order).Done?
    ensures var x := Splice(At(n), ToJson(n), d, [], {}, order).value.focus;
      x.At? && ToJson(x.node) != NULL && !ToJson(x.node).Undefined?
  {
    NodesAreClean(n);
    JsonEqualIsIdentity(ToJson(n), d);
    if ToJson(n) != d && ToJson(n).Obj? && d.Obj? {
      if n.Mapping? {
        ChildAfter(At(n), ToJson(n), d, [], {}, order, "");
      } else {
        LeafIsKept(At(n), ToJson(n), d, [], {}, order);
      }
    } else if ToJson(n) != d {
      CreatedProjects(d, [], order);
    }
  }
}
