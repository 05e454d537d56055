/** The order of a mapping's keys after a splice: those that stay as they stood, then the new
    ones as the draft enumerates them; and what else of the mapping stays. */
module EntryOrder {
  import opened Json
  import opened EntryDocument
  import opened EntrySplice
  import opened EntryWrite
  import opened EntryPaths
  import opened EntryLaws

  function KeysOf(f: Focus): seq<Key> {
    if IsMapping(f) then f.node.keys else []
  }

  /** The key is no string, or `g` has not lost the node `f` has under it. */
  predicate Stays(f: Focus, g: Focus, key: Key) {
    key.Shown? || !Child(f, key.text).At? || Child(g, key.text).At?
  }

  function Staying(keys: seq<Key>, f: Focus, g: Focus): seq<Key> {
    if keys == [] then []
    else (if Stays(f, g, keys[0]) then [keys[0]] else []) + Staying(keys[1..], f, g)
  }

  /** Those of `keys` under which `g` has a node and `f` has none. */
  function Added(keys: seq<string>, f: Focus, g: Focus): seq<string> {
    if keys == [] then []
    else (if !Child(f, keys[0]).At? && Child(g, keys[0]).At? then [keys[0]] else []) + Added(keys[1..], f, g)
  }

  /** The mapping is written as it was, or as a new one is. */
  predicate WrittenAlike(f: Focus, g: Focus) {
    if IsMapping(f) then
      && IsMapping(g) && g.node.flow == f.node.flow && g.node.style == f.node.style
      && g.node.others == f.node.others
    else
      IsMapping(g) ==> !g.node.flow && g.node.style == FRESH_STYLE && g.node.others == map[]
  }

  // ----- one step -----

  lemma {:induction false} StayingAppend(keys: seq<Key>, more: seq<Key>, f: Focus, g: Focus)
    ensures Staying(keys + more, f, g) == Staying(keys, f, g) + Staying(more, f, g)
  {
    hide Stays, Child;
    if keys == [] {
      assert [] + more == more;
    } else {
      StayingAppend(keys[1..], more, f, g);
      assert (keys + more)[1..] == keys[1..] + more;
    }
  }

  lemma {:induction false} StayingTwice(keys: seq<Key>, f: Focus, m: Focus, g: Focus)
    requires forall k: string :: Child(f, k).At? && Child(g, k).At? ==> Child(m, k).At?
    requires forall k: string :: !Child(f, k).At? && Child(m, k).At? ==> Child(g, k).At?
    ensures Staying(Staying(keys, f, m), m, g) == Staying(keys, f, g)
  {
    if keys != [] {
      StayingTwice(keys[1..], f, m, g);
      var first := if Stays(f, m, keys[0]) then [keys[0]] else [];
      StayingAppend(first, Staying(keys[1..], f, m), m, g);
      assert [keys[0]][1..] == [];
      hide Child;
    }
  }

  lemma {:induction false} AllStay(keys: seq<Key>, f: Focus, g: Focus)
    requires forall k: string :: Child(f, k).At? ==> Child(g, k).At?
    ensures Staying(keys, f, g) == keys
  {
    if keys != [] {
      AllStay(keys[1..], f, g);
      assert keys == [keys[0]] + keys[1..];
    }
  }

  lemma {:induction false} OneGoes(keys: seq<Key>, f: Focus, g: Focus, h: string)
    requires Child(f, h).At? && !Child(g, h).At?
    requires forall k: string :: k != h && Child(f, k).At? ==> Child(g, k).At?
    ensures Staying(keys, f, g) == Without(keys, {Name(h)})
  {
    if keys != [] { OneGoes(keys[1..], f, g, h); }
  }

  lemma AddedOne(h: string, f: Focus, g: Focus)
    ensures Names(Added([h], f, g)) == if !Child(f, h).At? && Child(g, h).At? then [Name(h)] else []
  {
    hide Child;
    assert [h][1..] == [] && Names([h]) == [Name(h)] && Names([]) == [];
  }

  /** One child replaced, filled or emptied. */
  lemma RebuildKeys(f: Focus, h: string, x: Focus)
    requires IsMapping(f) || f.Missing?
    requires Fits(Child(f, h), x)
    ensures var g := Rebuild(f, h, x);
      && KeysOf(g) == Staying(KeysOf(f), f, g) + Names(Added([h], f, g))
      && WrittenAlike(f, g)
  {
    var g := Rebuild(f, h, x);
    AddedOne(h, f, g);
    if IsMapping(f) && Child(f, h).At? && !x.At? {
      OneGoes(KeysOf(f), f, g, h);
    } else {
      AllStay(KeysOf(f), f, g);
    }
    hide Staying, Added, Names;
  }

  lemma {:induction false} AddedSame(keys: seq<string>, f: Focus, m: Focus, g: Focus)
    requires forall k :: k in keys ==> (Child(f, k).At? <==> Child(m, k).At?)
    ensures Added(keys, f, g) == Added(keys, m, g)
  {
    if keys != [] {
      assert keys == [keys[0]] + keys[1..];
      AddedSame(keys[1..], f, m, g);
    }
  }

  lemma {:induction false} NothingAdded(keys: seq<string>, f: Focus, g: Focus)
    requires forall k: string :: Child(g, k).At? ==> Child(f, k).At?
    ensures Added(keys, f, g) == []
  {
    if keys != [] { NothingAdded(keys[1..], f, g); }
  }

  lemma NamesAppend(a: seq<string>, b: seq<string>)
    ensures Names(a + b) == Names(a) + Names(b)
  {
  }

  /** Two steps, the second of which leaves alone what the first has done. */
  lemma KeysCompose(f: Focus, m: Focus, g: Focus, first: seq<string>, rest: seq<string>)
    requires KeysOf(m) == Staying(KeysOf(f), f, m) + Names(Added(first, f, m))
    requires KeysOf(g) == Staying(KeysOf(m), m, g) + Names(Added(rest, m, g))
    requires forall k: string :: Child(f, k).At? && Child(g, k).At? ==> Child(m, k).At?
    requires forall k: string :: !Child(f, k).At? && Child(m, k).At? ==> Child(g, k).At?
    requires forall k :: k in first ==> (Child(m, k).At? <==> Child(g, k).At?)
    requires forall k :: k in rest ==> (Child(f, k).At? <==> Child(m, k).At?)
    ensures KeysOf(g) == Staying(KeysOf(f), f, g) + Names(Added(first, f, g) + Added(rest, f, g))
  {
    hide Names, KeysOf, Staying, Added, Child;
    var a, b := Staying(KeysOf(f), f, m), Names(Added(first, f, m));
    StayingAppend(a, b, m, g);
    StayingTwice(KeysOf(f), f, m, g);
    AddedStay(first, f, m, g);
    NamesStay(Added(first, f, m), m, g);
    AddedSame(rest, f, m, g);
    NamesAppend(Added(first, f, g), Added(rest, f, g));
  }

  lemma {:induction false} AddedStay(keys: seq<string>, f: Focus, m: Focus, g: Focus)
    requires forall k :: k in keys ==> (Child(m, k).At? <==> Child(g, k).At?)
    ensures Added(keys, f, m) == Added(keys, f, g)
    ensures forall k :: k in Added(keys, f, m) ==> Child(g, k).At?
    decreases keys
  {
    hide Child;
    if keys != [] {
      assert keys == [keys[0]] + keys[1..];
      AddedStay(keys[1..], f, m, g);
    }
  }

  /** Keys `g` has nodes under all stay. */
  lemma {:induction false} NamesStay(texts: seq<string>, m: Focus, g: Focus)
    requires forall k :: k in texts ==> Child(g, k).At?
    ensures Staying(Names(texts), m, g) == Names(texts)
  {
    hide Child;
    if texts != [] {
      assert texts == [texts[0]] + texts[1..];
      NamesStay(texts[1..], m, g);
      NamesAppend([texts[0]], texts[1..]);
      assert Names([texts[0]]) == [Name(texts[0])] && ([Name(texts[0])] + Names(texts[1..]))[1..] == Names(texts[1..]);
    }
  }

  // ----- the two loops -----

  lemma {:induction false} DropKeysAfter(f: Focus, touched: bool, draft: map<string, Json>, keys: seq<string>)
    requires IsMapping(f) && SpliceDrops(f, touched, draft, keys).Done?
    ensures var g := SpliceDrops(f, touched, draft, keys).value.focus;
      KeysOf(g) == Staying(KeysOf(f), f, g) && WrittenAlike(f, g)
    decreases keys
  {
    var g := SpliceDrops(f, touched, draft, keys).value.focus;
    if keys == [] {
      AllStay(KeysOf(f), f, f);
    } else if HasKey(draft, keys[0]) {
      DropKeysAfter(f, touched, draft, keys[1..]);
    } else {
      var h := keys[0];
      var m := Delete(f, h).value;
      RebuildSame(f, h);
      RebuildKeys(f, h, if Child(f, h).At? then Missing(true) else Child(f, h));
      DropKeysAfter(m, true, draft, keys[1..]);
      forall k: string
        ensures Child(m, k).At? ==> Child(f, k).At?
        ensures Child(g, k).At? ==> Child(m, k).At?
      {
        DropsEach(m, true, draft, keys[1..], k);
        if k != h && Child(f, h).At? { ChildOfRebuild(f, h, Missing(true), k); }
      }
      NothingAdded([h], f, m);
      assert KeysOf(m) == Staying(KeysOf(f), f, m) by { assert Names([]) == []; }
      StayingTwice(KeysOf(f), f, m, g);
    }
  }

  lemma {:induction false} KeysAfter(f: Focus, touched: bool, b: map<string, Json>, d: Json, keys: seq<string>,
                                     path: Path, protected: set<string>, order: KeyOrder)
    requires Lists(order) && d.Obj? && Distinct(keys) && forall k :: k in keys ==> k in d.fields
    requires IsMapping(f) || f.Missing?
    requires SpliceKeys(f, touched, b, d, keys, path, protected, order).Done?
    ensures var g := SpliceKeys(f, touched, b, d, keys, path, protected, order).value.focus;
      && KeysOf(g) == Staying(KeysOf(f), f, g) + Names(Added(keys, f, g)) && WrittenAlike(f, g)
    decreases keys
  {
    var g := SpliceKeys(f, touched, b, d, keys, path, protected, order).value.focus;
    if keys == [] {
      AllStay(KeysOf(f), f, f);
    } else {
      var h := keys[0];
      var s := Splice(Child(f, h), Get(b, h), d.fields[h], path + [h], protected, order).value;
      SpliceFits(Child(f, h), Get(b, h), d.fields[h], path + [h], protected, order);
      DistinctTail(keys);
      var m := Rebuild(f, h, s.focus);
      RebuildKind(f, h, s.focus);
      hide Splice;
      KeysAfter(m, touched || s.touched, b, d, keys[1..], path, protected, order);
      StepsApart(f, touched, b, d, keys, path, protected, order, s);
      RebuildKeys(f, h, s.focus);
      hide SpliceKeys, Rebuild, Child;
      KeysCompose(f, m, g, [h], keys[1..]);
      AddedCons(keys, f, g);
    }
  }

  lemma AddedCons(keys: seq<string>, f: Focus, g: Focus)
    requires keys != []
    ensures Added(keys, f, g) == Added([keys[0]], f, g) + Added(keys[1..], f, g)
  {
    assert [keys[0]][1..] == [];
  }

  /** The first key's step and the others' do not get into each other's way. */
  lemma StepsApart(f: Focus, touched: bool, b: map<string, Json>, d: Json, keys: seq<string>, path: Path,
                   protected: set<string>, order: KeyOrder, s: Spliced)
    requires Lists(order) && d.Obj? && keys != [] && Distinct(keys) && forall k :: k in keys ==> k in d.fields
    requires IsMapping(f) || f.Missing?
    requires Splice(Child(f, keys[0]), Get(b, keys[0]), d.fields[keys[0]], path + [keys[0]], protected, order)
      == Done(s)
    requires SpliceKeys(f, touched, b, d, keys, path, protected, order).Done?
    ensures var m := Rebuild(f, keys[0], s.focus);
      var g := SpliceKeys(f, touched, b, d, keys, path, protected, order).value.focus;
      && (forall k: string :: Child(f, k).At? && Child(g, k).At? ==> Child(m, k).At?)
      && (forall k: string :: !Child(f, k).At? && Child(m, k).At? ==> Child(g, k).At?)
      && (Child(m, keys[0]).At? <==> Child(g, keys[0]).At?)
      && (forall k :: k in keys[1..] ==> (Child(f, k).At? <==> Child(m, k).At?))
  {
    var h := keys[0];
    var m := Rebuild(f, h, s.focus);
    var g := SpliceKeys(f, touched, b, d, keys, path, protected, order).value.focus;
    DistinctTail(keys);
    SpliceFits(Child(f, h), Get(b, h), d.fields[h], path + [h], protected, order);
    KeysLeaveOthers(m, touched || s.touched, b, d, keys[1..], path, protected, order, h);
    hide Splice, SpliceKeys;
    forall k: string | k != h ensures Child(m, k).At? <==> Child(f, k).At? { ChildOfRebuild(f, h, s.focus, k); }
  }

  // ----- the laws -----

  /** For any document, baseline, draft and protected paths: the keys of a mapping after a
      splice of objects are the old ones that did not lose their node, in the order they stood
      in, followed by the new ones in the order the draft enumerates them; keys that are no
      strings, the flow style and everything else written stay. A mapping that was not there
      is written as a new one. */
  lemma SplicedKeys(f: Focus, b: Json, d: Json, path: Path, protected: set<string>, order: KeyOrder)
    requires Lists(order) && (IsMapping(f) || f.Missing?) && b.Obj? && d.Obj?
    requires Splice(f, b, d, path, protected, order).Done?
    ensures var g := Splice(f, b, d, path, protected, order).value.focus;
      && KeysOf(g) == Staying(KeysOf(f), f, g) + Names(Added(order(path, d.fields.Keys), f, g))
      && WrittenAlike(f, g)
  {
    var keys := order(path, d.fields.Keys);
    var g := Splice(f, b, d, path, protected, order).value.focus;
    if Join(path) in protected || JsonEqual(b, d) {
      AllStay(KeysOf(f), f, f);
      NothingAdded(keys, f, f);
      assert Names([]) == [];
    } else {
      var gone := order(path, b.fields.Keys);
      var s := SpliceDrops(f, false, d.fields, gone).value;
      var m := s.focus;
      DropsEach(f, false, d.fields, gone, "");
      if IsMapping(f) { DropKeysAfter(f, false, d.fields, gone); } else { AllStay([], f, m); }
      KeysAfter(m, s.touched, b.fields, d, keys, path, protected, order);
      forall k: string
        ensures Child(m, k).At? ==> Child(f, k).At?
        ensures Child(f, k).At? && Child(g, k).At? ==> Child(m, k).At?
        ensures k in keys ==> (Child(f, k).At? <==> Child(m, k).At?)
      {
        DropsEach(f, false, d.fields, gone, k);
        if k !in keys { KeysLeaveOthers(m, s.touched, b.fields, d, keys, path, protected, order, k); }
      }
      NothingAdded([], f, m);
      hide Splice, SpliceDrops, SpliceKeys, Child;
      KeysCompose(f, m, g, [], keys);
    }
  }

  /** Every key of the mapping is listed once, and nothing else. */
  ghost predicate Listed(f: Focus) {
    IsMapping(f) ==>
      && Once(f.node.keys)
      && (forall k :: Name(k) in f.node.keys <==> k in f.node.fields)
      && (forall k :: Shown(k) in f.node.keys <==> k in f.node.others)
  }

  /** A splice lists every key once again. */
  lemma SplicedIsListed(f: Focus, b: Json, d: Json, path: Path, protected: set<string>, order: KeyOrder)
    requires Lists(order) && (IsMapping(f) || f.Missing?) && b.Obj? && d.Obj? && Listed(f)
    requires Splice(f, b, d, path, protected, order).Done?
    ensures Listed(Splice(f, b, d, path, protected, order).value.focus)
  {
    var g := Splice(f, b, d, path, protected, order).value.focus;
    var keys := order(path, d.fields.Keys);
    SplicedKeys(f, b, d, path, protected, order);
    forall k: string | Child(g, k).At? && !Child(f, k).At? ensures k in keys {
      OnlyDraftKeysAreNew(f, b, d, path, protected, order, k);
    }
    hide Splice, Child;
    forall k: Key ensures k in Staying(KeysOf(f), f, g) <==> k in KeysOf(f) && Stays(f, g, k) {
      StayingHas(KeysOf(f), f, g, k);
    }
    StayingOnce(KeysOf(f), f, g);
    AddedHas(keys, f, g);
    IsListed(f, g, Staying(KeysOf(f), f, g), Added(keys, f, g));
  }

  lemma OnlyDraftKeysAreNew(f: Focus, b: Json, d: Json, path: Path, protected: set<string>, order: KeyOrder, k: string)
    requires Lists(order) && (IsMapping(f) || f.Missing?) && b.Obj? && d.Obj?
    requires Splice(f, b, d, path, protected, order).Done?
    requires Child(Splice(f, b, d, path, protected, order).value.focus, k).At? && !Child(f, k).At?
    ensures k in d.fields
  {
    if Join(path) !in protected && !JsonEqual(b, d) {
      var gone, keys := order(path, b.fields.Keys), order(path, d.fields.Keys);
      var s := SpliceDrops(f, false, d.fields, gone).value;
      DropsEach(f, false, d.fields, gone, k);
      if k !in keys { KeysLeaveOthers(s.focus, s.touched, b.fields, d, keys, path, protected, order, k); }
    }
  }

  lemma {:induction false} StayingHas(keys: seq<Key>, f: Focus, g: Focus, key: Key)
    ensures key in Staying(keys, f, g) <==> key in keys && Stays(f, g, key)
  {
    hide Stays;
    if keys != [] {
      StayingHas(keys[1..], f, g, key);
      assert keys == [keys[0]] + keys[1..];
    }
  }

  ghost predicate Once(keys: seq<Key>) {
    forall i, j :: 0 <= i < j < |keys| ==> keys[i] != keys[j]
  }

  lemma {:induction false} StayingOnce(keys: seq<Key>, f: Focus, g: Focus)
    requires Once(keys)
    ensures Once(Staying(keys, f, g))
  {
    hide Stays;
    if keys != [] {
      StayingOnce(keys[1..], f, g);
      StayingHas(keys[1..], f, g, keys[0]);
      ApartFrom([keys[0]], Staying(keys[1..], f, g));
    }
  }

  lemma {:induction false} AddedHas(keys: seq<string>, f: Focus, g: Focus)
    ensures forall k :: k in Added(keys, f, g) <==> k in keys && !Child(f, k).At? && Child(g, k).At?
    ensures Distinct(keys) ==> Distinct(Added(keys, f, g))
  {
    hide Child;
    if keys != [] {
      AddedHas(keys[1..], f, g);
      assert keys == [keys[0]] + keys[1..];
      var rest := Added(keys[1..], f, g);
      assert forall i :: 0 <= i < |rest| ==> rest[i] in rest;
    }
  }

  lemma IsListed(f: Focus, g: Focus, stood: seq<Key>, added: seq<string>)
    requires (IsMapping(f) || f.Missing?) && Listed(f) && WrittenAlike(f, g) && KeysOf(g) == stood + Names(added)
    requires forall k :: k in stood <==> k in KeysOf(f) && Stays(f, g, k)
    requires Once(stood)
    requires Distinct(added) && forall k :: k in added <==> !Child(f, k).At? && Child(g, k).At?
    ensures Listed(g)
  {
    if IsMapping(g) {
      NamesHave(added);
      ListsItsKeys(f, g, stood, added);
      forall k: Key | k in stood ensures k !in Names(added) {
        if k.Name? { assert Name(k.text) in KeysOf(f) <==> Child(f, k.text).At?; }
      }
      hide Child, Names, Stays;
      ApartFrom(stood, Names(added));
    }
  }

  lemma ListsItsKeys(f: Focus, g: Focus, stood: seq<Key>, added: seq<string>)
    requires (IsMapping(f) || f.Missing?) && Listed(f) && IsMapping(g) && WrittenAlike(f, g)
    requires KeysOf(g) == stood + Names(added)
    requires forall k :: k in stood <==> k in KeysOf(f) && Stays(f, g, k)
    requires forall k :: k in added <==> !Child(f, k).At? && Child(g, k).At?
    ensures forall k :: Name(k) in g.node.keys <==> k in g.node.fields
    ensures forall k :: Shown(k) in g.node.keys <==> k in g.node.others
  {
    NamesHave(added);
    hide Names;
    forall k ensures Name(k) in g.node.keys <==> k in g.node.fields {
      assert Name(k) in g.node.keys <==> Name(k) in stood || k in added;
      assert k in g.node.fields <==> Child(g, k).At?;
      assert Name(k) in KeysOf(f) <==> Child(f, k).At?;
    }
  }

  lemma ApartFrom(a: seq<Key>, b: seq<Key>)
    requires Once(a) && Once(b) && forall k :: k in a ==> k !in b
    ensures Once(a + b)
  {
    forall i, j | 0 <= i < |a| <= j < |a + b| ensures (a + b)[i] != (a + b)[j] {
      assert a[i] in a && b[j - |a|] in b;
    }
  }

  lemma NamesHave(texts: seq<string>)
    ensures forall k :: Name(k) in Names(texts) <==> k in texts
    ensures forall k :: Shown(k) !in Names(texts)
  {
    forall k | k in texts ensures Name(k) in Names(texts) {
      var i :| 0 <= i < |texts| && texts[i] == k;
      assert Names(texts)[i] == Name(k);
    }
  }

  // ----- where nothing stands -----

  lemma {:induction false} AllAdded(keys: seq<string>, f: Focus, g: Focus)
    requires forall k :: k in keys ==> !Child(f, k).At? && Child(g, k).At?
    ensures Added(keys, f, g) == keys
  {
    if keys != [] {
      assert keys == [keys[0]] + keys[1..];
      AllAdded(keys[1..], f, g);
    }
  }

  /** Setting the keys of an object one by one where nothing stands leaves the very node that
      creating the object at once does: its keys as they enumerate, in block style. */
  lemma BuiltIsCreated(p: bool, d: Json, path: Path, order: KeyOrder)
    requires Lists(order) && d.Obj? && Plain(d) && d != EMPTY && forall k :: k in d.fields ==> !d.fields[k].Undefined?
    requires Splice(Missing(p), EMPTY, d, path, {}, order).Done?
    ensures Splice(Missing(p), EMPTY, d, path, {}, order).value.focus == At(CreateNode(d, path, order))
  {
    var f, g := Missing(p), Splice(Missing(p), EMPTY, d, path, {}, order).value.focus;
    var keys := order(path, d.fields.Keys);
    JsonEqualIsIdentity(EMPTY, d);
    SplicedKeys(f, EMPTY, d, path, {}, order);
    forall k | k in d.fields ensures Child(g, k) == At(CreateNode(d.fields[k], path + [k], order)) {
      BuiltChild(p, d, path, order, k);
    }
    forall k: string | k !in d.fields ensures !Child(g, k).At? {
      if Child(g, k).At? { OnlyDraftKeysAreNew(f, EMPTY, d, path, {}, order, k); }
    }
    hide Splice;
    AllAdded(keys, f, g);
    assert exists k :: k in d.fields && Child(g, k).At?;
    IsCreated(g, d, path, order);
  }

  lemma IsCreated(g: Focus, d: Json, path: Path, order: KeyOrder)
    requires d.Obj? && IsMapping(g) && forall k :: k in d.fields ==> !d.fields[k].Undefined?
    requires forall k :: k in d.fields ==> Child(g, k) == At(CreateNode(d.fields[k], path + [k], order))
    requires forall k: string :: k !in d.fields ==> !Child(g, k).At?
    requires KeysOf(g) == Names(order(path, d.fields.Keys)) && WrittenAlike(Missing(true), g)
    ensures g == At(CreateNode(d, path, order))
  {
    var n := CreateNode(d, path, order);
    assert (set k | k in d.fields && !d.fields[k].Undefined?) == d.fields.Keys;
    assert n.keys == KeysOf(g);
    forall k ensures k in g.node.fields <==> k in d.fields { assert k in g.node.fields <==> Child(g, k).At?; }
    forall k | k in d.fields ensures g.node.fields[k] == CreateNode(d.fields[k], path + [k], order) {
      assert Child(g, k) == At(g.node.fields[k]);
    }
    assert n.fields == g.node.fields;
  }

  lemma BuiltChild(p: bool, d: Json, path: Path, order: KeyOrder, k: string)
    requires Lists(order) && d.Obj? && Plain(d) && k in d.fields && !d.fields[k].Undefined? && !JsonEqual(EMPTY, d)
    requires Splice(Missing(p), EMPTY, d, path, {}, order).Done?
    ensures Child(Splice(Missing(p), EMPTY, d, path, {}, order).value.focus, k)
         == At(CreateNode(d.fields[k], path + [k], order))
  {
    var c := SplicedChild(Missing(p), EMPTY, d, path, {}, order, k);
    JsonEqualIsIdentity(Get(map[], k), d.fields[k]);
  }

  // ----- the place a write goes to -----

  /** Above the place that is written or deleted every mapping keeps its style, its other keys
      in their order and the nodes under them; the next key of the path goes last if it is new,
      and goes if its node does. A mapping that was not there is written as a new one. */
  lemma {:induction false} AbovePlace(f: Focus, path: Path, x: Focus, q: Path, h: string)
    requires q + [h] <= path
    requires (x.At? && !FocusAt(f, path).Blocked?) || (x == Missing(true) && FocusAt(f, path).At?)
    ensures var stood, g := FocusAt(f, q), FocusAt(Put(f, path, x), q);
      && (IsMapping(stood) || stood.Missing?) && IsMapping(g) && WrittenAlike(stood, g)
      && KeysOf(g) == Staying(KeysOf(stood), stood, g) + Names(Added([h], stood, g))
      && forall k: string :: k != h ==>
        if Child(stood, k).At? then Child(g, k) == Child(stood, k) else !Child(g, k).At?
    decreases q
  {
    BelowBlocked(f, path);
    BelowBlocked(Child(f, path[0]), path[1..]);
    PutFits(Child(f, path[0]), path[1..], x);
    if x.At? { FillingFills(Child(f, path[0]), path[1..], x); }
    if q == [] {
      assert h == path[0];
      RebuildKeys(f, h, Put(Child(f, h), path[1..], x));
    } else {
      assert q[0] == path[0] && (q + [h])[1..] == q[1..] + [h];
      AbovePlace(Child(f, path[0]), path[1..], x, q[1..], h);
    }
  }
}
