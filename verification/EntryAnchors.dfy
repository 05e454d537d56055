/** Anchors and aliases of a document, and when every alias stands for an anchored node. */
module EntryAnchors {
  import opened Json
  import opened Text
  import opened EntryDocument
  import opened EntrySplice
  import opened EntryWrite
  import opened EntryPaths
  import opened EntryLaws

  /** A name at the node that has it for an anchor, or on an alias of the node it stands for. */
  datatype Tie = Anchored(name: string, node: Node) | Aliased(name: string, node: Node)

  function OwnTies(n: Node): set<Tie> {
    match n
    case Alias(source, target) => {Aliased(source, target)}
    case _ => if n.style.anchor.Some? then {Anchored(n.style.anchor.value, n)} else {}
  }

  /** The anchors and aliases in `n`; an alias's target is elsewhere. */
  function Ties(n: Node): set<Tie> {
    OwnTies(n) + match n
      case Sequence(items, _, _) => set i, t | 0 <= i < |items| && t in Ties(items[i]) :: t
      case Mapping(_, fields, others, _, _) =>
        (set k, t | k in fields && t in Ties(fields[k]) :: t) + (set k, t | k in others && t in Ties(others[k]) :: t)
      case _ => {}
  }

  function TiesAt(f: Focus): set<Tie> {
    if f.At? then Ties(f.node) else {}
  }

  /** Every alias stands for a node that has its name for an anchor. */
  ghost predicate Tied(ties: set<Tie>) {
    forall t :: t in ties && t.Aliased? ==> Anchored(t.name, t.node) in ties
  }

  // ----- one anchor of a name -----

  function AnchorNames(ties: set<Tie>): set<string> {
    set t | t in ties && t.Anchored? :: t.name
  }

  /** A mapping's node under a key of either kind. */
  function PartAt(n: Node, key: Key): Option<Node>
    requires n.Mapping?
  {
    match key
    case Name(k) => if k in n.fields then Some(n.fields[k]) else None
    case Shown(k) => if k in n.others then Some(n.others[k]) else None
  }

  function PartNames(n: Node, key: Key): set<string>
    requires n.Mapping?
  {
    if PartAt(n, key).Some? then AnchorNames(Ties(PartAt(n, key).value)) else {}
  }

  /** No anchor is defined twice. */
  ghost predicate Single(n: Node) {
    match n
    case Sequence(items, _, _) =>
      && (forall i :: 0 <= i < |items| ==> Single(items[i]) && AnchorNames(Ties(items[i])) !! AnchorNames(OwnTies(n)))
      && (forall i, j :: 0 <= i < j < |items| ==> AnchorNames(Ties(items[i])) !! AnchorNames(Ties(items[j])))
    case Mapping(_, fields, others, _, _) =>
      && (forall k :: k in fields ==> Single(fields[k]))
      && (forall k :: k in others ==> Single(others[k]))
      && (forall k: Key :: PartNames(n, k) !! AnchorNames(OwnTies(n)))
      && (forall j: Key, k: Key :: j != k ==> PartNames(n, j) !! PartNames(n, k))
    case _ => true
  }

  /** Two nodes side by side share no anchor, and that is all. */
  lemma PairIsSingle(x: Node, y: Node, j: string, k: string, flow: bool, text: string)
    requires Single(x) && Single(y) && j != k
    ensures Single(Sequence([x, y], flow, Style(None, text))) <==> AnchorNames(Ties(x)) !! AnchorNames(Ties(y))
    ensures Single(Mapping([Name(j), Name(k)], map[j := x, k := y], map[], flow, Style(None, text)))
      <==> AnchorNames(Ties(x)) !! AnchorNames(Ties(y))
  {
    var list := Sequence([x, y], flow, Style(None, text));
    var n := Mapping([Name(j), Name(k)], map[j := x, k := y], map[], flow, Style(None, text));
    hide Ties;
    assert list.items[0] == x && list.items[1] == y;
    assert n.fields[j] == x && n.fields[k] == y;
    assert PartNames(n, Name(j)) == AnchorNames(Ties(x)) && PartNames(n, Name(k)) == AnchorNames(Ties(y));
    assert forall other: Key :: other != Name(j) && other != Name(k) ==> PartNames(n, other) == {};
  }

  /** What reading the document's text again gives: its aliases stand for its anchored nodes,
      and no anchor is defined twice. */
  ghost predicate Consistent(f: Focus) {
    Tied(TiesAt(f)) && (f.At? ==> Single(f.node))
  }

  /** In which part of a mapping an anchored node stands, unless it is the mapping. */
  lemma TiedPart(n: Node, t: Tie) returns (key: Key)
    requires n.Mapping? && t in Ties(n) && t !in OwnTies(n)
    ensures PartAt(n, key).Some? && t in Ties(PartAt(n, key).value)
    ensures t.Anchored? ==> t.name in PartNames(n, key)
  {
    if k :| k in n.fields && t in Ties(n.fields[k]) {
      key := Name(k);
    } else {
      var k :| k in n.others && t in Ties(n.others[k]);
      key := Shown(k);
    }
  }

  lemma TiedItem(n: Node, t: Tie) returns (i: nat)
    requires n.Sequence? && t in Ties(n) && t !in OwnTies(n)
    ensures i < |n.items| && t in Ties(n.items[i])
    ensures t.Anchored? ==> t.name in AnchorNames(Ties(n.items[i]))
  {
    i :| 0 <= i < |n.items| && t in Ties(n.items[i]);
  }

  lemma OwnIsAlone(n: Node, s: Tie, t: Tie)
    requires Single(n) && s in OwnTies(n) && t in Ties(n) && s.Anchored? && t.Anchored? && s.name == t.name
    ensures s == t
  {
    assert s.name in AnchorNames(OwnTies(n));
    if t !in OwnTies(n) {
      if n.Mapping? {
        var k := TiedPart(n, t);
      } else if n.Sequence? {
        var i := TiedItem(n, t);
      }
    }
  }

  /** Then an anchor's name has one node. */
  lemma {:induction false} SingleTies(n: Node, s: Tie, t: Tie)
    requires Single(n) && s in Ties(n) && t in Ties(n) && s.Anchored? && t.Anchored? && s.name == t.name
    ensures s == t
  {
    if s in OwnTies(n) {
      OwnIsAlone(n, s, t);
    } else if t in OwnTies(n) {
      OwnIsAlone(n, t, s);
    } else if n.Mapping? {
      var j := TiedPart(n, s);
      var k := TiedPart(n, t);
      if j == k { SingleTies(PartAt(n, j).value, s, t); }
    } else if n.Sequence? {
      var i := TiedItem(n, s);
      var j := TiedItem(n, t);
      if i == j { SingleTies(n.items[i], s, t); }
    }
  }

  lemma {:induction false} UntiedIsSingle(n: Node)
    requires Ties(n) == {}
    ensures Single(n)
  {
    match n {
      case Sequence(items, _, _) =>
        forall i | 0 <= i < |items| ensures Ties(items[i]) == {} && Single(items[i]) {
          assert forall t :: t in Ties(items[i]) ==> t in Ties(n);
          UntiedIsSingle(items[i]);
        }
      case Mapping(_, fields, others, _, _) =>
        forall k | k in fields ensures Ties(fields[k]) == {} && Single(fields[k]) {
          assert forall t :: t in Ties(fields[k]) ==> t in Ties(n);
          UntiedIsSingle(fields[k]);
        }
        forall k | k in others ensures Ties(others[k]) == {} && Single(others[k]) {
          assert forall t :: t in Ties(others[k]) ==> t in Ties(n);
          UntiedIsSingle(others[k]);
        }
        assert forall k: Key :: PartNames(n, k) == {};
      case _ =>
    }
  }

  /** The ties of a mapping are its own and those of its nodes. */
  lemma TiesByKey(f: Focus, t: Tie)
    requires IsMapping(f)
    ensures t in TiesAt(f) <==>
      || t in OwnTies(f.node)
      || (exists k: string :: t in TiesAt(Child(f, k)))
      || (exists k :: k in f.node.others && t in Ties(f.node.others[k]))
  {
    if k :| k in f.node.fields && t in Ties(f.node.fields[k]) { assert t in TiesAt(Child(f, k)); }
  }

  // ----- fresh nodes -----

  lemma {:induction false} CreatedIsUntied(v: Json, path: Path, order: KeyOrder)
    ensures Ties(CreateNode(v, path, order)) == {}
  {
    match v {
      case Arr(items) =>
        forall i | 0 <= i < |items|
          ensures Ties(CreateNode(items[i], path + [Decimal(i)], order)) == {}
        {
          CreatedIsUntied(items[i], path + [Decimal(i)], order);
        }
      case Obj(fields) =>
        forall k | k in fields && !fields[k].Undefined?
          ensures Ties(CreateNode(fields[k], path + [k], order)) == {}
        {
          CreatedIsUntied(fields[k], path + [k], order);
        }
      case _ =>
    }
  }

  lemma FlowUntied(n: Node, existing: Node)
    requires Ties(n) == {}
    ensures Ties(WithFlow(n, existing)) == {}
  {
    assert OwnTies(n) <= Ties(n);
  }

  lemma {:induction false} BuiltIsUntied(p: bool, b: Json, d: Json, path: Path, protected: set<string>, order: KeyOrder)
    requires Lists(order) && Splice(Missing(p), b, d, path, protected, order).Done?
    ensures var x := Splice(Missing(p), b, d, path, protected, order).value.focus; TiesAt(x) == {}
    decreases d, 1, 0
  {
    if Join(path) !in protected && !JsonEqual(b, d) {
      if b.Obj? && d.Obj? {
        var gone := order(path, b.fields.Keys);
        DropsEach(Missing(p), false, d.fields, gone, "");
        var s := SpliceDrops(Missing(p), false, d.fields, gone).value;
        KeysUntied(s.focus, s.touched, b.fields, d, order(path, d.fields.Keys), path, protected, order);
      } else {
        CreatedIsUntied(d, path, order);
      }
    }
  }

  lemma {:induction false} KeysUntied(f: Focus, touched: bool, b: map<string, Json>, d: Json, keys: seq<string>,
                                      path: Path, protected: set<string>, order: KeyOrder)
    requires Lists(order) && d.Obj? && Distinct(keys) && forall k :: k in keys ==> k in d.fields
    requires f.Missing? || (IsMapping(f) && forall k :: k in keys ==> k !in f.node.fields)
    requires TiesAt(f) == {}
    requires SpliceKeys(f, touched, b, d, keys, path, protected, order).Done?
    ensures var x := SpliceKeys(f, touched, b, d, keys, path, protected, order).value.focus; TiesAt(x) == {}
    decreases d, 0, |keys|
  {
    if keys != [] {
      var h := keys[0];
      var c := Child(f, h);
      var s := Splice(c, Get(b, h), d.fields[h], path + [h], protected, order).value;
      var g := Rebuild(f, h, s.focus);
      DistinctTail(keys);
      BuiltIsUntied(c.parent, Get(b, h), d.fields[h], path + [h], protected, order);
      SpliceFits(c, Get(b, h), d.fields[h], path + [h], protected, order);
      hide Splice;
      RebuildUntied(f, h, s.focus);
      KeysUntied(g, touched || s.touched, b, d, keys[1..], path, protected, order);
    }
  }

  lemma RebuildUntied(f: Focus, h: string, x: Focus)
    requires f.Missing? || (IsMapping(f) && h !in f.node.fields)
    requires TiesAt(f) == {} && TiesAt(x) == {}
    ensures TiesAt(Rebuild(f, h, x)) == {}
  {
    if x.At? {
      var g := Rebuild(f, h, x);
      assert f.At? ==> OwnTies(f.node) <= Ties(f.node);
      forall t ensures t !in TiesAt(g) {
        TiesByKey(g, t);
        if f.At? { TiesByKey(f, t); }
        hide Ties;
        forall k: string ensures t !in TiesAt(Child(g, k)) {
          assert Child(g, k) == x || !Child(g, k).At? || (f.At? && Child(g, k) == Child(f, k));
        }
      }
    }
  }
}
