/** What a write leaves of a document's anchors and aliases: exactly when every alias still
    stands for an anchored node afterwards. */
module EntryTies {
  import opened Json
  import opened EntryDocument
  import opened EntrySplice
  import opened EntryWrite
  import opened EntryPaths
  import opened EntryLaws
  import opened EntryAnchors

  // ----- what is left -----

  /** The largest parts of the document that the write leaves as they stand: all of it where
      the write is idle, the parts of an edited mapping that it leaves, and nothing of what
      is cleared or replaced. */
  ghost function PartsLeft(f: Focus, b: Json, d: Json, path: Path, protected: set<string>, order: KeyOrder): set<Node>
    decreases d, 1
  {
    if !f.At? then {}
    else if Idle(f, b, d, path, protected, order) then {f.node}
    else if b.Obj? && d.Obj? && IsMapping(f) then
      (set k, n | k in f.node.fields && n in PartsBelow(f, b, d, path, protected, order, k) :: n)
      + (set k | k in f.node.others :: f.node.others[k])
    else {}
  }

  /** The same under one string key of an edited mapping: a dropped key leaves nothing. */
  ghost function PartsBelow(f: Focus, b: Json, d: Json, path: Path, protected: set<string>, order: KeyOrder, k: string):
      set<Node>
    requires b.Obj? && d.Obj?
    decreases d, 0
  {
    if k in d.fields then
      PartsLeft(Child(f, k), Get(b.fields, k), d.fields[k], path + [k], protected, order)
    else if Child(f, k).At? && (k !in b.fields || k in PROTOTYPE_NAMES) then {Child(f, k).node}
    else {}
  }

  function TiesIn(parts: set<Node>): set<Tie> {
    set n, t | n in parts && t in Ties(n) :: t
  }

  /** The anchors and aliases left. */
  ghost function TiesLeft(f: Focus, b: Json, d: Json, path: Path, protected: set<string>, order: KeyOrder): set<Tie> {
    TiesIn(PartsLeft(f, b, d, path, protected, order))
  }

  // ----- what the write makes of them -----

  function NamesAt(f: Focus): set<string> {
    AnchorNames(TiesAt(f))
  }

  /** The name stood at another node before. */
  ghost predicate Moved(f: Focus, t: Tie) {
    t.Anchored? && exists n :: Anchored(t.name, n) in TiesAt(f) && n != t.node
  }

  /** `x` holds the ties left, no other alias, and beside them only anchors that an edit has
      moved to another node. */
  ghost predicate Leaves(f: Focus, x: Focus, parts: set<Node>) {
    && TiesIn(parts) <= TiesAt(x)
    && (forall t :: t in TiesAt(x) ==> t in TiesIn(parts) || Moved(f, t))
    && TiesIn(parts) <= TiesAt(f)
    && (!f.At? ==> TiesAt(x) == {})
    && (f.At? && Single(f.node) && x.At? ==> Single(x.node))
    && NamesAt(x) <= NamesAt(f)
  }

  lemma LeavesAll(f: Focus)
    requires f.At?
    ensures Leaves(f, f, {f.node})
  {
  }

  lemma LeavesNothing(f: Focus, x: Focus)
    requires TiesAt(x) == {}
    ensures Leaves(f, x, {})
  {
    if x.At? { UntiedIsSingle(x.node); }
  }

  lemma NothingBelow(f: Focus, b: Json, d: Json, path: Path, protected: set<string>, order: KeyOrder, k: string)
    requires b.Obj? && d.Obj? && !Child(f, k).At?
    ensures PartsBelow(f, b, d, path, protected, order, k) == {}
  {
  }

  /** What is left under a key, or under a key that is no string, is left. */
  lemma LeftBelow(f: Focus, b: Json, d: Json, path: Path, protected: set<string>, order: KeyOrder, k: string, t: Tie)
    requires IsMapping(f) && b.Obj? && d.Obj? && !Idle(f, b, d, path, protected, order)
    requires || t in TiesIn(PartsBelow(f, b, d, path, protected, order, k))
             || (k in f.node.others && t in Ties(f.node.others[k]))
    ensures t in TiesLeft(f, b, d, path, protected, order)
  {
    hide Idle, PartsBelow, Ties;
    var parts := PartsLeft(f, b, d, path, protected, order);
    if t in TiesIn(PartsBelow(f, b, d, path, protected, order, k)) {
      if k !in f.node.fields { NothingBelow(f, b, d, path, protected, order, k); }
      var n :| n in PartsBelow(f, b, d, path, protected, order, k) && t in Ties(n);
      assert n in parts;
    } else {
      assert f.node.others[k] in parts;
    }
  }

  /** And nothing else is. */
  lemma LeftByKey(f: Focus, b: Json, d: Json, path: Path, protected: set<string>, order: KeyOrder, t: Tie)
    returns (k: string)
    requires IsMapping(f) && b.Obj? && d.Obj? && !Idle(f, b, d, path, protected, order)
    requires t in TiesLeft(f, b, d, path, protected, order)
    ensures || t in TiesIn(PartsBelow(f, b, d, path, protected, order, k))
            || (k in f.node.others && t in Ties(f.node.others[k]))
  {
    hide Idle, PartsBelow, Ties;
    var n :| n in PartsLeft(f, b, d, path, protected, order) && t in Ties(n);
    if j :| j in f.node.fields && n in PartsBelow(f, b, d, path, protected, order, j) {
      k := j;
    } else {
      k :| k in f.node.others && n == f.node.others[k];
    }
  }

  /** A mapping whose children are left, each in its way. */
  lemma MappingLeaves(f: Focus, g: Focus, b: Json, d: Json, path: Path, protected: set<string>, order: KeyOrder)
    requires IsMapping(f) && IsMapping(g) && f.node != g.node && b.Obj? && d.Obj?
    requires !Idle(f, b, d, path, protected, order)
    requires f.node.style == g.node.style && f.node.others == g.node.others
    requires forall k: string :: Leaves(Child(f, k), Child(g, k), PartsBelow(f, b, d, path, protected, order, k))
    ensures Leaves(f, g, PartsLeft(f, b, d, path, protected, order))
  {
    hide Idle, PartsLeft, PartsBelow, Ties, Single, TiesIn, AnchorNames, TiesLeft;
    assert TiesLeft(f, b, d, path, protected, order) == TiesIn(PartsLeft(f, b, d, path, protected, order)) by {
      LeftIsIn(f, b, d, path, protected, order);
    }
    forall t: Tie
      ensures t in TiesLeft(f, b, d, path, protected, order) ==> t in TiesAt(g) && t in TiesAt(f)
      ensures t in TiesAt(g) ==> t in TiesLeft(f, b, d, path, protected, order) || Moved(f, t)
    {
      if t in TiesLeft(f, b, d, path, protected, order) { LeftTieStays(f, g, b, d, path, protected, order, t); }
      if t in TiesAt(g) { TieIsLeft(f, g, b, d, path, protected, order, t); }
    }
    NamesLeft(f, g);
    if Single(f.node) { SingleLeft(f, g); }
  }

  lemma LeftIsIn(f: Focus, b: Json, d: Json, path: Path, protected: set<string>, order: KeyOrder)
    ensures TiesLeft(f, b, d, path, protected, order) == TiesIn(PartsLeft(f, b, d, path, protected, order))
  {
  }

  lemma LeftTieStays(f: Focus, g: Focus, b: Json, d: Json, path: Path, protected: set<string>, order: KeyOrder, t: Tie)
    requires IsMapping(f) && IsMapping(g) && f.node != g.node && b.Obj? && d.Obj?
    requires !Idle(f, b, d, path, protected, order)
    requires f.node.style == g.node.style && f.node.others == g.node.others
    requires forall k: string :: Leaves(Child(f, k), Child(g, k), PartsBelow(f, b, d, path, protected, order, k))
    requires t in TiesLeft(f, b, d, path, protected, order)
    ensures t in TiesAt(g) && t in TiesAt(f)
  {
    hide Idle, PartsLeft, PartsBelow, Ties, Single, TiesIn, AnchorNames, TiesLeft, Moved, TiesAt, Child;
    TiesByKey(f, t);
    TiesByKey(g, t);
    var k := LeftByKey(f, b, d, path, protected, order, t);
    assert Leaves(Child(f, k), Child(g, k), PartsBelow(f, b, d, path, protected, order, k));
  }

  lemma TieIsLeft(f: Focus, g: Focus, b: Json, d: Json, path: Path, protected: set<string>, order: KeyOrder, t: Tie)
    requires IsMapping(f) && IsMapping(g) && f.node != g.node && b.Obj? && d.Obj?
    requires !Idle(f, b, d, path, protected, order)
    requires f.node.style == g.node.style && f.node.others == g.node.others
    requires forall k: string :: Leaves(Child(f, k), Child(g, k), PartsBelow(f, b, d, path, protected, order, k))
    requires t in TiesAt(g)
    ensures t in TiesLeft(f, b, d, path, protected, order) || Moved(f, t)
  {
    hide Idle, PartsLeft, Ties, Single, TiesIn, AnchorNames, TiesLeft, Moved, TiesAt, Child;
    TiesByKey(g, t);
    if t in OwnTies(g.node) {
      OwnMoves(f, g, t);
    } else if k: string :| t in TiesAt(Child(g, k)) {
      assert Leaves(Child(f, k), Child(g, k), PartsBelow(f, b, d, path, protected, order, k));
      if Moved(Child(f, k), t) { MovedUp(f, k, t); } else { LeftBelow(f, b, d, path, protected, order, k, t); }
    } else {
      var k :| k in f.node.others && t in Ties(f.node.others[k]);
      LeftBelow(f, b, d, path, protected, order, k, t);
    }
  }

  lemma OwnMoves(f: Focus, g: Focus, t: Tie)
    requires IsMapping(f) && IsMapping(g) && f.node != g.node && f.node.style == g.node.style && t in OwnTies(g.node)
    ensures Moved(f, t)
  {
    TiesByKey(f, Anchored(t.name, f.node));
    assert Anchored(t.name, f.node) in TiesAt(f);
  }

  lemma MovedUp(f: Focus, k: string, t: Tie)
    requires IsMapping(f) && Moved(Child(f, k), t)
    ensures Moved(f, t)
  {
    var n :| Anchored(t.name, n) in TiesAt(Child(f, k)) && n != t.node;
    TiesByKey(f, Anchored(t.name, n));
  }

  lemma NamesLeft(f: Focus, g: Focus)
    requires IsMapping(f) && IsMapping(g) && f.node.style == g.node.style && f.node.others == g.node.others
    requires forall k: string :: NamesAt(Child(g, k)) <= NamesAt(Child(f, k))
    ensures NamesAt(g) <= NamesAt(f)
  {
    hide Ties;
    forall name | name in NamesAt(g) ensures name in NamesAt(f) {
      var t :| t in TiesAt(g) && t.Anchored? && t.name == name;
      TiesByKey(g, t);
      if t in OwnTies(g.node) {
        TiesByKey(f, Anchored(name, f.node));
        assert Anchored(name, f.node) in TiesAt(f);
      } else if k: string :| t in TiesAt(Child(g, k)) {
        assert name in NamesAt(Child(g, k)) && name in NamesAt(Child(f, k));
        var s :| s in TiesAt(Child(f, k)) && s.Anchored? && s.name == name;
        TiesByKey(f, s);
      } else {
        TiesByKey(f, t);
      }
    }
  }

  lemma SingleLeft(f: Focus, g: Focus)
    requires IsMapping(f) && IsMapping(g) && f.node.style == g.node.style && f.node.others == g.node.others
    requires forall k: string :: NamesAt(Child(g, k)) <= NamesAt(Child(f, k))
    requires forall k: string ::
      Child(f, k).At? && Single(Child(f, k).node) && Child(g, k).At? ==> Single(Child(g, k).node)
    requires forall k: string :: Child(g, k).At? ==> Child(f, k).At? || Ties(Child(g, k).node) == {}
    requires Single(f.node)
    ensures Single(g.node)
  {
    hide Ties, AnchorNames;
    forall key: Key ensures PartNames(g.node, key) <= PartNames(f.node, key) {
      if key.Name? {
        assert NamesAt(Child(g, key.text)) <= NamesAt(Child(f, key.text));
        NoNames();
      }
    }
    assert AnchorNames(OwnTies(g.node)) == AnchorNames(OwnTies(f.node)) by { SameOwnNames(f.node, g.node); }
    forall k | k in g.node.fields ensures Single(g.node.fields[k]) {
      assert Child(g, k) == At(g.node.fields[k]);
      if !Child(f, k).At? { UntiedIsSingle(g.node.fields[k]); }
    }
  }

  lemma NoNames()
    ensures AnchorNames({}) == {}
  {
  }

  lemma SameOwnNames(m: Node, n: Node)
    requires m.Mapping? && n.Mapping? && m.style == n.style
    ensures AnchorNames(OwnTies(m)) == AnchorNames(OwnTies(n))
  {
    if m.style.anchor.Some? {
      assert Anchored(m.style.anchor.value, m) in OwnTies(m) && Anchored(m.style.anchor.value, n) in OwnTies(n);
    }
  }

  /** What any write makes of a document's ties. */
  lemma {:induction false} WriteLeaves(f: Focus, b: Json, d: Json, path: Path, protected: set<string>, order: KeyOrder)
    requires Lists(order) && (path != [] || !f.Blocked?) && Splice(f, b, d, path, protected, order).Done?
    ensures Leaves(f, Splice(f, b, d, path, protected, order).value.focus, PartsLeft(f, b, d, path, protected, order))
    decreases d
  {
    var x := Splice(f, b, d, path, protected, order).value.focus;
    WriteIsIdle(f, b, d, path, protected, order);
    if f.Missing? {
      BuiltIsUntied(f.parent, b, d, path, protected, order);
      LeavesNothing(f, x);
    } else if f.Blocked? {
      SpliceFits(f, b, d, path, protected, order);
      LeavesNothing(f, x);
    } else if Idle(f, b, d, path, protected, order) {
      LeavesAll(f);
    } else if b.Obj? && d.Obj? {
      if IsMapping(f) {
        ObjectLeaves(f, b, d, path, protected, order);
      } else {
        LeafIsKept(f, b, d, path, protected, order);
      }
    } else {
      WholeIsUntied(f, b, d, path, protected, order);
      LeavesNothing(f, x);
    }
  }

  /** A whole value put where the node does not hold it brings no ties. */
  lemma WholeIsUntied(f: Focus, b: Json, d: Json, path: Path, protected: set<string>, order: KeyOrder)
    requires Lists(order) && Splice(f, b, d, path, protected, order).Done? && !(b.Obj? && d.Obj?) && f.At?
    requires Splice(f, b, d, path, protected, order).value.focus != f
    ensures TiesAt(Splice(f, b, d, path, protected, order).value.focus) == {}
  {
    hide Ties;
    CreatedIsUntied(d, path, order);
    FlowUntied(CreateNode(d, path, order), f.node);
  }

  lemma {:induction false} ObjectLeaves(f: Focus, b: Json, d: Json, path: Path, protected: set<string>, order: KeyOrder)
    requires Lists(order) && IsMapping(f) && b.Obj? && d.Obj? && Splice(f, b, d, path, protected, order).Done?
    requires !Idle(f, b, d, path, protected, order)
    ensures Leaves(f, Splice(f, b, d, path, protected, order).value.focus, PartsLeft(f, b, d, path, protected, order))
    decreases d, 0
  {
    var g := Splice(f, b, d, path, protected, order).value.focus;
    WriteIsIdle(f, b, d, path, protected, order);
    NotIdleWrites(f, b, d, path, protected, order);
    OddAfter(f, b, d, path, protected, order, "");
    hide Splice, Idle, IsOdd, Leaves, Ties, PartsLeft;
    forall k: string ensures Leaves(Child(f, k), Child(g, k), PartsBelow(f, b, d, path, protected, order, k)) {
      ChildAfter(f, b, d, path, protected, order, k);
      if k in d.fields {
        WriteLeaves(Child(f, k), Get(b.fields, k), d.fields[k], path + [k], protected, order);
      } else if Child(f, k).At? && (k !in b.fields || k in PROTOTYPE_NAMES) {
        LeavesAll(Child(f, k));
      } else {
        NoTies(Child(g, k));
        LeavesNothing(Child(f, k), Child(g, k));
      }
    }
    MappingLeaves(f, g, b, d, path, protected, order);
  }

  lemma NotIdleWrites(f: Focus, b: Json, d: Json, path: Path, protected: set<string>, order: KeyOrder)
    requires !Idle(f, b, d, path, protected, order)
    ensures Join(path) !in protected && !JsonEqual(b, d)
  {
  }

  lemma NoTies(f: Focus)
    requires !f.At?
    ensures TiesAt(f) == {}
  {
  }

  /** For any document, baseline, draft and protected paths: if every alias the write leaves
      stands for an anchored node it leaves, every alias of the document stands for an anchored
      node afterwards; and if it was so before the write, in no other case. */
  lemma AliasesStayTrue(f: Focus, b: Json, d: Json, path: Path, protected: set<string>, order: KeyOrder)
    requires Lists(order) && (path != [] || !f.Blocked?) && Splice(f, b, d, path, protected, order).Done?
    ensures var g := Splice(f, b, d, path, protected, order).value.focus;
      var left := TiesLeft(f, b, d, path, protected, order);
      && (Tied(left) ==> Tied(TiesAt(g)))
      && (Consistent(f) ==> (Consistent(g) <==> Tied(left)))
  {
    hide Splice, PartsLeft, TiesIn, Leaves;
    WriteLeaves(f, b, d, path, protected, order);
    var g := Splice(f, b, d, path, protected, order).value.focus;
    if Tied(TiesLeft(f, b, d, path, protected, order)) { LeftIsTied(f, g, PartsLeft(f, b, d, path, protected, order)); }
    if Consistent(f) { LeftStandsTrue(f, g, PartsLeft(f, b, d, path, protected, order)); }
  }

  lemma LeftIsTied(f: Focus, x: Focus, parts: set<Node>)
    requires Leaves(f, x, parts) && Tied(TiesIn(parts))
    ensures Tied(TiesAt(x))
  {
    hide Ties, TiesIn, Single;
    forall t | t in TiesAt(x) && t.Aliased? ensures Anchored(t.name, t.node) in TiesAt(x) {
      assert t in TiesIn(parts);
    }
  }

  lemma LeftStandsTrue(f: Focus, x: Focus, parts: set<Node>)
    requires Consistent(f) && Leaves(f, x, parts)
    ensures Consistent(x) <==> Tied(TiesIn(parts))
  {
    hide Ties, TiesIn, Single;
    forall t | t in TiesIn(parts) && t.Aliased? ensures !Moved(f, Anchored(t.name, t.node)) {
      AliasedStands(f, t);
    }
    if !f.At? && x.At? { UntiedIsSingle(x.node); }
    if Tied(TiesIn(parts)) { LeftIsTied(f, x, parts); }
    if Tied(TiesAt(x)) {
      forall t | t in TiesIn(parts) && t.Aliased? ensures Anchored(t.name, t.node) in TiesIn(parts) {
        assert t in TiesAt(x) && Anchored(t.name, t.node) in TiesAt(x);
      }
    }
  }

  /** The anchor an alias stands for has not moved. */
  lemma AliasedStands(f: Focus, t: Tie)
    requires Consistent(f) && t in TiesAt(f) && t.Aliased?
    ensures !Moved(f, Anchored(t.name, t.node))
  {
    hide Ties, Single;
    var own := Anchored(t.name, t.node);
    if Moved(f, own) {
      var n :| Anchored(t.name, n) in TiesAt(f) && n != t.node;
      SingleTies(f.node, own, Anchored(t.name, n));
    }
  }

  /** So a write may edit, replace or drop every anchored node that no alias stands for: in a
      document without anchors, or without aliases, any node. */
  lemma UnaliasedStaysTrue(f: Focus, b: Json, d: Json, path: Path, protected: set<string>, order: KeyOrder)
    requires Lists(order) && (path != [] || !f.Blocked?) && Splice(f, b, d, path, protected, order).Done?
    requires Consistent(f)
    requires || (forall t :: t in TiesAt(f) && t.Aliased? ==>
                  Anchored(t.name, t.node) in TiesLeft(f, b, d, path, protected, order))
             || (forall t :: t in TiesAt(f) ==> t.Aliased?)
    ensures Consistent(Splice(f, b, d, path, protected, order).value.focus)
  {
    AliasesStayTrue(f, b, d, path, protected, order);
    WriteLeaves(f, b, d, path, protected, order);
    hide Splice, PartsLeft, Ties, TiesIn, Single;
    assert forall t :: t in TiesLeft(f, b, d, path, protected, order) ==> t in TiesAt(f);
  }
}
