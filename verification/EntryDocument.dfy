/** The frontmatter document: its nodes, what they say in JSON space, and reading or
    replacing the node under a path of keys. */
module EntryDocument {
  import opened Json
  import opened Text

  /** How a node is written: its anchor, if it has one, and what the writer never interprets
      (quoting, comments, a date's spelling). */
  datatype Style = Style(anchor: Option<string>, text: string)

  /** A mapping's key: a string, or another scalar (a number, a boolean, null) by the name it
      shows in JSON. */
  datatype Key = Name(text: string) | Shown(text: string)

  /** A document node. A mapping has the nodes under its string keys, those under its other
      keys, and the order both stand in. An alias has the node it points at. */
  datatype Node =
    | Scalar(value: Atom, style: Style)
    | Sequence(items: seq<Node>, flow: bool, style: Style)
    | Mapping(keys: seq<Key>, fields: map<string, Node>, others: map<string, Node>, flow: bool, style: Style)
    | Alias(source: string, target: Node)

  type Path = seq<string>

  /** The order an object's keys enumerate in belongs to the JavaScript object; it is an
      argument here, by the path the object stands at, so results hold for every order. */
  type KeyOrder = (Path, set<string>) -> seq<string>

  ghost predicate Lists(order: KeyOrder) {
    forall path: Path, keys: set<string> ::
      && (forall k :: k in order(path, keys) <==> k in keys)
      && (forall i, j :: 0 <= i < j < |order(path, keys)| ==> order(path, keys)[i] != order(path, keys)[j])
  }

  const FRESH_STYLE := Style(None, "")

  /** The last key that shows as `k` is no string. */
  predicate ShownLast(keys: seq<Key>, k: string) {
    keys != [] &&
    var last := keys[|keys| - 1];
    if last.text == k then last.Shown? else ShownLast(keys[..|keys| - 1], k)
  }

  /** A key that is no string holds the value JSON shows under `k`: of two keys that show
      alike the later one counts. */
  predicate Odd(keys: seq<Key>, fields: map<string, Node>, others: map<string, Node>, k: string) {
    k in others && (k !in fields || ShownLast(keys, k))
  }

  function ToJson(n: Node): Json {
    match n
    case Scalar(value, _) => Leaf(value)
    case Sequence(items, _, _) =>
      Arr(seq(|items|, i requires 0 <= i < |items| => ToJson(items[i])))
    case Mapping(keys, fields, others, _, _) =>
      Obj(map k | k in fields.Keys + others.Keys ::
        if Odd(keys, fields, others, k) then ToJson(others[k]) else ToJson(fields[k]))
    case Alias(_, target) => ToJson(target)
  }

  function Names(keys: seq<string>): (r: seq<Key>)
    ensures |r| == |keys| && forall i :: 0 <= i < |r| ==> r[i] == Name(keys[i])
  {
    seq(|keys|, i requires 0 <= i < |keys| => Name(keys[i]))
  }

  /** The library's `createNode`: a freshly styled node for a plain value. An item stands at
      its index. */
  function CreateNode(v: Json, path: Path, order: KeyOrder): Node {
    match v
    case Leaf(atom) => Scalar(atom, FRESH_STYLE)
    case Arr(items) =>
      Sequence(
        seq(|items|, i requires 0 <= i < |items| => CreateNode(items[i], path + [Decimal(i)], order)),
        false, FRESH_STYLE)
    case Obj(fields) =>
      Mapping(
        Names(order(path, set k | k in fields && !fields[k].Undefined?)),
        map k | k in fields && !fields[k].Undefined? :: CreateNode(fields[k], path + [k], order),
        map[], false, FRESH_STYLE)
    case _ => Scalar(Null, FRESH_STYLE)
  }

  lemma {:induction false} CreatedProjects(v: Json, path: Path, order: KeyOrder)
    requires !v.Undefined? && Plain(v)
    ensures ToJson(CreateNode(v, path, order)) == Clean(v)
  {
    hide Decimal, Names;
    match v {
      case Arr(items) =>
        forall i | 0 <= i < |items|
          ensures ToJson(CreateNode(items[i], path + [Decimal(i)], order))
            == if items[i].Undefined? then NULL else Clean(items[i])
        {
          if !items[i].Undefined? { CreatedProjects(items[i], path + [Decimal(i)], order); }
        }
      case Obj(fields) =>
        forall k | k in fields && !fields[k].Undefined?
          ensures ToJson(CreateNode(fields[k], path + [k], order)) == Clean(fields[k])
        {
          CreatedProjects(fields[k], path + [k], order);
        }
      case _ =>
    }
  }

  lemma {:induction false} NodesAreClean(n: Node)
    ensures Clean(ToJson(n)) == ToJson(n)
    ensures !ToJson(n).Undefined? && !ToJson(n).Callable?
  {
    match n {
      case Scalar(_, _) =>
      case Sequence(items, _, _) =>
        forall i | 0 <= i < |items|
          ensures Clean(ToJson(items[i])) == ToJson(items[i]) && !ToJson(items[i]).Undefined?
        {
          NodesAreClean(items[i]);
        }
        assert Clean(ToJson(n)).items == ToJson(n).items;
      case Mapping(_, fields, others, _, _) =>
        forall k | k in fields
          ensures Clean(ToJson(fields[k])) == ToJson(fields[k]) && !ToJson(fields[k]).Undefined?
        {
          NodesAreClean(fields[k]);
        }
        forall k | k in others
          ensures Clean(ToJson(others[k])) == ToJson(others[k]) && !ToJson(others[k]).Undefined?
        {
          NodesAreClean(others[k]);
        }
        assert Clean(ToJson(n)).fields == ToJson(n).fields;
      case Alias(_, target) => NodesAreClean(target);
    }
  }

  // ----- the place a path of keys names -----

  /** What stands at a path: a node; nothing, under a mapping that is there or not; or a
      place no key reaches, because a sequence (`soft`), a scalar or an alias is in the way.
      A path's keys are strings and find string keys only. */
  datatype Focus = At(node: Node) | Missing(parent: bool) | Blocked(soft: bool)

  /** An empty document has no contents; its top level counts as a missing mapping. */
  function Root(contents: Option<Node>): Focus {
    if contents.Some? then At(contents.value) else Missing(false)
  }

  function Contents(f: Focus): Option<Node> {
    if f.At? then Some(f.node) else None
  }

  /** What an empty document says is null. */
  function DataOf(contents: Option<Node>): Json {
    if contents.Some? then ToJson(contents.value) else NULL
  }

  function Child(f: Focus, key: string): Focus {
    match f
    case At(Mapping(_, fields, _, _, _)) => if key in fields then At(fields[key]) else Missing(true)
    case At(Sequence(_, _, _)) => Blocked(true)
    case At(_) => Blocked(false)
    case Missing(_) => Missing(false)
    case Blocked(_) => Blocked(false)
  }

  function FocusAt(f: Focus, path: Path): Focus
    decreases path
  {
    if path == [] then f else FocusAt(Child(f, path[0]), path[1..])
  }

  function Without(keys: seq<Key>, gone: set<Key>): seq<Key> {
    if keys == [] then []
    else (if keys[0] in gone then [] else [keys[0]]) + Without(keys[1..], gone)
  }

  /** `f` with its child under `key` replaced: an existing key keeps its position, a new
      one goes last, and a first child brings a missing mapping into being. */
  function Rebuild(f: Focus, key: string, child: Focus): Focus {
    match f
    case At(Mapping(keys, fields, others, flow, style)) =>
      if child.At? then
        At(Mapping(if key in fields then keys else keys + [Name(key)], fields[key := child.node], others, flow, style))
      else if key in fields then
        At(Mapping(Without(keys, {Name(key)}), fields - {key}, others, flow, style))
      else f
    case Missing(_) =>
      if child.At? then At(Mapping([Name(key)], map[key := child.node], map[], false, FRESH_STYLE)) else f
    case _ => f
  }

  /** The document with the place at `path` replaced, parents created on the way. */
  function Put(f: Focus, path: Path, x: Focus): Focus
    decreases path
  {
    if path == [] then x else Rebuild(f, path[0], Put(Child(f, path[0]), path[1..], x))
  }

  /** The replacements a write can make: keep the place, fill it, or empty it. */
  predicate Fits(f: Focus, x: Focus) {
    x == f || (x.At? && !f.Blocked?) || (f.At? && x == Missing(true))
  }

  lemma RebuildSame(f: Focus, key: string)
    ensures Rebuild(f, key, Child(f, key)) == f
  {
    match f {
      case At(Mapping(keys, fields, others, flow, style)) =>
        if key in fields { assert fields[key := fields[key]] == fields; }
      case _ =>
    }
  }

  lemma {:induction false} PutFits(f: Focus, path: Path, x: Focus)
    requires Fits(FocusAt(f, path), x)
    ensures Fits(f, Put(f, path, x))
    ensures FocusAt(Put(f, path, x), path) == x
    decreases path
  {
    if path != [] {
      PutFits(Child(f, path[0]), path[1..], x);
      var y := Put(Child(f, path[0]), path[1..], x);
      RebuildSame(f, path[0]);
    }
  }

  /** Writing back what stands there changes nothing. */
  lemma {:induction false} PutSame(f: Focus, path: Path)
    ensures Put(f, path, FocusAt(f, path)) == f
    decreases path
  {
    if path != [] {
      PutSame(Child(f, path[0]), path[1..]);
      RebuildSame(f, path[0]);
    }
  }

  lemma {:induction false} BelowBlocked(f: Focus, path: Path)
    ensures f.Blocked? ==> FocusAt(f, path).Blocked?
    ensures FocusAt(f, path).At? ==> f.At?
    decreases path
  {
    if path != [] { BelowBlocked(Child(f, path[0]), path[1..]); }
  }

  lemma {:induction false} FillingFills(f: Focus, path: Path, x: Focus)
    requires x.At? && !FocusAt(f, path).Blocked?
    ensures Put(f, path, x).At?
    decreases path
  {
    if path != [] {
      BelowBlocked(Child(f, path[0]), path[1..]);
      FillingFills(Child(f, path[0]), path[1..], x);
    }
  }

  /** Of two writes at one place the second is what remains. */
  lemma {:induction false} PutTwice(f: Focus, path: Path, x: Focus, y: Focus)
    requires Fits(FocusAt(f, path), x) && Fits(x, y)
    requires x == FocusAt(f, path) || (x.At? && (y.At? || FocusAt(f, path).At?))
    ensures Put(Put(f, path, x), path, y) == Put(f, path, y)
    decreases path
  {
    if x == FocusAt(f, path) {
      PutSame(f, path);
    } else if path != [] {
      var c := Child(f, path[0]);
      PutTwice(c, path[1..], x, y);
      FillingFills(c, path[1..], x);
      BelowBlocked(c, path[1..]);
      if y.At? { FillingFills(c, path[1..], y); }
      var cx, cy := Put(c, path[1..], x), Put(c, path[1..], y);
      assert Child(Rebuild(f, path[0], cx), path[0]) == cx;
      assert Rebuild(Rebuild(f, path[0], cx), path[0], cy) == Rebuild(f, path[0], cy) by {
        if f.At? && f.node.Mapping? {
          var m := f.node.fields;
          assert m[path[0] := cx.node] - {path[0]} == m - {path[0]};
          if cy.At? { assert m[path[0] := cx.node][path[0] := cy.node] == m[path[0] := cy.node]; }
        } else if cy.At? {
          assert map[path[0] := cx.node][path[0] := cy.node] == map[path[0] := cy.node];
        }
      }
    }
  }

  /** A write below a place is a write of that place with one child rebuilt. */
  lemma {:induction false} PutBelow(f: Focus, path: Path, key: string, x: Focus)
    ensures Put(f, path + [key], x) == Put(f, path, Rebuild(FocusAt(f, path), key, x))
    ensures FocusAt(f, path + [key]) == Child(FocusAt(f, path), key)
    decreases path
  {
    if path == [] {
      assert path + [key] == [key];
      assert Put(f, [key], x) == Rebuild(f, key, Put(Child(f, key), [], x));
      assert FocusAt(f, [key]) == FocusAt(Child(f, key), []);
    } else {
      PutBelow(Child(f, path[0]), path[1..], key, x);
      assert (path + [key])[0] == path[0];
      assert (path + [key])[1..] == path[1..] + [key];
    }
  }
}
