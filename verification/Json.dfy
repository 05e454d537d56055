/** The values the entry writer compares: parsed frontmatter, form drafts, and what
    `undefined` and the prototype chain add to them. */
module Json {

  datatype Option<+T> = None | Some(value: T)

  datatype Atom = Null | Bool(b: bool) | Num(n: real) | Str(s: string)

  /** `Undefined` is a cleared form value; `Callable` is what reading an inherited
      method name off a plain object yields. Parsed JSON holds neither. */
  datatype Json =
    | Undefined
    | Callable
    | Leaf(atom: Atom)
    | Arr(items: seq<Json>)
    | Obj(fields: map<string, Json>)

  const EMPTY: Json := Obj(map[])

  const NULL: Json := Leaf(Null)

  /** The names every plain object answers to through `Object.prototype`. */
  const PROTOTYPE_NAMES: set<string> := {
    "constructor", "__defineGetter__", "__defineSetter__", "hasOwnProperty",
    "__lookupGetter__", "__lookupSetter__", "isPrototypeOf", "propertyIsEnumerable",
    "toString", "valueOf", "toLocaleString", "__proto__"
  }

  /** `key in object`: own keys and inherited names alike. */
  predicate HasKey(fields: map<string, Json>, key: string) {
    key in fields || key in PROTOTYPE_NAMES
  }

  /** `object[key]`: the own value, else what the prototype answers. */
  function Get(fields: map<string, Json>, key: string): Json {
    if key in fields then fields[key]
    else if key == "__proto__" then EMPTY
    else if key in PROTOTYPE_NAMES then Callable
    else Undefined
  }

  /** `a ?? b` at the two places the serializer normalizes a missing document. */
  function OrEmpty(v: Json): Json {
    if v.Undefined? || v == NULL then EMPTY else v
  }

  predicate JsonEqual(a: Json, b: Json) {
    match (a, b)
    case (Arr(x), Arr(y)) =>
      |x| == |y| && forall i :: 0 <= i < |x| ==> JsonEqual(x[i], y[i])
    case (Obj(x), Obj(y)) =>
      |x.Keys| == |y.Keys| && forall k :: k in x ==> HasKey(y, k) && JsonEqual(x[k], Get(y, k))
    case _ => a == b
  }

  /** A form value: no inherited methods, and no own `__proto__` key. */
  predicate Plain(v: Json) {
    match v
    case Callable => false
    case Arr(items) => forall i :: 0 <= i < |items| ==> Plain(items[i])
    case Obj(fields) => "__proto__" !in fields && forall k :: k in fields ==> Plain(fields[k])
    case _ => true
  }

  /** What survives a round trip through `JSON.stringify`: undefined keys drop,
      undefined items become null. */
  function Clean(v: Json): Json {
    match v
    case Arr(items) =>
      Arr(seq(|items|, i requires 0 <= i < |items| =>
        if items[i].Undefined? then NULL else Clean(items[i])))
    case Obj(fields) => Obj(map k | k in fields && !fields[k].Undefined? :: Clean(fields[k]))
    case _ => v
  }

  lemma SubsetOfSameSize(a: set<string>, b: set<string>)
    requires a <= b && |a| == |b|
    ensures a == b
  {
    if exists x :: x in b && x !in a {
      var x :| x in b && x !in a;
      assert a <= b - {x};
      SizeIsMonotone(a, b - {x});
    }
  }

  lemma {:induction false} SizeIsMonotone(a: set<string>, b: set<string>)
    requires a <= b
    ensures |a| <= |b|
    decreases a
  {
    if a != {} {
      var x :| x in a;
      SizeIsMonotone(a - {x}, b - {x});
    }
  }

  /** Deep comparison decides identity on plain values, whatever the key order, although
      it asks `key in b` and so sees inherited names. */
  lemma {:induction false} JsonEqualIsIdentity(a: Json, b: Json)
    requires Plain(a) || a.Callable?
    ensures JsonEqual(a, b) <==> a == b
  {
    match (a, b) {
      case (Arr(x), Arr(y)) =>
        forall i | 0 <= i < |x| && i < |y|
          ensures JsonEqual(x[i], y[i]) <==> x[i] == y[i]
        {
          JsonEqualIsIdentity(x[i], y[i]);
        }
      case (Obj(x), Obj(y)) =>
        forall k | k in x
          ensures JsonEqual(x[k], Get(y, k)) <==> x[k] == Get(y, k)
        {
          JsonEqualIsIdentity(x[k], Get(y, k));
        }
        if JsonEqual(a, b) {
          assert x.Keys <= y.Keys by {
            forall k | k in x ensures k in y {
              assert x[k] == Get(y, k);
              assert Plain(x[k]);
            }
          }
          SubsetOfSameSize(x.Keys, y.Keys);
          assert x == y;
        }
      case _ =>
    }
  }
}
