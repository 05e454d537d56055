/** The schema walk that names the form's fields, and the image paths the entry writer
    must not touch. */
module FormTree {
  import opened Json
  import opened EntryDocument
  import opened EntrySplice
  import opened EntryWrite
  import opened EntryPaths
  import Text

  datatype Wrapper = Optional | Nullable | Default(value: Json) | ReadOnly | Catch

  datatype PrimitiveKind = StringKind | NumberKind | BooleanKind | EnumKind

  /** A schema's definition tree; `tag` is the schema object's identity, which is all the
      image test looks at. */
  datatype Schema =
    | Wrapped(tag: int, wrapper: Wrapper, inner: Schema)
    | Primitive(tag: int, kind: PrimitiveKind)
    | ObjectOf(tag: int, shape: seq<(string, Schema)>)
    | ArrayOf(tag: int, element: Schema)
    | Other(tag: int, name: string)
    | Unwalkable(tag: int)

  datatype Field =
    | Image(path: string, required: bool)
    | Group(path: string, required: bool, children: seq<Field>)
    | Value(path: string, required: bool, kind: PrimitiveKind)
    | List(path: string, required: bool, item: PrimitiveKind)
    | Raw(path: string, required: bool)

  type ImageTest = int -> bool

  const MAX_WRAPPERS := 32

  datatype Peeling = Peeling(schema: Schema, required: bool, initial: Json, hasInitial: bool)

  function Unpeeled(schema: Schema): Peeling {
    Peeling(schema, true, Undefined, false)
  }

  /** The outermost wrapper comes off. */
  function Unwrap(p: Peeling): (r: Peeling)
    requires p.schema.Wrapped?
    ensures r.schema == p.schema.inner
  {
    match p.schema.wrapper
    case Default(value) => Peeling(p.schema.inner, false, value, !value.Undefined?)
    case ReadOnly => p.(schema := p.schema.inner)
    case Catch => p.(schema := p.schema.inner)
    case _ => p.(schema := p.schema.inner, required := false)
  }

  /** At most `fuel` wrappers come off. */
  function Peel(p: Peeling, fuel: nat): (r: Peeling)
    ensures r.schema == p.schema || r.schema < p.schema
    decreases fuel
  {
    if fuel == 0 || !p.schema.Wrapped? then p else Peel(Unwrap(p), fuel - 1)
  }

  function Peeled(schema: Schema): (r: Schema)
    ensures r == schema || r < schema
  {
    Peel(Unpeeled(schema), MAX_WRAPPERS).schema
  }

  method PeelWrappers(schema: Schema) returns (peeled: Peeling)
    ensures peeled == Peel(Unpeeled(schema), MAX_WRAPPERS)
  {
    peeled := Peeling(schema, true, Undefined, false);
    var guard := 0;
    while guard < MAX_WRAPPERS && peeled.schema.Wrapped?
      invariant 0 <= guard <= MAX_WRAPPERS
      invariant Peel(Unpeeled(schema), MAX_WRAPPERS) == Peel(peeled, MAX_WRAPPERS - guard)
    {
      var inner := peeled.schema.inner;
      match peeled.schema.wrapper {
        case Optional => peeled := peeled.(schema := inner, required := false);
        case Nullable => peeled := peeled.(schema := inner, required := false);
        case Default(value) => peeled := Peeling(inner, false, value, !value.Undefined?);
        case ReadOnly => peeled := peeled.(schema := inner);
        case Catch => peeled := peeled.(schema := inner);
      }
      guard := guard + 1;
    }
  }

  /** The wrappers that come off, outermost first. */
  function Wrappers(schema: Schema, fuel: nat): seq<Wrapper> {
    if fuel == 0 || !schema.Wrapped? then [] else [schema.wrapper] + Wrappers(schema.inner, fuel - 1)
  }

  function InnermostDefault(wrappers: seq<Wrapper>): Option<Json> {
    if wrappers == [] then None
    else
      var inner := InnermostDefault(wrappers[1..]);
      if inner.None? && wrappers[0].Default? then Some(wrappers[0].value) else inner
  }

  predicate Neutral(wrappers: seq<Wrapper>) {
    forall i :: 0 <= i < |wrappers| ==> wrappers[i].ReadOnly? || wrappers[i].Catch?
  }

  lemma NeutralCons(w: Wrapper, rest: seq<Wrapper>)
    ensures Neutral([w] + rest) <==> (w.ReadOnly? || w.Catch?) && Neutral(rest)
  {
    assert forall i :: 0 <= i < |rest| ==> rest[i] == ([w] + rest)[i + 1];
    assert ([w] + rest)[0] == w;
  }

  /** A field is required when only `readonly` and `catch` wrap it. */
  lemma {:induction false} RequiredMeans(p: Peeling, fuel: nat)
    ensures Peel(p, fuel).required
       <==> p.required && Neutral(Wrappers(p.schema, fuel))
    decreases fuel
  {
    if fuel > 0 && p.schema.Wrapped? {
      var w, rest := p.schema.wrapper, Wrappers(p.schema.inner, fuel - 1);
      NeutralCons(w, rest);
      RequiredMeans(Unwrap(p), fuel - 1);
    }
  }

  /** Its initial value is that of the innermost default, even an undefined one, which
      counts as none. */
  lemma {:induction false} InitialMeans(p: Peeling, fuel: nat)
    ensures match InnermostDefault(Wrappers(p.schema, fuel))
      case None => Peel(p, fuel).initial == p.initial && Peel(p, fuel).hasInitial == p.hasInitial
      case Some(value) => Peel(p, fuel).initial == value && (Peel(p, fuel).hasInitial <==> !value.Undefined?)
    decreases fuel
  {
    if fuel > 0 && p.schema.Wrapped? {
      var w, rest := p.schema.wrapper, Wrappers(p.schema.inner, fuel - 1);
      assert ([w] + rest)[1..] == rest;
      InitialMeans(Unwrap(p), fuel - 1);
    }
  }

  function SubPath(path: string, key: string): string {
    if path == "" then key else path + "." + key
  }

  function WalkNode(schema: Schema, path: string, isImage: ImageTest): Field {
    var required := Peel(Unpeeled(schema), MAX_WRAPPERS).required;
    var peeled := Peeled(schema);
    if isImage(peeled.tag) then Image(path, required)
    else
      match peeled
      case Primitive(_, kind) => Value(path, required, kind)
      case ObjectOf(_, shape) =>
        Group(path, required, seq(|shape|, i requires 0 <= i < |shape| =>
          WalkNode(shape[i].1, SubPath(path, shape[i].0), isImage)))
      case ArrayOf(_, element) =>
        if Peeled(element).Primitive? then List(path, required, Peeled(element).kind) else Raw(path, required)
      case _ => Raw(path, required)
  }

  /** A walked field is required exactly when only `readonly` and `catch` are among the first 32
      wrappers of its schema. */
  lemma FieldRequired(schema: Schema, path: string, isImage: ImageTest)
    ensures WalkNode(schema, path, isImage).required <==> Neutral(Wrappers(schema, 32))
  {
    RequiredMeans(Unpeeled(schema), MAX_WRAPPERS);
    hide Peel, Neutral;
  }

  /** It has an initial value exactly when the innermost default among them is not undefined. */
  lemma FieldInitial(schema: Schema)
    ensures var peeled := Peel(Unpeeled(schema), MAX_WRAPPERS);
      match InnermostDefault(Wrappers(schema, 32))
      case None => !peeled.hasInitial
      case Some(value) => (peeled.hasInitial <==> !value.Undefined?) && peeled.initial == value
  {
    InitialMeans(Unpeeled(schema), MAX_WRAPPERS);
    hide Peel;
  }

  function WalkSchemaFields(schema: Schema, isImage: ImageTest): seq<Field> {
    var root := WalkNode(schema, "", isImage);
    if root.Group? then root.children else [root]
  }

  function ImagePaths(field: Field): seq<string> {
    match field
    case Image(path, _) => [path]
    case Group(_, _, children) => AllImagePaths(children)
    case _ => []
  }

  function AllImagePaths(fields: seq<Field>): seq<string> {
    if fields == [] then [] else ImagePaths(fields[0]) + AllImagePaths(fields[1..])
  }

  lemma {:induction false} AllImagePathsAppend(fields: seq<Field>, last: Field)
    ensures AllImagePaths(fields + [last]) == AllImagePaths(fields) + ImagePaths(last)
  {
    if fields == [] {
      assert [] + [last] == [last];
    } else {
      assert (fields + [last])[1..] == fields[1..] + [last];
      AllImagePathsAppend(fields[1..], last);
    }
  }

  method CollectImagePaths(fields: seq<Field>) returns (paths: seq<string>)
    ensures paths == AllImagePaths(fields)
  {
    paths := [];
    for i := 0 to |fields|
      invariant paths == AllImagePaths(fields[..i])
    {
      var field := fields[i];
      AllImagePathsAppend(fields[..i], field);
      assert fields[..i + 1] == fields[..i] + [field];
      if field.Image? {
        paths := paths + [field.path];
      } else if field.Group? {
        var inner := CollectImagePaths(field.children);
        paths := paths + inner;
      }
    }
    assert fields[..|fields|] == fields;
  }

  // ----- the paths are exactly the images -----

  /** An image schema sits at the end of `p`, through objects that are no images. */
  ghost predicate ImageAt(schema: Schema, p: Path, isImage: ImageTest)
    decreases p
  {
    var peeled := Peeled(schema);
    if p == [] then isImage(peeled.tag)
    else
      && !isImage(peeled.tag) && peeled.ObjectOf?
      && exists i :: 0 <= i < |peeled.shape| && peeled.shape[i].0 == p[0] && ImageAt(peeled.shape[i].1, p[1..], isImage)
  }

  ghost predicate KeysNonEmpty(schema: Schema) {
    var peeled := Peeled(schema);
    peeled.ObjectOf? ==>
      forall i :: 0 <= i < |peeled.shape| ==> peeled.shape[i].0 != "" && KeysNonEmpty(peeled.shape[i].1)
  }

  predicate NonEmpty(p: Path) {
    forall i :: 0 <= i < |p| ==> p[i] != ""
  }

  lemma {:induction false} JoinSnoc(p: Path, key: string)
    requires NonEmpty(p)
    ensures Join(p + [key]) == SubPath(Join(p), key)
    ensures p != [] ==> Join(p) != ""
  {
    if p == [] {
      assert p + [key] == [key];
    } else if |p| > 1 {
      assert (p + [key])[1..] == p[1..] + [key];
      JoinSnoc(p[1..], key);
      assert p[0] + "." + (Join(p[1..]) + "." + key) == (p[0] + "." + Join(p[1..])) + "." + key;
    } else {
      assert (p + [key])[1..] == [key];
    }
  }

  /** A path's name is its keys with dots between them. */
  lemma {:induction false} NameIsDotted(p: Path)
    ensures Join(p) == Text.JoinWith(p, '.')
  {
    if |p| > 1 {
      NameIsDotted(p[1..]);
      assert "." == ['.'];
    }
  }

  lemma {:induction false} InAllImagePaths(fields: seq<Field>, s: string)
    ensures s in AllImagePaths(fields) <==> exists i :: 0 <= i < |fields| && s in ImagePaths(fields[i])
  {
    if fields != [] {
      InAllImagePaths(fields[1..], s);
      if s in AllImagePaths(fields[1..]) {
        var i :| 0 <= i < |fields[1..]| && s in ImagePaths(fields[1..][i]);
        assert s in ImagePaths(fields[i + 1]);
      }
      if i :| 0 <= i < |fields| && s in ImagePaths(fields[i]) && i > 0 {
        assert s in ImagePaths(fields[1..][i - 1]);
      }
    }
  }

  /** What a walked object collects comes from one of its keys. */
  lemma ObjectImagePaths(schema: Schema, prefix: Path, isImage: ImageTest, s: string)
    requires NonEmpty(prefix) && !isImage(Peeled(schema).tag) && Peeled(schema).ObjectOf?
    ensures var shape := Peeled(schema).shape;
      s in ImagePaths(WalkNode(schema, Join(prefix), isImage)) <==>
      exists i :: 0 <= i < |shape| && s in ImagePaths(WalkNode(shape[i].1, Join(prefix + [shape[i].0]), isImage))
  {
    var shape := Peeled(schema).shape;
    var children := WalkNode(schema, Join(prefix), isImage).children;
    forall i | 0 <= i < |shape|
      ensures children[i] == WalkNode(shape[i].1, Join(prefix + [shape[i].0]), isImage)
    {
      JoinSnoc(prefix, shape[i].0);
    }
    InAllImagePaths(children, s);
    if i :| 0 <= i < |children| && s in ImagePaths(children[i]) {
      assert s in ImagePaths(WalkNode(shape[i].1, Join(prefix + [shape[i].0]), isImage));
    }
    if i :| 0 <= i < |shape| && s in ImagePaths(WalkNode(shape[i].1, Join(prefix + [shape[i].0]), isImage)) {
      assert s in ImagePaths(children[i]);
    }
  }

  lemma ImageName(schema: Schema, path: string, isImage: ImageTest)
    requires isImage(Peeled(schema).tag)
    ensures ImagePaths(WalkNode(schema, path, isImage)) == [path]
  {
  }

  /** An image in the schema is collected under the dotted name of its path. */
  lemma {:induction false} ImageIsCollected(schema: Schema, prefix: Path, p: Path, isImage: ImageTest)
    requires NonEmpty(prefix) && KeysNonEmpty(schema) && ImageAt(schema, p, isImage)
    ensures Join(prefix + p) in ImagePaths(WalkNode(schema, Join(prefix), isImage))
    decreases p
  {
    hide Join, WalkNode, ImagePaths, Peel, Peeled;
    if p == [] {
      assert prefix + p == prefix;
      ImageName(schema, Join(prefix), isImage);
    } else {
      var shape := Peeled(schema).shape;
      var i :| 0 <= i < |shape| && shape[i].0 == p[0] && ImageAt(shape[i].1, p[1..], isImage);
      assert NonEmpty(prefix + [p[0]]) && KeysNonEmpty(shape[i].1);
      hide KeysNonEmpty, ImageAt;
      ImageIsCollected(shape[i].1, prefix + [p[0]], p[1..], isImage);
      assert prefix + p == (prefix + [p[0]]) + p[1..];
      ObjectImagePaths(schema, prefix, isImage, Join(prefix + p));
    }
  }

  lemma ImageBelow(schema: Schema, i: nat, q: Path, isImage: ImageTest)
    requires !isImage(Peeled(schema).tag) && Peeled(schema).ObjectOf? && i < |Peeled(schema).shape|
    requires ImageAt(Peeled(schema).shape[i].1, q, isImage)
    ensures ImageAt(schema, [Peeled(schema).shape[i].0] + q, isImage)
  {
    assert ([Peeled(schema).shape[i].0] + q)[1..] == q;
  }

  lemma OnlyObjectsHoldImages(schema: Schema, path: string, isImage: ImageTest)
    requires !isImage(Peeled(schema).tag) && !Peeled(schema).ObjectOf?
    ensures ImagePaths(WalkNode(schema, path, isImage)) == []
  {
  }

  /** A name collected from a schema that is no image itself comes from one field of it. */
  lemma CollectedFromField(schema: Schema, prefix: Path, s: string, isImage: ImageTest) returns (i: nat)
    requires NonEmpty(prefix) && KeysNonEmpty(schema) && !isImage(Peeled(schema).tag)
    requires s in ImagePaths(WalkNode(schema, Join(prefix), isImage))
    ensures Peeled(schema).ObjectOf? && i < |Peeled(schema).shape|
    ensures var field := Peeled(schema).shape[i];
      && NonEmpty(prefix + [field.0]) && KeysNonEmpty(field.1)
      && s in ImagePaths(WalkNode(field.1, Join(prefix + [field.0]), isImage))
  {
    if !Peeled(schema).ObjectOf? { OnlyObjectsHoldImages(schema, Join(prefix), isImage); }
    hide WalkNode, ImagePaths, Join;
    ObjectImagePaths(schema, prefix, isImage, s);
    var shape := Peeled(schema).shape;
    i :| 0 <= i < |shape| && s in ImagePaths(WalkNode(shape[i].1, Join(prefix + [shape[i].0]), isImage));
  }

  /** Every collected name is the dotted path of an image. */
  lemma {:induction false} CollectedIsImage(schema: Schema, prefix: Path, s: string,
                                            isImage: ImageTest) returns (p: Path)
    requires NonEmpty(prefix) && KeysNonEmpty(schema)
    requires s in ImagePaths(WalkNode(schema, Join(prefix), isImage))
    ensures ImageAt(schema, p, isImage) && s == Join(prefix + p)
    decreases schema
  {
    hide WalkNode, ImagePaths, Join;
    if isImage(Peeled(schema).tag) {
      p := [];
      assert prefix + p == prefix;
      ImageHere(schema, isImage);
      ImageName(schema, Join(prefix), isImage);
    } else {
      hide ImageAt, KeysNonEmpty;
      var i := CollectedFromField(schema, prefix, s, isImage);
      var field := Peeled(schema).shape[i];
      var q := CollectedIsImage(field.1, prefix + [field.0], s, isImage);
      p := [field.0] + q;
      assert prefix + p == (prefix + [field.0]) + q;
      ImageBelow(schema, i, q, isImage);
    }
  }

  lemma ImageHere(schema: Schema, isImage: ImageTest)
    requires isImage(Peeled(schema).tag)
    ensures ImageAt(schema, [], isImage)
  {
  }

  lemma WalkedPaths(schema: Schema, isImage: ImageTest)
    ensures AllImagePaths(WalkSchemaFields(schema, isImage)) == ImagePaths(WalkNode(schema, "", isImage))
  {
    var root := WalkNode(schema, "", isImage);
    if !root.Group? {
      assert [root][1..] == [];
      assert AllImagePaths([root]) == ImagePaths(root) + AllImagePaths([]);
    }
  }

  /** The collected paths name the schema's images, all of them and nothing else. */
  lemma CollectedPathsAreImages(schema: Schema, isImage: ImageTest, s: string)
    requires KeysNonEmpty(schema)
    ensures s in AllImagePaths(WalkSchemaFields(schema, isImage))
       <==> exists p: Path :: ImageAt(schema, p, isImage) && s == Join(p)
  {
    WalkedPaths(schema, isImage);
    if s in AllImagePaths(WalkSchemaFields(schema, isImage)) {
      var p := CollectedIsImage(schema, [], s, isImage);
      assert [] + p == p;
    }
    if p: Path :| ImageAt(schema, p, isImage) && s == Join(p) {
      ImageIsCollected(schema, [], p, isImage);
      assert [] + p == p;
    }
  }

  /** Whatever else a write changes, the node of an image field that both sides reach
      through objects stays byte for byte, style included. */
  lemma ImageNodeSurvives(schema: Schema, isImage: ImageTest, p: Path, f: Focus, baseline: Json, draft: Json,
                          order: KeyOrder)
    requires Lists(order) && KeysNonEmpty(schema) && ImageAt(schema, p, isImage)
    requires FocusAt(f, p).At? && Reach(baseline, draft, p).Some?
    requires var protected := set s | s in AllImagePaths(WalkSchemaFields(schema, isImage));
      Splice(f, baseline, draft, [], protected, order).Done?
    ensures var protected := set s | s in AllImagePaths(WalkSchemaFields(schema, isImage));
      FocusAt(Splice(f, baseline, draft, [], protected, order).value.focus, p) == FocusAt(f, p)
  {
    var protected := set s | s in AllImagePaths(WalkSchemaFields(schema, isImage));
    CollectedPathsAreImages(schema, isImage, Join(p));
    assert [] + p == p;
    ProtectedNodeStays(f, baseline, draft, [], protected, order, p);
    NodeStaysExactly(f, baseline, draft, [], protected, order, p);
  }
}
