/** The counting convention on source code, and that the engine keeps it: a source language,
    the decisions and functions written in it, and the syntax tree it parses to. */
module ComplexitySyntax {
  import opened Json
  import opened LineIndex
  import opened Complexity

  datatype Operator = Plus | Less | Equal | And | Or | Coalesce

  datatype Form = Declared | Expressed | Arrow

  datatype Holder = InObject | InClass | MethodOf

  datatype EntryKey = Plain(text: string) | Quoted(text: string) | Numbered(value: int, shown: string)

  /** Source code. What a function carries in `loc` and `range` is no code. */
  datatype Code =
    | Identifier(name: string)
    | Literal(text: string)
    | Infix(operator: Operator, left: Code, right: Code)
    | Assign(compound: Option<Operator>, target: Code, value: Code)
    | Ternary(test: Code, yes: Code, no: Code)
    | Access(subject: Code, property: string, optional: bool)
    | Call(callee: Code, arguments: seq<Code>)
    | Object(entries: seq<Code>)
    | Class(members: seq<Code>)
    | Entry(holder: Holder, key: EntryKey, value: Code)
    | Default(target: Code, value: Code)
    | Function(form: Form, id: Option<string>, params: seq<Code>, body: Code, start: nat, end: nat,
               loc: Value, range: Value)
    | Expression(code: Code)
    | Declaration(declarators: seq<Code>)
    | Declarator(name: string, init: Option<Code>)
    | Return(result: Option<Code>)
    | Block(run: seq<Code>)
    | If(test: Code, yes: Code, otherwise: Option<Code>)
    | For(init: Option<Code>, check: Option<Code>, update: Option<Code>, loop: Code)
    | ForIn(target: Code, subject: Code, loop: Code)
    | ForOf(target: Code, subject: Code, loop: Code)
    | While(test: Code, loop: Code)
    | DoWhile(loop: Code, test: Code)
    | Switch(subject: Code, cases: seq<Code>)
    | Case(check: Option<Code>, run: seq<Code>)
    | Labeled(mark: string, code: Code)
    | Break(mark: string)
    | Try(block: Code, handler: Option<Code>, finalizer: Option<Code>)
    | Catch(param: Option<Code>, code: Code)

  // ----- the syntax tree -----

  /** What a node of the tree holds under a key: code, nothing where code is left out, a list
      of code, or something that is no code. */
  datatype Content = Piece(code: Code) | Gap | Pieces(codes: seq<Code>) | Word(value: Value)

  datatype Slot = Slot(key: string, content: Content)

  function Perhaps(c: Option<Code>): Content {
    if c.Some? then Piece(c.value) else Gap
  }

  predicate ShortCircuits(op: Operator) {
    op == And || op == Or || op == Coalesce
  }

  function OperatorText(op: Operator): string {
    match op
    case Plus => "+"
    case Less => "<"
    case Equal => "==="
    case And => "&&"
    case Or => "||"
    case Coalesce => "??"
  }

  function CompoundText(op: Option<Operator>): string {
    (if op.Some? then OperatorText(op.value) else "") + "="
  }

  function IdentifierNode(name: string): Value {
    Node("Identifier", [Prop("name", Text(name))])
  }

  function KeyNode(key: EntryKey): Value {
    match key
    case Plain(text) => IdentifierNode(text)
    case Quoted(text) => Node("Literal", [Prop("value", Text(text))])
    case Numbered(value, shown) => Node("Literal", [Prop("value", Number(value, shown))])
  }

  function Kind(c: Code): string {
    match c
    case Identifier(_) => "Identifier"
    case Literal(_) => "Literal"
    case Infix(op, _, _) => if ShortCircuits(op) then "LogicalExpression" else "BinaryExpression"
    case Assign(_, _, _) => "AssignmentExpression"
    case Ternary(_, _, _) => "ConditionalExpression"
    case Access(_, _, _) => "MemberExpression"
    case Call(_, _) => "CallExpression"
    case Object(_) => "ObjectExpression"
    case Class(_) => "ClassBody"
    case Entry(holder, _, _) =>
      (match holder
       case InObject => "Property"
       case InClass => "PropertyDefinition"
       case MethodOf => "MethodDefinition")
    case Default(_, _) => "AssignmentPattern"
    case Function(form, _, _, _, _, _, _, _) =>
      (match form
       case Declared => "FunctionDeclaration"
       case Expressed => "FunctionExpression"
       case Arrow => "ArrowFunctionExpression")
    case Expression(_) => "ExpressionStatement"
    case Declaration(_) => "VariableDeclaration"
    case Declarator(_, _) => "VariableDeclarator"
    case Return(_) => "ReturnStatement"
    case Block(_) => "BlockStatement"
    case If(_, _, _) => "IfStatement"
    case For(_, _, _, _) => "ForStatement"
    case ForIn(_, _, _) => "ForInStatement"
    case ForOf(_, _, _) => "ForOfStatement"
    case While(_, _) => "WhileStatement"
    case DoWhile(_, _) => "DoWhileStatement"
    case Switch(_, _) => "SwitchStatement"
    case Case(_, _) => "SwitchCase"
    case Labeled(_, _) => "LabeledStatement"
    case Break(_) => "BreakStatement"
    case Try(_, _, _) => "TryStatement"
    case Catch(_, _) => "CatchClause"
  }

  function Slots(c: Code): seq<Slot> {
    match c
    case Identifier(name) => [Slot("name", Word(Text(name)))]
    case Literal(text) => [Slot("value", Word(Text(text)))]
    case Infix(op, l, r) =>
      [Slot("left", Piece(l)), Slot("operator", Word(Text(OperatorText(op)))), Slot("right", Piece(r))]
    case Assign(op, t, v) =>
      [Slot("operator", Word(Text(CompoundText(op)))), Slot("left", Piece(t)), Slot("right", Piece(v))]
    case Ternary(t, y, n) => [Slot("test", Piece(t)), Slot("consequent", Piece(y)), Slot("alternate", Piece(n))]
    case Access(e, property, optional) =>
      [Slot("object", Piece(e)), Slot("property", Word(IdentifierNode(property))), Slot("optional", Word(Other))]
    case Call(f, arguments) => [Slot("callee", Piece(f)), Slot("arguments", Pieces(arguments))]
    case Object(entries) => [Slot("properties", Pieces(entries))]
    case Class(members) => [Slot("body", Pieces(members))]
    case Entry(_, key, v) => [Slot("key", Word(KeyNode(key))), Slot("value", Piece(v))]
    case Default(t, v) => [Slot("left", Piece(t)), Slot("right", Piece(v))]
    case Function(_, id, params, body, start, end, loc, range) =>
      [Slot("id", Word(if id.Some? then IdentifierNode(id.value) else Nothing)), Slot("params", Pieces(params)),
       Slot("body", Piece(body)), Slot("start", Word(Number(start, ""))), Slot("end", Word(Number(end, ""))),
       Slot("loc", Word(loc)), Slot("range", Word(range))]
    case Expression(e) => [Slot("expression", Piece(e))]
    case Declaration(declarators) => [Slot("declarations", Pieces(declarators))]
    case Declarator(name, init) => [Slot("id", Word(IdentifierNode(name))), Slot("init", Perhaps(init))]
    case Return(r) => [Slot("argument", Perhaps(r))]
    case Block(run) => [Slot("body", Pieces(run))]
    case If(t, y, n) => [Slot("test", Piece(t)), Slot("consequent", Piece(y)), Slot("alternate", Perhaps(n))]
    case For(i, t, u, b) =>
      [Slot("init", Perhaps(i)), Slot("test", Perhaps(t)), Slot("update", Perhaps(u)), Slot("body", Piece(b))]
    case ForIn(t, s, b) => [Slot("left", Piece(t)), Slot("right", Piece(s)), Slot("body", Piece(b))]
    case ForOf(t, s, b) => [Slot("left", Piece(t)), Slot("right", Piece(s)), Slot("body", Piece(b))]
    case While(t, b) => [Slot("test", Piece(t)), Slot("body", Piece(b))]
    case DoWhile(b, t) => [Slot("body", Piece(b)), Slot("test", Piece(t))]
    case Switch(s, cases) => [Slot("discriminant", Piece(s)), Slot("cases", Pieces(cases))]
    case Case(t, run) => [Slot("test", Perhaps(t)), Slot("consequent", Pieces(run))]
    case Labeled(mark, e) => [Slot("label", Word(IdentifierNode(mark))), Slot("body", Piece(e))]
    case Break(mark) => [Slot("label", Word(IdentifierNode(mark)))]
    case Try(b, h, f) => [Slot("block", Piece(b)), Slot("handler", Perhaps(h)), Slot("finalizer", Perhaps(f))]
    case Catch(p, b) => [Slot("param", Perhaps(p)), Slot("body", Piece(b))]
  }

  function CodeIn(content: Content): seq<Code> {
    match content
    case Piece(d) => [d]
    case Pieces(ds) => ds
    case _ => []
  }

  function CodeOf(slots: seq<Slot>): seq<Code> {
    if slots == [] then [] else CodeIn(slots[0].content) + CodeOf(slots[1..])
  }

  ghost predicate Below(cs: seq<Code>, c: Code) {
    forall i :: 0 <= i < |cs| ==> cs[i] < c
  }

  ghost predicate Within(content: Content, c: Code) {
    match content
    case Piece(d) => d < c
    case Pieces(ds) => Below(ds, c)
    case _ => true
  }

  predicate IsExpression(c: Code) {
    || c.Identifier? || c.Literal? || c.Infix? || c.Assign? || c.Ternary? || c.Access? || c.Call? || c.Object?
    || c.Class? || c.Entry? || c.Default? || c.Function?
  }

  lemma ExpressionWithin(c: Code)
    requires IsExpression(c)
    ensures forall i :: 0 <= i < |Slots(c)| ==> Within(Slots(c)[i].content, c)
  {
  }

  lemma StatementWithin(c: Code)
    requires !IsExpression(c)
    ensures forall i :: 0 <= i < |Slots(c)| ==> Within(Slots(c)[i].content, c)
  {
  }

  lemma SlotsBelow(c: Code)
    ensures forall i :: 0 <= i < |Slots(c)| ==> Below(CodeIn(Slots(c)[i].content), c)
  {
    if IsExpression(c) { ExpressionWithin(c); } else { StatementWithin(c); }
    hide Slots;
    forall i | 0 <= i < |Slots(c)| ensures Below(CodeIn(Slots(c)[i].content), c) {
      assert Within(Slots(c)[i].content, c);
    }
  }

  lemma {:induction false} CodeBelow(slots: seq<Slot>, c: Code)
    requires forall i :: 0 <= i < |slots| ==> Below(CodeIn(slots[i].content), c)
    ensures Below(CodeOf(slots), c)
  {
    if slots != [] {
      assert Below(CodeIn(slots[0].content), c);
      CodeBelow(slots[1..], c);
    }
  }

  /** The code directly inside, in the order it is written. */
  function Parts(c: Code): (r: seq<Code>)
    ensures Below(r, c)
  {
    SlotsBelow(c);
    CodeBelow(Slots(c), c);
    CodeOf(Slots(c))
  }

  /** What the parser makes of the code. */
  function Parsed(c: Code): Value
    decreases c, 2
  {
    SlotsBelow(c);
    Node(Kind(c), ParsedSlots(c, Slots(c)))
  }

  function ParsedSlots(ghost whole: Code, slots: seq<Slot>): (r: seq<Prop>)
    requires forall i :: 0 <= i < |slots| ==> Below(CodeIn(slots[i].content), whole)
    ensures |r| == |slots| && forall i :: 0 <= i < |r| ==> r[i].key == slots[i].key
    decreases whole, 1, |slots|
  {
    if slots == [] then []
    else
      assert Below(CodeIn(slots[0].content), whole);
      var value := match slots[0].content
        case Piece(d) => assert CodeIn(slots[0].content)[0] < whole; Parsed(d)
        case Gap => Nothing
        case Pieces(ds) => Items(AllParsed(whole, ds))
        case Word(v) => v;
      [Prop(slots[0].key, value)] + ParsedSlots(whole, slots[1..])
  }

  function AllParsed(ghost whole: Code, cs: seq<Code>): seq<Value>
    requires Below(cs, whole)
    decreases whole, 0, |cs|
  {
    if cs == [] then [] else [Parsed(cs[0])] + AllParsed(whole, cs[1..])
  }

  // ----- the convention -----

  /** Every `if`, loop, `case` with a test, `catch`, ternary and short-circuit operator is a
      decision, and nothing else is. */
  predicate Decides(c: Code) {
    || c.If? || c.For? || c.ForIn? || c.ForOf? || c.While? || c.DoWhile? || c.Catch? || c.Ternary?
    || (c.Case? && c.check.Some?)
    || (c.Infix? && ShortCircuits(c.operator))
    || (c.Assign? && c.compound.Some? && ShortCircuits(c.compound.value))
  }

  function One(b: bool): nat {
    if b then 1 else 0
  }

  /** The decisions written in the code, those inside a function left to it. */
  function Decisions(c: Code): nat
    decreases c, 1
  {
    if c.Function? then 0 else One(Decides(c)) + AllDecisions(c, Parts(c))
  }

  function AllDecisions(ghost whole: Code, cs: seq<Code>): nat
    requires Below(cs, whole)
    decreases whole, 0, |cs|
  {
    if cs == [] then 0 else Decisions(cs[0]) + AllDecisions(whole, cs[1..])
  }

  /** A function counts 1 and the decisions written in its parameters and body. */
  function Count(f: Code): nat
    requires f.Function?
  {
    1 + AllDecisions(f, Parts(f))
  }

  function KeyName(key: EntryKey): string {
    if key.Numbered? then key.shown else key.text
  }

  /** The name code lends to a function directly inside it. */
  function Lent(c: Code): Option<string> {
    if c.Declarator? then Some(c.name)
    else if c.Entry? then Some(KeyName(c.key))
    else if c.Assign? && c.target.Identifier? then Some(c.target.name)
    else None
  }

  /** A function written in the code, under the name it goes by. */
  datatype Named = Named(name: string, code: Code)

  function NameOf(f: Code, lent: Option<string>): string
    requires f.Function?
  {
    if f.id.Some? then f.id.value else if lent.Some? then lent.value else "(anonymous)"
  }

  /** The functions written in the code, outer ones first: each goes by its own name, else by
      one lent to it. */
  function Functions(c: Code, lent: Option<string>): (r: seq<Named>)
    ensures forall n :: n in r ==> n.code.Function?
    decreases c, 1
  {
    (if c.Function? then [Named(NameOf(c, lent), c)] else []) + AllFunctions(c, Parts(c), Lent(c))
  }

  function AllFunctions(ghost whole: Code, cs: seq<Code>, lent: Option<string>): (r: seq<Named>)
    requires Below(cs, whole)
    ensures forall n :: n in r ==> n.code.Function?
    decreases whole, 0, |cs|
  {
    if cs == [] then [] else Functions(cs[0], lent) + AllFunctions(whole, cs[1..], lent)
  }

  /** One record per function: its name, its lines, its complexity. */
  function Expected(fs: seq<Named>, source: seq<nat>): (r: seq<Record>)
    requires forall n :: n in fs ==> n.code.Function?
    ensures |r| == |fs|
  {
    if fs == [] then []
    else
      [Record(fs[0].name, Line(source, fs[0].code.start), Line(source, fs[0].code.end), Count(fs[0].code))]
      + Expected(fs[1..], source)
  }

  // ----- what a walk finds -----

  ghost predicate Finds(w: Walked, fs: seq<Named>, decisions: nat, source: seq<nat>) {
    && (forall n :: n in fs ==> n.code.Function?)
    && w == Walked(Expected(fs, source), decisions)
  }

  lemma {:induction false} ExpectedAppend(a: seq<Named>, b: seq<Named>, source: seq<nat>)
    requires forall n :: n in a ==> n.code.Function?
    requires forall n :: n in b ==> n.code.Function?
    ensures forall n :: n in a + b ==> n.code.Function?
    ensures Expected(a + b, source) == Expected(a, source) + Expected(b, source)
  {
    hide Count, Line;
    if a == [] {
      assert a + b == b;
    } else {
      assert (a + b)[1..] == a[1..] + b;
      ExpectedAppend(a[1..], b, source);
    }
  }

  lemma JoinFinds(v: Walked, w: Walked, a: seq<Named>, d: nat, b: seq<Named>, e: nat, source: seq<nat>)
    requires Finds(v, a, d, source) && Finds(w, b, e, source)
    ensures Finds(Join(v, w), a + b, d + e, source)
  {
    ExpectedAppend(a, b, source);
  }

  lemma {:induction false} FunctionsAppend(whole: Code, a: seq<Code>, b: seq<Code>, lent: Option<string>)
    requires Below(a, whole) && Below(b, whole)
    ensures AllFunctions(whole, a + b, lent) == AllFunctions(whole, a, lent) + AllFunctions(whole, b, lent)
  {
    hide Functions;
    if a == [] {
      assert a + b == b;
    } else {
      assert (a + b)[1..] == a[1..] + b;
      FunctionsAppend(whole, a[1..], b, lent);
    }
  }

  lemma {:induction false} DecisionsAppend(whole: Code, a: seq<Code>, b: seq<Code>)
    requires Below(a, whole) && Below(b, whole)
    ensures AllDecisions(whole, a + b) == AllDecisions(whole, a) + AllDecisions(whole, b)
  {
    hide Decisions;
    if a == [] {
      assert a + b == b;
    } else {
      assert (a + b)[1..] == a[1..] + b;
      DecisionsAppend(whole, a[1..], b);
    }
  }

  /** Text, numbers, identifiers and literals hold no code. */
  ghost predicate Inert(v: Value) {
    || v.Nothing? || v.Text? || v.Number? || v.Other?
    || (v.Node? && v.kind in {"Identifier", "Literal"} && |v.props| == 1 && v.props[0].key in {"name", "value"}
        && (v.props[0].value.Text? || v.props[0].value.Number?))
  }

  lemma InertFinds(v: Value, hint: Option<string>, source: seq<nat>)
    requires Inert(v)
    ensures Walk(v, hint, source) == Walked([], 0)
  {
    if v.Node? {
      InertNode(v);
      OneProp(v, v.props, ChildHint(v), source);
      hide Inert, IsDecision, IsFunction, ChildHint, WalkProps;
    } else {
      PlainFinds(v, hint, source);
    }
  }

  lemma InertNode(v: Value)
    requires v.Node? && Inert(v)
    ensures !IsDecision(v) && !IsFunction(v)
  {
    assert v.props[1..] == [] && Field(v.props, "operator").Nothing?;
  }

  lemma OneProp(n: Value, props: seq<Prop>, hint: Option<string>, source: seq<nat>)
    requires |props| == 1 && (props[0].value.Text? || props[0].value.Number?)
    ensures WalkProps(n, props, hint, source) == Walked([], 0)
  {
    hide WalkProps, Walk, Skipped, Join;
    PropsFrom(n, props, 0, hint, source);
    OneLeft(props);
    PlainFinds(props[0].value, hint, source);
    NoProps(n, hint, source);
    NothingJoined(Walked([], 0));
  }

  lemma OneLeft(props: seq<Prop>)
    requires |props| == 1
    ensures props[0..] == props && props[0 + 1..] == []
  {
  }

  lemma NothingJoined(w: Walked)
    requires |w.records| == 0 && w.loose == 0
    ensures Join(w, w) == w
  {
    assert w.records + w.records == w.records;
  }

  lemma PlainFinds(v: Value, hint: Option<string>, source: seq<nat>)
    requires !v.Node? && !v.Items?
    ensures Walk(v, hint, source) == Walked([], 0)
  {
    hide IsDecision, IsFunction, RecordOf, ChildHint;
  }

  lemma NoProps(n: Value, hint: Option<string>, source: seq<nat>)
    ensures WalkProps(n, [], hint, source) == Walked([], 0)
  {
    hide Walk, Skipped;
  }

  // ----- reading a node's own keys -----

  lemma {:induction false} FieldAt(props: seq<Prop>, i: nat)
    requires i < |props| && forall j :: 0 <= j < i ==> props[j].key != props[i].key
    ensures Field(props, props[i].key) == props[i].value
  {
    if i > 0 { FieldAt(props[1..], i - 1); }
  }

  lemma {:induction false} NoField(props: seq<Prop>, key: string)
    requires forall i :: 0 <= i < |props| ==> props[i].key != key
    ensures Field(props, key) == Nothing
  {
    if props != [] { NoField(props[1..], key); }
  }

  lemma {:induction false} ValueAt(c: Code, slots: seq<Slot>, i: nat)
    requires forall j :: 0 <= j < |slots| ==> Below(CodeIn(slots[j].content), c)
    requires i < |slots|
    ensures var value := ParsedSlots(c, slots)[i].value;
      match slots[i].content
      case Piece(d) => value == Parsed(d)
      case Gap => value == Nothing
      case Pieces(_) => value.Items?
      case Word(v) => value == v
  {
    if i > 0 { ValueAt(c, slots[1..], i - 1); }
  }

  /** The keys of the code's node, without what is under them. */
  predicate OperatorFree(c: Code) {
    forall i :: 0 <= i < |Slots(c)| ==> Slots(c)[i].key != "operator"
  }

  lemma OnlyOperationsOperate(c: Code)
    requires !c.Infix? && !c.Assign?
    ensures OperatorFree(c)
  {
  }

  /** The kinds of node that are decisions. */
  predicate OfDecisionKind(c: Code) {
    c.If? || c.For? || c.ForIn? || c.ForOf? || c.While? || c.DoWhile? || c.Catch? || c.Ternary?
  }

  lemma DecisionKind(c: Code)
    requires OfDecisionKind(c)
    ensures Kind(c) in DECISION_TYPES
  {
  }

  lemma OtherKind(c: Code)
    requires !OfDecisionKind(c)
    ensures Kind(c) !in DECISION_TYPES
  {
  }

  lemma CaseKind(c: Code)
    ensures Kind(c) == "SwitchCase" <==> c.Case?
  {
  }

  lemma FunctionKind(c: Code)
    ensures Kind(c) in FUNCTION_TYPES <==> c.Function?
  {
    if !c.Function? { NoFunctionKind(c); }
    hide Kind;
    if c.Function? { FormKind(c); }
  }

  lemma FormKind(c: Code)
    requires c.Function?
    ensures Kind(c) in FUNCTION_TYPES
  {
  }

  lemma NoFunctionKind(c: Code)
    requires !c.Function?
    ensures Kind(c) !in FUNCTION_TYPES
  {
    if IsExpression(c) { NoFunctionExpression(c); } else { NoFunctionStatement(c); }
    hide Kind;
  }

  lemma NoFunctionExpression(c: Code)
    requires !c.Function? && IsExpression(c)
    ensures Kind(c) !in FUNCTION_TYPES
  {
  }

  lemma NoFunctionStatement(c: Code)
    requires !IsExpression(c)
    ensures Kind(c) !in FUNCTION_TYPES
  {
  }

  lemma DeclaratorKind(c: Code)
    ensures Kind(c) == "VariableDeclarator" <==> c.Declarator?
  {
  }

  lemma AssignKind(c: Code)
    ensures Kind(c) == "AssignmentExpression" <==> c.Assign?
  {
  }

  lemma IdentifierKind(c: Code)
    ensures Kind(c) == "Identifier" <==> c.Identifier?
  {
  }

  lemma EntryKind(c: Code)
    ensures Kind(c) in {"Property", "PropertyDefinition", "MethodDefinition"} <==> c.Entry?
  {
  }

  lemma OperatorCounts(op: Operator)
    ensures OperatorText(op) in SHORT_CIRCUIT_OPS <==> ShortCircuits(op)
  {
  }

  lemma AssignmentCounts(op: Option<Operator>)
    ensures CompoundText(op) in SHORT_CIRCUIT_OPS <==> op.Some? && ShortCircuits(op.value)
  {
    if op.Some? {
      match op.value {
        case And => assert CompoundText(op) == "&&=";
        case Or => assert CompoundText(op) == "||=";
        case Coalesce => assert CompoundText(op) == "??=";
        case Plus => assert CompoundText(op) == "+=";
        case Less => assert CompoundText(op) == "<=";
        case Equal => assert CompoundText(op) == "====";
      }
    }
  }

  /** The node of the code, key by key. */
  lemma NodeOf(c: Code)
    ensures Parsed(c).Node? && Parsed(c).kind == Kind(c) && |Parsed(c).props| == |Slots(c)|
    ensures forall i :: 0 <= i < |Slots(c)| ==> Parsed(c).props[i].key == Slots(c)[i].key
    ensures forall i :: 0 <= i < |Slots(c)| ==> match Slots(c)[i].content
      case Piece(d) => Parsed(c).props[i].value.Node?
      case Gap => Parsed(c).props[i].value == Nothing
      case Pieces(_) => Parsed(c).props[i].value.Items?
      case Word(v) => Parsed(c).props[i].value == v
  {
    SlotsBelow(c);
    forall i | 0 <= i < |Slots(c)|
      ensures match Slots(c)[i].content
        case Piece(d) => Parsed(c).props[i].value.Node?
        case Gap => Parsed(c).props[i].value == Nothing
        case Pieces(_) => Parsed(c).props[i].value.Items?
        case Word(v) => Parsed(c).props[i].value == v
    {
      ValueAt(c, Slots(c), i);
    }
  }

  /** The engine takes a node for a decision exactly where the code decides. */
  lemma NodeDecides(c: Code)
    ensures IsDecision(Parsed(c)) <==> Decides(c)
  {
    NodeOf(c);
    if OfDecisionKind(c) { DecisionKind(c); } else { OtherKind(c); }
    CaseKind(c);
    var n := Parsed(c);
    hide Parsed, Kind, DECISION_TYPES, FUNCTION_TYPES, SHORT_CIRCUIT_OPS, OperatorText, CompoundText;
    if c.Infix? {
      OperatorCounts(c.operator);
      FieldAt(n.props, 1);
    } else if c.Assign? {
      AssignmentCounts(c.compound);
      FieldAt(n.props, 0);
    } else {
      OnlyOperationsOperate(c);
      if c.Case? { FieldAt(n.props, 0); }
      hide Slots;
      NoField(n.props, "operator");
    }
  }

  /** It lends the name the code lends. */
  lemma NodeLends(c: Code)
    ensures ChildHint(Parsed(c)) == Lent(c)
  {
    NodeOf(c);
    DeclaratorKind(c);
    AssignKind(c);
    EntryKind(c);
    var n := Parsed(c);
    hide Parsed, Kind;
    if c.Declarator? {
      FieldAt(n.props, 0);
      FieldAt(IdentifierNode(c.name).props, 0);
    } else if c.Entry? {
      FieldAt(n.props, 0);
      FieldAt(KeyNode(c.key).props, 0);
    } else if c.Assign? {
      TargetName(c);
    }
  }

  lemma TargetName(c: Code)
    requires c.Assign?
    ensures IdentifierName(Field(Parsed(c).props, "left")) == Lent(c)
  {
    NodeOf(c);
    SlotsBelow(c);
    ValueAt(c, Slots(c), 1);
    FieldAt(Parsed(c).props, 1);
    IdentifierKind(c.target);
    NodeOf(c.target);
    if c.target.Identifier? { FieldAt(Parsed(c.target).props, 0); }
  }

  /** Code is not skipped, and what is no code is skipped or holds none. */
  ghost predicate Fits(n: Value, slot: Slot) {
    if slot.content.Word? then Skipped(n, slot.key) || Inert(slot.content.value) else !Skipped(n, slot.key)
  }

  lemma SlotsFit(c: Code)
    ensures IsFunction(Parsed(c)) <==> c.Function?
    ensures forall i :: 0 <= i < |Slots(c)| ==> Fits(Parsed(c), Slots(c)[i])
  {
    NodeOf(c);
    FunctionKind(c);
    hide Parsed, Kind;
    var n := Parsed(c);
    forall i | 0 <= i < |Slots(c)| ensures Fits(n, Slots(c)[i]) {
      if c.Function? { FunctionSlotsFit(c, n); } else { OtherSlotsFit(c, n); }
    }
  }

  lemma FunctionSlotsFit(c: Code, n: Value)
    requires c.Function? && IsFunction(n)
    ensures forall i :: 0 <= i < |Slots(c)| ==> Fits(n, Slots(c)[i])
  {
    hide IsFunction;
  }

  lemma OtherSlotsFit(c: Code, n: Value)
    requires !c.Function? && !IsFunction(n)
    ensures forall i :: 0 <= i < |Slots(c)| ==> Fits(n, Slots(c)[i])
  {
    CodeKeys(c);
    WordsAreInert(c);
    hide IsFunction, Slots, Inert;
  }

  lemma CodeKeys(c: Code)
    requires !c.Function?
    ensures forall i :: 0 <= i < |Slots(c)| ==> Slots(c)[i].key !in NON_AST_KEYS
  {
  }

  lemma WordsAreInert(c: Code)
    requires !c.Function?
    ensures forall i :: 0 <= i < |Slots(c)| && Slots(c)[i].content.Word? ==> Inert(Slots(c)[i].content.value)
  {
    hide OperatorText, CompoundText;
    if !Worded(c) { hide Inert; }
  }

  /** The code with words among its keys. */
  predicate Worded(c: Code) {
    || c.Identifier? || c.Literal? || c.Infix? || c.Assign? || c.Access? || c.Entry? || c.Declarator?
    || c.Labeled? || c.Break? || c.Function?
  }

  /** A node that is no function: its own decision and what is inside. */
  lemma NodeIsKept(c: Code, lent: Option<string>, source: seq<nat>)
    requires !c.Function? && !IsFunction(Parsed(c))
    requires (IsDecision(Parsed(c)) <==> Decides(c)) && ChildHint(Parsed(c)) == Lent(c)
    requires Finds(WalkProps(Parsed(c), Parsed(c).props, Lent(c), source), AllFunctions(c, Parts(c), Lent(c)),
                   AllDecisions(c, Parts(c)), source)
    ensures Finds(Walk(Parsed(c), lent, source), Functions(c, lent), Decisions(c), source)
  {
    NodeOf(c);
    hide Parsed, IsDecision, IsFunction, ChildHint, WalkProps, Decides, Lent, AllFunctions, AllDecisions, Parts,
      Expected;
    assert [] + AllFunctions(c, Parts(c), Lent(c)) == AllFunctions(c, Parts(c), Lent(c));
  }

  /** A function: its record in front of those inside, and nothing left to the code around. */
  lemma FunctionIsKept(f: Code, lent: Option<string>, source: seq<nat>)
    requires f.Function? && IsFunction(Parsed(f)) && !IsDecision(Parsed(f))
    requires Finds(WalkProps(Parsed(f), Parsed(f).props, None, source), AllFunctions(f, Parts(f), None),
                   AllDecisions(f, Parts(f)), source)
    ensures Finds(Walk(Parsed(f), lent, source), Functions(f, lent), Decisions(f), source)
  {
    RecordIs(f, lent, source);
    NodeOf(f);
    hide Parsed, IsDecision, IsFunction, WalkProps, AllFunctions, AllDecisions, Parts, RecordOf, Line, NameOf, Kind,
      Slots;
    RecordFirst(Parsed(f), f, AllFunctions(f, Parts(f), None), AllDecisions(f, Parts(f)), lent, source);
  }

  lemma RecordFirst(n: Value, f: Code, inside: seq<Named>, decisions: nat, lent: Option<string>, source: seq<nat>)
    requires f.Function? && n.Node? && IsFunction(n) && !IsDecision(n) && Count(f) == 1 + decisions
    requires Finds(WalkProps(n, n.props, None, source), inside, decisions, source)
    requires RecordOf(n, lent, source, Count(f))
      == Record(NameOf(f, lent), Line(source, f.start), Line(source, f.end), Count(f))
    ensures Finds(Walk(n, lent, source), [Named(NameOf(f, lent), f)] + inside, 0, source)
  {
    hide IsDecision, IsFunction, WalkProps, RecordOf, Line, NameOf, Count, ChildHint;
    var all := [Named(NameOf(f, lent), f)] + inside;
    assert all[0] == Named(NameOf(f, lent), f) && all[1..] == inside;
  }

  lemma RecordIs(f: Code, lent: Option<string>, source: seq<nat>)
    requires f.Function?
    ensures Parsed(f).Node? && RecordOf(Parsed(f), lent, source, Count(f))
      == Record(NameOf(f, lent), Line(source, f.start), Line(source, f.end), Count(f))
  {
    NodeOf(f);
    var n := Parsed(f);
    FieldAt(n.props, 0);
    FieldAt(n.props, 3);
    FieldAt(n.props, 4);
    if f.id.Some? { FieldAt(IdentifierNode(f.id.value).props, 0); }
    hide Parsed, Count, Line, Kind, Field;
  }

  // ----- what the engine keeps -----

  /** For all code: the engine finds every function written in it, under its name and lines,
      with 1 and the decisions written in it outside functions of its own, and nothing else. */
  lemma {:induction false} CodeIsKept(c: Code, lent: Option<string>, source: seq<nat>)
    ensures Finds(Walk(Parsed(c), lent, source), Functions(c, lent), Decisions(c), source)
    decreases c, 3
  {
    hide Finds, Fits, Functions, Decisions, IsDecision, IsFunction, ChildHint, Walk, WalkProps, Kind;
    SlotsBelow(c);
    SlotsFit(c);
    NodeDecides(c);
    NodeLends(c);
    InsideIsKept(c, Parsed(c), Slots(c), Lent(c), source);
    if c.Function? { FunctionIsKept(c, lent, source); } else { NodeIsKept(c, lent, source); }
  }

  /** What the keys of a node hold. */
  lemma {:induction false} InsideIsKept(c: Code, n: Value, slots: seq<Slot>, lent: Option<string>, source: seq<nat>)
    requires forall i :: 0 <= i < |slots| ==> Below(CodeIn(slots[i].content), c) && Fits(n, slots[i])
    ensures Below(CodeOf(slots), c)
    ensures Finds(WalkProps(n, ParsedSlots(c, slots), lent, source), AllFunctions(c, CodeOf(slots), lent),
                  AllDecisions(c, CodeOf(slots)), source)
    decreases c, 1, |slots|
  {
    hide Parsed, Functions, Decisions, AllFunctions, AllDecisions, Skipped, Fits, Walk, Finds;
    CodeBelow(slots, c);
    if slots == [] {
      NothingInside(c, n, lent, source);
    } else {
      var first, rest := slots[0], slots[1..];
      assert Below(CodeIn(first.content), c) && Fits(n, first);
      InsideIsKept(c, n, rest, lent, source);
      var a := CodeIn(first.content);
      FunctionsAppend(c, a, CodeOf(rest), lent);
      DecisionsAppend(c, a, CodeOf(rest));
      var props := ParsedSlots(c, slots);
      assert props[1..] == ParsedSlots(c, rest);
      var found := if Skipped(n, first.key) then Walked([], 0) else Walk(props[0].value, lent, source);
      ContentIsKept(c, n, first, props[0].value, lent, source);
      JoinFinds(found, WalkProps(n, props[1..], lent, source), AllFunctions(c, a, lent), AllDecisions(c, a),
        AllFunctions(c, CodeOf(rest), lent), AllDecisions(c, CodeOf(rest)), source);
    }
  }

  lemma NothingInside(c: Code, n: Value, lent: Option<string>, source: seq<nat>)
    ensures Finds(WalkProps(n, [], lent, source), AllFunctions(c, [], lent), AllDecisions(c, []), source)
  {
  }

  lemma OnePiece(c: Code, d: Code, lent: Option<string>)
    requires Below([d], c)
    ensures AllFunctions(c, [d], lent) == Functions(d, lent)
    ensures AllDecisions(c, [d]) == Decisions(d)
  {
    hide Functions, Decisions;
    assert [d][1..] == [];
    assert AllFunctions(c, [], lent) == [] && AllDecisions(c, []) == 0;
    assert Functions(d, lent) + [] == Functions(d, lent);
  }

  lemma {:induction false} ContentIsKept(c: Code, n: Value, slot: Slot, value: Value, lent: Option<string>,
                                         source: seq<nat>)
    requires Below(CodeIn(slot.content), c) && Fits(n, slot)
    requires match slot.content
      case Piece(d) => d < c && value == Parsed(d)
      case Gap => value == Nothing
      case Pieces(ds) => value == Items(AllParsed(c, ds))
      case Word(v) => value == v
    ensures Finds(if Skipped(n, slot.key) then Walked([], 0) else Walk(value, lent, source),
                  AllFunctions(c, CodeIn(slot.content), lent), AllDecisions(c, CodeIn(slot.content)), source)
    decreases c, 0
  {
    match slot.content {
      case Piece(d) =>
        CodeIsKept(d, lent, source);
        OnePiece(c, d, lent);
      case Pieces(ds) => ListIsKept(c, ds, lent, source);
      case Gap =>
      case Word(v) => if !Skipped(n, slot.key) { InertFinds(v, lent, source); }
    }
  }

  lemma NothingListed(c: Code, lent: Option<string>, source: seq<nat>)
    ensures Finds(WalkItems([], lent, source), AllFunctions(c, [], lent), AllDecisions(c, []), source)
  {
  }

  lemma {:induction false} ListIsKept(c: Code, cs: seq<Code>, lent: Option<string>, source: seq<nat>)
    requires Below(cs, c)
    ensures Finds(WalkItems(AllParsed(c, cs), lent, source), AllFunctions(c, cs, lent), AllDecisions(c, cs), source)
    decreases c, 0, |cs|
  {
    hide Parsed, Functions, Decisions, Walk, Finds;
    if cs == [] {
      NothingListed(c, lent, source);
    } else {
      CodeIsKept(cs[0], lent, source);
      ListIsKept(c, cs[1..], lent, source);
      var items := AllParsed(c, cs);
      assert items[0] == Parsed(cs[0]) && items[1..] == AllParsed(c, cs[1..]);
      JoinFinds(Walk(Parsed(cs[0]), lent, source), WalkItems(items[1..], lent, source), Functions(cs[0], lent),
        Decisions(cs[0]), AllFunctions(c, cs[1..], lent), AllDecisions(c, cs[1..]), source);
    }
  }
}
