/** The cyclomatic-complexity engine: a walk over the syntax tree with a stack of counters,
    and the innermost-enclosing-function definition it refines. */
module Complexity {
  import opened Json
  import opened LineIndex

  /** A syntax-tree value: nodes carry a type, arrays hold values, the rest is no tree. */
  datatype Value =
    | Nothing
    | Text(text: string)
    | Number(number: int, shown: string)
    | Other
    | Items(items: seq<Value>)
    | Node(kind: string, props: seq<Prop>)

  datatype Prop = Prop(key: string, value: Value)

  datatype Record = Record(name: string, lineStart: nat, lineEnd: nat, cc: nat)

  const SHORT_CIRCUIT_OPS: set<string> := {"&&", "||", "??", "||=", "&&=", "??="}
  const NON_AST_KEYS: set<string> := {"loc", "range"}
  const FUNCTION_TYPES: set<string> := {"FunctionDeclaration", "FunctionExpression", "ArrowFunctionExpression"}
  const DECISION_TYPES: set<string> := {
    "IfStatement", "ForStatement", "ForInStatement", "ForOfStatement",
    "WhileStatement", "DoWhileStatement", "CatchClause", "ConditionalExpression"
  }

  /** `node[key]`, absent keys reading as nothing. */
  function Field(props: seq<Prop>, key: string): Value {
    if props == [] then Nothing else if props[0].key == key then props[0].value else Field(props[1..], key)
  }

  predicate IsFunction(n: Value) {
    n.Node? && n.kind in FUNCTION_TYPES
  }

  predicate IsDecision(n: Value) {
    && n.Node?
    && (|| n.kind in DECISION_TYPES
        || (n.kind == "SwitchCase" && !Field(n.props, "test").Nothing?)
        || (n.kind != "SwitchCase" && Field(n.props, "operator").Text?
          && Field(n.props, "operator").text in SHORT_CIRCUIT_OPS))
  }

  function IdentifierName(v: Value): Option<string> {
    if v.Node? && v.kind == "Identifier" && Field(v.props, "name").Text? then Some(Field(v.props, "name").text)
      else None
  }

  /** The name a container lends to a direct function child. */
  function ChildHint(n: Value): Option<string>
    requires n.Node?
  {
    if n.kind == "VariableDeclarator" then IdentifierName(Field(n.props, "id"))
    else if n.kind in {"Property", "PropertyDefinition", "MethodDefinition"} then
      var key := Field(n.props, "key");
      if IdentifierName(key).Some? then IdentifierName(key)
      else if key.Node? && key.kind == "Literal" then
        match Field(key.props, "value")
        case Text(t) => Some(t)
        case Number(_, shown) => Some(shown)
        case _ => None
      else None
    else if n.kind == "AssignmentExpression" then IdentifierName(Field(n.props, "left"))
    else None
  }

  /** The record a function enters the list with, before its decisions are counted. */
  function RecordOf(n: Value, hint: Option<string>, source: seq<nat>, cc: nat): Record
    requires n.Node?
  {
    var start := if Field(n.props, "start").Number? then Field(n.props, "start").number else 0;
    var end := if Field(n.props, "end").Number? then Field(n.props, "end").number else start;
    var id := IdentifierName(Field(n.props, "id"));
    Record(if id.Some? then id.value else if hint.Some? then hint.value else "(anonymous)",
           Line(source, start), Line(source, end), cc)
  }

  /** A function without a start is reported on the first line, one without an end where it
      starts. */
  lemma WithoutPosition(n: Value, hint: Option<string>, source: seq<nat>, cc: nat)
    requires n.Node?
    ensures var r := RecordOf(n, hint, source, cc);
      && (!Field(n.props, "start").Number? ==> r.lineStart == 1)
      && (!Field(n.props, "end").Number? ==> r.lineEnd == r.lineStart)
  {
  }

  predicate Skipped(n: Value, key: string) {
    key in NON_AST_KEYS || (IsFunction(n) && key == "id")
  }

  // ----- what the walk collects -----

  /** The records of a subtree in order, and the decisions in it outside every function. */
  datatype Walked = Walked(records: seq<Record>, loose: nat)

  function Join(a: Walked, b: Walked): Walked {
    Walked(a.records + b.records, a.loose + b.loose)
  }

  function Walk(v: Value, hint: Option<string>, source: seq<nat>): Walked
    decreases v
  {
    match v
    case Items(items) => WalkItems(items, hint, source)
    case Node(_, props) =>
      var here := if IsDecision(v) then 1 else 0;
      if IsFunction(v) then
        var inner := WalkProps(v, props, None, source);
        Walked([RecordOf(v, hint, source, 1 + inner.loose)] + inner.records, here)
      else
        var inner := WalkProps(v, props, ChildHint(v), source);
        Walked(inner.records, here + inner.loose)
    case _ => Walked([], 0)
  }

  function WalkItems(items: seq<Value>, hint: Option<string>, source: seq<nat>): Walked
    decreases items
  {
    if items == [] then Walked([], 0) else Join(Walk(items[0], hint, source), WalkItems(items[1..], hint, source))
  }

  function WalkProps(n: Value, props: seq<Prop>, hint: Option<string>, source: seq<nat>): Walked
    decreases props
  {
    if props == [] then Walked([], 0)
    else
      Join(if Skipped(n, props[0].key) then Walked([], 0) else Walk(props[0].value, hint, source),
           WalkProps(n, props[1..], hint, source))
  }

  lemma ItemsFrom(items: seq<Value>, i: nat, hint: Option<string>, source: seq<nat>)
    requires i < |items|
    ensures WalkItems(items[i..], hint, source)
      == Join(Walk(items[i], hint, source), WalkItems(items[i + 1..], hint, source))
  {
    assert items[i..][1..] == items[i + 1..];
  }

  lemma PropsFrom(n: Value, props: seq<Prop>, i: nat, hint: Option<string>, source: seq<nat>)
    requires i < |props|
    ensures WalkProps(n, props[i..], hint, source)
      == Join(if Skipped(n, props[i].key) then Walked([], 0) else Walk(props[i].value, hint, source),
              WalkProps(n, props[i + 1..], hint, source))
  {
    assert props[i..][1..] == props[i + 1..];
  }

  // ----- the code -----

  /** What the walk changes: the records so far and the counters of the open functions. */
  datatype Tally = Tally(fns: seq<Record>, counters: seq<nat>)

  /** The counters after `n` bumps: the innermost function's grows, if there is one. */
  function Bumped(counters: seq<nat>, n: nat): (r: seq<nat>)
    ensures |r| == |counters|
  {
    if counters == [] then [] else counters[|counters| - 1 := counters[|counters| - 1] + n]
  }

  function Counted(t: Tally, w: Walked): Tally {
    Tally(t.fns + w.records, Bumped(t.counters, w.loose))
  }

  lemma CountedTwice(t: Tally, a: Walked, b: Walked)
    ensures Counted(Counted(t, a), b) == Counted(t, Join(a, b))
  {
  }

  lemma CountedNothing(t: Tally)
    ensures Counted(t, Walked([], 0)) == t
  {
  }

  /** Entering a function, walking it and leaving it again. */
  lemma CountedInside(t: Tally, entered: Record, done: Record, inner: Walked)
    requires done == entered.(cc := 1 + inner.loose)
    ensures var u := Counted(Tally(t.fns + [entered], t.counters + [1]), inner);
      && |u.counters| > 0 && |t.fns| < |u.fns|
      && u.counters[|u.counters| - 1] == 1 + inner.loose && u.counters[..|u.counters| - 1] == t.counters
      && u.fns[|t.fns|] == entered
      && u.fns[|t.fns| := done] == t.fns + ([done] + inner.records)
  {
  }

  class Analyzer {
    const source: seq<nat>
    const lineStarts: seq<nat>
    var fns: seq<Record>
    var counters: seq<nat>

    ghost predicate Valid() {
      Starts(source, lineStarts)
    }

    ghost function State(): Tally
      reads this
    {
      Tally(fns, counters)
    }

    constructor (source: seq<nat>)
      ensures Valid() && this.source == source && State() == Tally([], [])
    {
      this.source := source;
      var starts := UnitLineIndexer(source);
      lineStarts := starts;
      fns, counters := [], [];
    }

    method Bump()
      modifies this
      ensures State() == Counted(old(State()), Walked([], 1))
    {
      var top := |counters| - 1;
      if top >= 0 { counters := counters[top := counters[top] + 1]; }
    }

    method FunctionRecord(n: Value, hint: Option<string>) returns (r: Record)
      requires Valid() && n.Node?
      ensures r == RecordOf(n, hint, source, 0)
    {
      var start := if Field(n.props, "start").Number? then Field(n.props, "start").number else 0;
      var end := if Field(n.props, "end").Number? then Field(n.props, "end").number else start;
      var lineStart := LineLookup(source, lineStarts, start);
      var lineEnd := LineLookup(source, lineStarts, end);
      var id := IdentifierName(Field(n.props, "id"));
      var name := if id.Some? then id.value else if hint.Some? then hint.value else "(anonymous)";
      r := Record(name, lineStart, lineEnd, 0);
    }

    method Visit(v: Value, hint: Option<string>)
      requires Valid()
      modifies this
      ensures State() == Counted(old(State()), Walk(v, hint, source))
      decreases v, 1
    {
      hide RecordOf, IsDecision, IsFunction, ChildHint, WalkItems, WalkProps, Starts;
      CountedNothing(State());
      match v {
        case Items(items) =>
          VisitItems(items, hint);
        case Node(_, props) =>
          if IsDecision(v) { Bump(); }
          if IsFunction(v) {
            FunctionNode(v, hint);
            return;
          }
          ghost var here := if IsDecision(v) then 1 else 0;
          CountedTwice(old(State()), Walked([], here), WalkProps(v, props, ChildHint(v), source));
          VisitProps(v, props, ChildHint(v));
        case _ =>
      }
    }

    /** The function branch: its record enters first, its count when the walk leaves it. */
    method FunctionNode(n: Value, hint: Option<string>)
      requires Valid() && n.Node?
      modifies this
      ensures var inner := WalkProps(n, n.props, None, source);
        Tally(fns, counters)
          == Counted(old(State()), Walked([RecordOf(n, hint, source, 1 + inner.loose)] + inner.records, 0))
      decreases n, 0
    {
      hide WalkProps, Starts;
      ghost var inner := WalkProps(n, n.props, None, source);
      var rec := FunctionRecord(n, hint);
      var at := |fns|;
      fns := fns + [rec];
      counters := counters + [1];
      VisitProps(n, n.props, None);
      CountedInside(old(State()), rec, RecordOf(n, hint, source, 1 + inner.loose), inner);
      fns := fns[at := fns[at].(cc := counters[|counters| - 1])];
      counters := counters[..|counters| - 1];
      CountedNothing(State());
    }

    method VisitItems(items: seq<Value>, hint: Option<string>)
      requires Valid()
      modifies this
      ensures State() == Counted(old(State()), WalkItems(items, hint, source))
      decreases items, 0
    {
      hide Walk, Counted, Starts;
      assert items[0..] == items;
      for i := 0 to |items|
        invariant Counted(State(), WalkItems(items[i..], hint, source))
          == Counted(old(State()), WalkItems(items, hint, source))
      {
        CountedTwice(State(), Walk(items[i], hint, source), WalkItems(items[i + 1..], hint, source));
        ItemsFrom(items, i, hint, source);
        Visit(items[i], hint);
      }
      CountedNothing(State());
      assert items[|items|..] == [];
    }

    method VisitProps(n: Value, props: seq<Prop>, hint: Option<string>)
      requires Valid()
      modifies this
      ensures State() == Counted(old(State()), WalkProps(n, props, hint, source))
      decreases props, 0
    {
      hide Walk, Counted, Skipped, Starts;
      assert props[0..] == props;
      for i := 0 to |props|
        invariant Counted(State(), WalkProps(n, props[i..], hint, source))
          == Counted(old(State()), WalkProps(n, props, hint, source))
      {
        var key := props[i].key;
        CountedTwice(State(), if Skipped(n, key) then Walked([], 0) else Walk(props[i].value, hint, source),
                     WalkProps(n, props[i + 1..], hint, source));
        PropsFrom(n, props, i, hint, source);
        CountedNothing(State());
        if !Skipped(n, key) { Visit(props[i].value, hint); }
      }
      CountedNothing(State());
      assert props[|props|..] == [];
    }
  }

  /** The engine's entry: its records, and the stack it leaves. */
  method AnalyzeComplexity(program: Value, source: seq<nat>) returns (fns: seq<Record>, counters: seq<nat>)
    ensures fns == Walk(program, None, source).records && counters == []
  {
    var analyzer := new Analyzer(source);
    analyzer.Visit(program, None);
    fns, counters := analyzer.fns, analyzer.counters;
  }
}
