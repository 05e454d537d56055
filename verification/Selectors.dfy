/** Selector trees, how they are written, their specificity by section 17 of Selectors
    Level 4, and the scanner recovering it from the text. */
module Selectors {
  import opened Json
  import opened Text
  import opened Matcher

  datatype Simple =
    | IdSelector(name: string)
    | ClassSelector(name: string)
    | AttributeSelector(body: string)
    | PseudoClass(name: string)
    | PseudoElement(name: string)
    | ListPseudo(name: string, list: seq<Complex>)
    | NthOf(name: string, formula: string, list: seq<Complex>)
    | FunctionalPseudo(name: string, argument: string)

  /** The namespace before a type selector: none written, `|`, `*|` or a prefix of its own. */
  datatype Prefix = Default | NoNamespace | AnyNamespace | Namespace(name: string)

  /** The optional type selector a compound starts with. */
  datatype Head = Untyped | Universal(prefix: Prefix) | Typed(prefix: Prefix, name: string)

  /** One compound and the combinator written before it, white space included. */
  datatype Part = Part(combinator: string, head: Head, rest: seq<Simple>)

  datatype Complex = Complex(parts: seq<Part>)

  // ----- the grammar -----

  predicate IsName(name: string) {
    name != "" && forall i :: 0 <= i < |name| ==> IsNameChar(name[i])
  }

  predicate IsCombinator(text: string) {
    forall i :: 0 <= i < |text| ==> text[i] in " \t\n>+~"
  }

  /** Text that opens and closes no bracket. */
  predicate Flat(text: string) {
    forall i :: 0 <= i < |text| ==> text[i] != '(' && text[i] != ')' && text[i] != '[' && text[i] != ']'
  }

  const LIST_PSEUDOS: set<string> := {"is", "not", "has", "where"}

  /** They take a selector list behind `of`. */
  const NTH_PSEUDOS: set<string> := {"nth-child", "nth-last-child"}

  /** They weigh a selector by another standard (CSS Scoping, section 3.3). */
  const HOST_PSEUDOS: set<string> := {"host", "host-context"}

  /** Pseudo-elements that may be written with one colon. */
  const LEGACY_ELEMENTS: set<string> := {"before", "after", "first-line", "first-letter"}

  /** The An+B notation, `even` and `odd`, by their characters: no `of` among them. */
  predicate IsFormula(text: string) {
    forall i :: 0 <= i < |text| ==> text[i] in "0123456789+- nNeEvVoOdD"
  }

  /** Pseudo-class names are written in any letter case. */
  predicate ValidSimple(x: Simple) {
    match x
    case IdSelector(name) => IsName(name)
    case ClassSelector(name) => IsName(name)
    case AttributeSelector(body) => Flat(body)
    case PseudoClass(name) => IsName(name)
    case PseudoElement(name) => IsName(name)
    case ListPseudo(name, list) => IsName(name) && ToLowerCase(name) in LIST_PSEUDOS && ValidList(list)
    case NthOf(name, formula, list) =>
      IsName(name) && ToLowerCase(name) in NTH_PSEUDOS && IsFormula(formula) && ValidList(list)
    case FunctionalPseudo(name, argument) =>
      && IsName(name) && ToLowerCase(name) !in LIST_PSEUDOS + HOST_PSEUDOS
      && Flat(argument) && (ToLowerCase(name) in NTH_PSEUDOS ==> IsFormula(argument))
  }

  predicate ValidRest(rest: seq<Simple>) {
    forall i :: 0 <= i < |rest| ==> ValidSimple(rest[i])
  }

  predicate StartsWithLetter(name: string) {
    IsName(name) && IsLetter(name[0])
  }

  predicate ValidHead(head: Head) {
    && (head.Typed? ==> StartsWithLetter(head.name))
    && (!head.Untyped? && head.prefix.Namespace? ==> StartsWithLetter(head.prefix.name))
  }

  predicate ValidPart(p: Part) {
    && IsCombinator(p.combinator)
    && (p.head.Untyped? ==> p.rest != [])
    && ValidHead(p.head)
    && ValidRest(p.rest)
  }

  predicate ValidParts(parts: seq<Part>) {
    forall i :: 0 <= i < |parts| ==> ValidPart(parts[i]) && (i > 0 ==> parts[i].combinator != "")
  }

  predicate ValidComplex(c: Complex) {
    c.parts != [] && ValidParts(c.parts)
  }

  predicate ValidList(list: seq<Complex>) {
    forall i :: 0 <= i < |list| ==> ValidComplex(list[i])
  }

  // ----- the text -----

  function Call(name: string, inner: string): string {
    ":" + name + "(" + inner + ")"
  }

  function PrintSimple(x: Simple): string {
    match x
    case IdSelector(name) => "#" + name
    case ClassSelector(name) => "." + name
    case AttributeSelector(body) => "[" + body + "]"
    case PseudoClass(name) => ":" + name
    case PseudoElement(name) => "::" + name
    case ListPseudo(name, list) => Call(name, PrintList(list))
    case NthOf(name, formula, list) => Call(name, formula + " of " + PrintList(list))
    case FunctionalPseudo(name, argument) => Call(name, argument)
  }

  function PrintRest(rest: seq<Simple>): string {
    if rest == [] then "" else PrintSimple(rest[0]) + PrintRest(rest[1..])
  }

  function PrintPrefix(prefix: Prefix): string {
    match prefix
    case Default => ""
    case NoNamespace => "|"
    case AnyNamespace => "*|"
    case Namespace(name) => name + "|"
  }

  function PrintHead(head: Head): string {
    match head
    case Untyped => ""
    case Universal(prefix) => PrintPrefix(prefix) + "*"
    case Typed(prefix, name) => PrintPrefix(prefix) + name
  }

  function PrintParts(parts: seq<Part>): string {
    if parts == [] then ""
    else parts[0].combinator + PrintHead(parts[0].head) + PrintRest(parts[0].rest) + PrintParts(parts[1..])
  }

  function PrintComplex(c: Complex): string {
    PrintParts(c.parts)
  }

  function PrintList(list: seq<Complex>): string {
    if list == [] then ""
    else if |list| == 1 then PrintComplex(list[0])
    else PrintComplex(list[0]) + "," + PrintList(list[1..])
  }

  // ----- the specificity the standard defines -----

  function SpecificityOf(x: Simple): Specificity {
    match x
    case IdSelector(_) => ID
    case PseudoClass(name) => if ToLowerCase(name) in LEGACY_ELEMENTS then TYPE else CLASS
    case PseudoElement(_) => TYPE
    case ListPseudo(name, list) => if ToLowerCase(name) == "where" then NONE else MostSpecific(list)
    case NthOf(_, _, list) => Add(CLASS, MostSpecific(list))
    case _ => CLASS
  }

  function RestSpecificity(rest: seq<Simple>): Specificity {
    if rest == [] then NONE else Add(SpecificityOf(rest[0]), RestSpecificity(rest[1..]))
  }

  /** A type selector counts, its namespace does not. */
  function HeadSpecificity(head: Head): Specificity {
    if head.Typed? then TYPE else NONE
  }

  function PartsSpecificity(parts: seq<Part>): Specificity {
    if parts == [] then NONE
    else
      Add(HeadSpecificity(parts[0].head), Add(RestSpecificity(parts[0].rest), PartsSpecificity(parts[1..])))
  }

  /** The specificity of the most specific complex selector in the list. */
  function MostSpecific(list: seq<Complex>): Specificity {
    if list == [] then NONE
    else Max(PartsSpecificity(list[0].parts), MostSpecific(list[1..]))
  }

  function NumberIn(rest: seq<Simple>, counts: Simple -> bool): nat {
    if rest == [] then 0 else (if counts(rest[0]) then 1 else 0) + NumberIn(rest[1..], counts)
  }

  /** How many simple selectors of a kind there are. */
  function Number(parts: seq<Part>, counts: Simple -> bool): nat {
    if parts == [] then 0 else NumberIn(parts[0].rest, counts) + Number(parts[1..], counts)
  }

  function TypedHeads(parts: seq<Part>): nat {
    if parts == [] then 0 else (if parts[0].head.Typed? then 1 else 0) + TypedHeads(parts[1..])
  }

  predicate IsElement(x: Simple) {
    x.PseudoElement? || (x.PseudoClass? && ToLowerCase(x.name) in LEGACY_ELEMENTS)
  }

  predicate IsId(x: Simple) {
    x.IdSelector?
  }

  /** Classes, attributes and pseudo-classes. */
  predicate IsClass(x: Simple) {
    !IsId(x) && !IsElement(x)
  }

  predicate NoList(parts: seq<Part>) {
    forall i, j :: 0 <= i < |parts| && 0 <= j < |parts[i].rest| ==>
      !parts[i].rest[j].ListPseudo? && !parts[i].rest[j].NthOf?
  }

  lemma AddParts(a: Specificity, b: Specificity)
    ensures Add(a, b) == Specificity(a.ids + b.ids, a.classes + b.classes, a.types + b.types)
  {
  }

  lemma {:induction false} RestCounts(rest: seq<Simple>)
    requires forall j :: 0 <= j < |rest| ==> !rest[j].ListPseudo? && !rest[j].NthOf?
    ensures RestSpecificity(rest)
         == Specificity(NumberIn(rest, IsId), NumberIn(rest, IsClass), NumberIn(rest, IsElement))
  {
    hide SpecificityOf, IsId, IsClass, IsElement, Add;
    if rest != [] {
      RestCounts(rest[1..]);
      SimpleCounts(rest[0]);
      AddParts(SpecificityOf(rest[0]), RestSpecificity(rest[1..]));
    }
  }

  lemma SimpleCounts(x: Simple)
    requires !x.ListPseudo? && !x.NthOf?
    ensures SpecificityOf(x) == if IsId(x) then ID else if IsElement(x) then TYPE else CLASS
    ensures IsClass(x) <==> !IsId(x) && !IsElement(x)
    ensures !(IsId(x) && IsElement(x))
  {
    hide ToLowerCase, LEGACY_ELEMENTS;
  }

  /** Without selector lists the specificity is three counts: of the ids; of the classes,
      attributes and pseudo-classes; of the types and pseudo-elements. */
  lemma {:induction false} SpecificityCounts(parts: seq<Part>)
    requires NoList(parts)
    ensures PartsSpecificity(parts)
         == Specificity(Number(parts, IsId), Number(parts, IsClass), TypedHeads(parts) + Number(parts, IsElement))
  {
    hide RestSpecificity, IsId, IsClass, IsElement, Add;
    if parts != [] {
      var rest, more := RestSpecificity(parts[0].rest), PartsSpecificity(parts[1..]);
      AddParts(rest, more);
      AddParts(HeadSpecificity(parts[0].head), Add(rest, more));
      RestCounts(parts[0].rest);
      assert NoList(parts[1..]) by {
        assert forall i :: 0 <= i < |parts| - 1 ==> parts[1..][i] == parts[i + 1];
      }
      SpecificityCounts(parts[1..]);
    }
  }

  /** By its ids, then its classes, then its types. */
  lemma {:induction false} MostSpecificIsGreatest(list: seq<Complex>)
    ensures forall i :: 0 <= i < |list| ==> NoLess(MostSpecific(list), PartsSpecificity(list[i].parts))
    ensures MostSpecific(list) == NONE ||
              exists i :: 0 <= i < |list| && MostSpecific(list) == PartsSpecificity(list[i].parts)
  {
    hide PartsSpecificity;
    if list != [] {
      CompareMeans(MostSpecific(list[1..]), PartsSpecificity(list[0].parts));
      CompareMeans(PartsSpecificity(list[0].parts), MostSpecific(list[1..]));
      MostSpecificIsGreatest(list[1..]);
      assert forall i :: 0 < i < |list| ==> list[i] == list[1..][i - 1];
    }
  }

  // ----- the specificity the scanner gives -----

  /** Names count as they are spelled, and no list behind `of` is looked into. */
  function Weight(x: Simple): Specificity {
    match x
    case IdSelector(_) => ID
    case PseudoElement(_) => TYPE
    case ListPseudo(name, list) =>
      if name == "where" then NONE else if name in LIST_PSEUDOS then ListWeight(list) else CLASS
    case _ => CLASS
  }

  function RestWeight(rest: seq<Simple>): Specificity {
    if rest == [] then NONE else Add(Weight(rest[0]), RestWeight(rest[1..]))
  }

  /** A namespace of its own counts like one more type. */
  function HeadWeight(head: Head): Specificity {
    Add(HeadSpecificity(head), PrefixWeight(head))
  }

  function PrefixWeight(head: Head): Specificity {
    if !head.Untyped? && head.prefix.Namespace? then TYPE else NONE
  }

  function PartsWeight(parts: seq<Part>): Specificity {
    if parts == [] then NONE
    else Add(HeadWeight(parts[0].head), Add(RestWeight(parts[0].rest), PartsWeight(parts[1..])))
  }

  function ListWeight(list: seq<Complex>): Specificity {
    if list == [] then NONE else Max(PartsWeight(list[0].parts), ListWeight(list[1..]))
  }

  /** The spelling the scanner understands: no pseudo-element with one colon, list names in
      lower case (or a list that weighs a class anyway), nothing that counts behind `of`. */
  predicate Spelled(x: Simple) {
    match x
    case PseudoClass(name) => ToLowerCase(name) !in LEGACY_ELEMENTS
    case ListPseudo(name, list) =>
      if name in LIST_PSEUDOS then name == "where" || SpelledList(list)
      else ToLowerCase(name) != "where" && MostSpecific(list) == CLASS
    case NthOf(_, _, list) => MostSpecific(list) == NONE
    case _ => true
  }

  /** No namespace prefix of its own. */
  predicate SpelledHead(head: Head) {
    !head.Untyped? ==> !head.prefix.Namespace?
  }

  predicate SpelledParts(parts: seq<Part>) {
    && (forall i :: 0 <= i < |parts| ==> SpelledHead(parts[i].head))
    && forall i, j :: 0 <= i < |parts| && 0 <= j < |parts[i].rest| ==> Spelled(parts[i].rest[j])
  }

  predicate SpelledList(list: seq<Complex>) {
    forall i :: 0 <= i < |list| ==> SpelledParts(list[i].parts)
  }

  /** A list the scanner looks into. */
  predicate LooksInto(x: Simple) {
    x.ListPseudo? && x.name in LIST_PSEUDOS && x.name != "where"
  }

  /** For every simple selector, given that lists inside are spelled so: the scanner gives it
      the standard's specificity if and only if it is spelled so itself. */
  lemma SpellingDecides(x: Simple)
    requires LooksInto(x) ==> ValidList(x.list) && SpelledList(x.list)
    ensures Weight(x) == SpecificityOf(x) <==> Spelled(x)
  {
    hide Add;
    if x.NthOf? {
      AddNothing(MostSpecific(x.list), CLASS);
    } else if x.ListPseudo? {
      if LooksInto(x) { SpelledListWeighs(x.list); }
      ListSpelling(x.name, x.list);
    } else {
      assert CLASS != TYPE;
    }
  }

  lemma ListSpelling(name: string, list: seq<Complex>)
    requires name in LIST_PSEUDOS && name != "where" && SpelledList(list) ==> ListWeight(list) == MostSpecific(list)
    requires name in LIST_PSEUDOS && name != "where" ==> SpelledList(list)
    ensures var x := ListPseudo(name, list); Weight(x) == SpecificityOf(x) <==> Spelled(x)
  {
    assert CLASS != NONE && "where" in LIST_PSEUDOS;
    if name in LIST_PSEUDOS { LowerNames(name); }
    hide LIST_PSEUDOS, ToLowerCase, SpelledList, ListWeight, MostSpecific;
  }

  /** And for every type selector. */
  lemma PrefixDecides(head: Head)
    ensures HeadWeight(head) == HeadSpecificity(head) <==> SpelledHead(head)
  {
    assert TYPE != NONE;
    hide Add;
    AddNothing(PrefixWeight(head), HeadSpecificity(head));
  }

  lemma LowerNames(name: string)
    requires name in LIST_PSEUDOS
    ensures ToLowerCase(name) == name
  {
    LowerWord(name);
  }

  lemma LowerWord(word: string)
    requires forall i :: 0 <= i < |word| ==> 'a' <= word[i] <= 'z'
    ensures ToLowerCase(word) == word
  {
    assert |ToLowerCase(word)| == |word|;
  }

  lemma {:induction false} SpelledListWeighs(list: seq<Complex>)
    requires ValidList(list) && SpelledList(list)
    ensures ListWeight(list) == MostSpecific(list)
    decreases list, 3
  {
    if list != [] {
      assert ValidComplex(list[0]);
      SpelledPartsWeigh(list[0].parts);
      SpelledListWeighs(list[1..]);
    }
  }

  lemma {:induction false} SpelledPartsWeigh(parts: seq<Part>)
    requires ValidParts(parts) && SpelledParts(parts)
    ensures PartsWeight(parts) == PartsSpecificity(parts)
    decreases parts, 2
  {
    hide Add, HeadWeight, HeadSpecificity, SpelledHead, ValidPart, Spelled;
    if parts != [] {
      ValidRestOf(parts[0]);
      PrefixDecides(parts[0].head);
      SpelledRestWeighs(parts[0].rest);
      SpelledPartsWeigh(parts[1..]);
    }
  }

  lemma ValidRestOf(p: Part)
    requires ValidPart(p)
    ensures ValidRest(p.rest)
  {
  }

  lemma {:induction false} SpelledRestWeighs(rest: seq<Simple>)
    requires ValidRest(rest) && forall j :: 0 <= j < |rest| ==> Spelled(rest[j])
    ensures RestWeight(rest) == RestSpecificity(rest)
    decreases rest, 1
  {
    if rest != [] {
      assert ValidSimple(rest[0]) && Spelled(rest[0]);
      SpellingDecides(rest[0]);
      SpelledRestWeighs(rest[1..]);
    }
  }

  // ----- brackets -----

  /** `t` neither closes the `depth` open blocks before it nor splits the list. */
  ghost predicate Passes(t: string, rest: string, depth: nat, level: nat, cur: string)
    requires depth > 0
  {
    && CloseAt(t + rest, depth, '(', ')') == Later(|t|, CloseAt(rest, depth, '(', ')'))
    && Pieces(t + rest, level, cur) == Pieces(rest, level, cur + t)
  }

  lemma {:induction false} FlatPasses(t: string, rest: string, depth: nat, level: nat, cur: string)
    requires Flat(t) && depth > 0 && (level == 0 ==> ',' !in t)
    ensures Passes(t, rest, depth, level, cur)
    ensures CloseAt(t + rest, depth, '[', ']') == Later(|t|, CloseAt(rest, depth, '[', ']'))
  {
    if t == "" {
      assert t + rest == rest && cur + t == cur;
    } else {
      assert (t + rest)[1..] == t[1..] + rest && (t + rest)[0] == t[0];
      FlatPasses(t[1..], rest, depth, level, cur + [t[0]]);
      assert cur + [t[0]] + t[1..] == cur + t;
      assert t[0] in t;
    }
  }

  lemma BothPass(t: string, u: string, rest: string, depth: nat, level: nat, cur: string)
    requires depth > 0 && Passes(t, u + rest, depth, level, cur) && Passes(u, rest, depth, level, cur + t)
    ensures Passes(t + u, rest, depth, level, cur)
  {
    assert t + u + rest == t + (u + rest);
    assert cur + t + u == cur + (t + u);
  }

  lemma AllPass(t: string, u: string, v: string, rest: string, depth: nat, level: nat, cur: string)
    requires depth > 0 && Passes(t, u + v + rest, depth, level, cur)
    requires Passes(u, v + rest, depth, level, cur + t) && Passes(v, rest, depth, level, cur + t + u)
    ensures Passes(t + u + v, rest, depth, level, cur)
  {
    assert u + v + rest == u + (v + rest);
    BothPass(t, u, v + rest, depth, level, cur);
    assert cur + t + u == cur + (t + u);
    BothPass(t + u, v, rest, depth, level, cur);
  }

  lemma ParenthesesPass(t: string, rest: string, depth: nat, level: nat, cur: string)
    requires depth > 0 && Passes(t, ")" + rest, depth + 1, level + 1, cur + "(")
    ensures Passes("(" + t + ")", rest, depth, level, cur)
  {
    var s := "(" + t + ")" + rest;
    assert s[1..] == t + (")" + rest);
    assert (")" + rest)[1..] == rest;
    assert cur + "(" + t + ")" == cur + ("(" + t + ")");
    assert CloseAt(s, depth, '(', ')') == Later(1, CloseAt(t + (")" + rest), depth + 1, '(', ')'));
    assert CloseAt(")" + rest, depth + 1, '(', ')') == Later(1, CloseAt(rest, depth, '(', ')'));
    assert Pieces(s, level, cur) == Pieces(t + (")" + rest), level + 1, cur + "(");
    assert Pieces(")" + rest, level + 1, cur + "(" + t) == Pieces(rest, level, cur + "(" + t + ")");
  }

  lemma BracketsPass(t: string, rest: string, depth: nat, level: nat, cur: string)
    requires depth > 0 && Flat(t)
    ensures Passes("[" + t + "]", rest, depth, level, cur)
  {
    var s := "[" + t + "]" + rest;
    FlatPasses(t, "]" + rest, depth, level + 1, cur + "[");
    assert s[1..] == t + ("]" + rest);
    assert ("]" + rest)[1..] == rest;
    assert cur + "[" + t + "]" == cur + ("[" + t + "]");
    assert CloseAt(s, depth, '(', ')') == Later(1, CloseAt(t + ("]" + rest), depth, '(', ')'));
    assert CloseAt("]" + rest, depth, '(', ')') == Later(1, CloseAt(rest, depth, '(', ')'));
    assert Pieces(s, level, cur) == Pieces(t + ("]" + rest), level + 1, cur + "[");
    assert Pieces("]" + rest, level + 1, cur + "[" + t) == Pieces(rest, level, cur + "[" + t + "]");
  }

  lemma NamePasses(name: string, rest: string, depth: nat, level: nat, cur: string)
    requires depth > 0 && forall i :: 0 <= i < |name| ==> IsNameChar(name[i]) || name[i] in "#.:*| \t\n>+~"
    ensures Passes(name, rest, depth, level, cur)
  {
    FlatPasses(name, rest, depth, level, cur);
  }

  lemma CallPasses(name: string, inner: string, rest: string, depth: nat, level: nat, cur: string)
    requires depth > 0 && forall i :: 0 <= i < |name| ==> IsNameChar(name[i])
    requires Passes(inner, ")" + rest, depth + 1, level + 1, cur + (":" + name) + "(")
    ensures Passes(Call(name, inner), rest, depth, level, cur)
  {
    var block := "(" + inner + ")";
    ParenthesesPass(inner, rest, depth, level, cur + (":" + name));
    NamePasses(":" + name, block + rest, depth, level, cur);
    BothPass(":" + name, block, rest, depth, level, cur);
    assert Call(name, inner) == ":" + name + block;
  }

  lemma {:induction false} SimplePasses(x: Simple, rest: string, depth: nat, level: nat, cur: string)
    requires ValidSimple(x) && depth > 0
    ensures Passes(PrintSimple(x), rest, depth, level, cur)
    decreases x, 0
  {
    hide Passes, Call, ToLowerCase, IsFormula, Flat, ValidList, PrintList;
    match x {
      case AttributeSelector(body) => BracketsPass(body, rest, depth, level, cur);
      case ListPseudo(name, list) =>
        ListPasses(list, ")" + rest, depth + 1, level + 1, cur + (":" + name) + "(");
        CallPasses(name, PrintList(list), rest, depth, level, cur);
      case NthOf(name, formula, list) =>
        OfListPasses(formula, list, ")" + rest, depth + 1, level + 1, cur + (":" + name) + "(");
        CallPasses(name, formula + " of " + PrintList(list), rest, depth, level, cur);
      case FunctionalPseudo(name, argument) => ArgumentPasses(name, argument, rest, depth, level, cur);
      case IdSelector(name) => MarkedPasses("#", name, rest, depth, level, cur);
      case ClassSelector(name) => MarkedPasses(".", name, rest, depth, level, cur);
      case PseudoClass(name) => MarkedPasses(":", name, rest, depth, level, cur);
      case PseudoElement(name) => MarkedPasses("::", name, rest, depth, level, cur);
    }
  }

  lemma ArgumentPasses(name: string, argument: string, rest: string, depth: nat, level: nat, cur: string)
    requires IsName(name) && Flat(argument) && depth > 0
    ensures Passes(Call(name, argument), rest, depth, level, cur)
  {
    hide Passes, Call;
    FlatPasses(argument, ")" + rest, depth + 1, level + 1, cur + (":" + name) + "(");
    CallPasses(name, argument, rest, depth, level, cur);
  }

  lemma MarkedPasses(mark: string, name: string, rest: string, depth: nat, level: nat, cur: string)
    requires IsName(name) && mark in {"#", ".", ":", "::"} && depth > 0
    ensures Passes(mark + name, rest, depth, level, cur)
  {
    NamePasses(mark + name, rest, depth, level, cur);
  }

  lemma {:induction false} OfListPasses(formula: string, list: seq<Complex>, rest: string, depth: nat, level: nat,
                                        cur: string)
    requires IsFormula(formula) && ValidList(list) && depth > 0 && level > 0
    ensures Passes(formula + " of " + PrintList(list), rest, depth, level, cur)
    decreases list, 4
  {
    var front := formula + " of ";
    FlatPasses(front, PrintList(list) + rest, depth, level, cur);
    ListPasses(list, rest, depth, level, cur + front);
    BothPass(front, PrintList(list), rest, depth, level, cur);
  }

  lemma {:induction false} RestPasses(xs: seq<Simple>, rest: string, depth: nat, level: nat, cur: string)
    requires ValidRest(xs) && depth > 0
    ensures Passes(PrintRest(xs), rest, depth, level, cur)
    decreases xs, 1
  {
    if xs == [] {
      FlatPasses("", rest, depth, level, cur);
    } else {
      SimplePasses(xs[0], PrintRest(xs[1..]) + rest, depth, level, cur);
      RestPasses(xs[1..], rest, depth, level, cur + PrintSimple(xs[0]));
      BothPass(PrintSimple(xs[0]), PrintRest(xs[1..]), rest, depth, level, cur);
    }
  }

  lemma {:induction false} PartsPass(parts: seq<Part>, rest: string, depth: nat, level: nat, cur: string)
    requires ValidParts(parts) && depth > 0
    ensures Passes(PrintParts(parts), rest, depth, level, cur)
    decreases parts, 2
  {
    if parts == [] {
      FlatPasses("", rest, depth, level, cur);
    } else {
      var p := parts[0];
      var front, body, tail := p.combinator + PrintHead(p.head), PrintRest(p.rest), PrintParts(parts[1..]);
      NamePasses(front, body + tail + rest, depth, level, cur);
      RestPasses(p.rest, tail + rest, depth, level, cur + front);
      PartsPass(parts[1..], rest, depth, level, cur + front + body);
      AllPass(front, body, tail, rest, depth, level, cur);
    }
  }

  /** A whole list passes as long as some bracket is open around it. */
  lemma {:induction false} ListPasses(list: seq<Complex>, rest: string, depth: nat, level: nat, cur: string)
    requires ValidList(list) && depth > 0 && level > 0
    ensures Passes(PrintList(list), rest, depth, level, cur)
    decreases list, 3
  {
    if list == [] {
      FlatPasses("", rest, depth, level, cur);
    } else if |list| == 1 {
      assert ValidComplex(list[0]);
      PartsPass(list[0].parts, rest, depth, level, cur);
    } else {
      assert ValidComplex(list[0]);
      var first, others := PrintComplex(list[0]), PrintList(list[1..]);
      PartsPass(list[0].parts, "," + others + rest, depth, level, cur);
      FlatPasses(",", others + rest, depth, level, cur + first);
      ListPasses(list[1..], rest, depth, level, cur + first + ",");
      AllPass(first, ",", others, rest, depth, level, cur);
    }
  }
}
