/** The specificity scanner run on printed selectors. */
module SelectorScan {
  import opened Json
  import opened Text
  import opened Matcher
  import opened Selectors

  // ----- tokens -----

  /** What may follow a name without lengthening it or making it a function. */
  predicate EndsName(rest: string) {
    rest != "" ==> !IsNameChar(rest[0]) && rest[0] != '('
  }

  lemma {:induction false} NameLenOf(name: string, rest: string)
    requires (forall i :: 0 <= i < |name| ==> IsNameChar(name[i])) && (rest != "" ==> !IsNameChar(rest[0]))
    ensures NameLen(name + rest) == |name|
  {
    if name == "" {
      assert name + rest == rest;
    } else {
      assert (name + rest)[1..] == name[1..] + rest;
      NameLenOf(name[1..], rest);
    }
  }

  /** Where the pieces of a printed function call lie. */
  lemma CallText(name: string, inner: string, rest: string)
    ensures var s := Call(name, inner) + rest;
      var n := 1 + |name|;
      && s[0] == ':' && s[1..] == name + ("(" + (inner + (")" + rest)))
      && s[n] == '(' && s[n + 1..] == inner + (")" + rest) && s[1..n] == name
      && n + 1 + |inner| < |s| && s[n + 1..n + 1 + |inner|] == inner
      && s[1] == if name == "" then '(' else name[0]
  {
  }

  lemma CallToken(name: string, inner: string, rest: string)
    requires (forall i :: 0 <= i < |name| ==> IsNameChar(name[i]))
    requires Passes(inner, ")" + rest, 1, 1, "")
    ensures Token(Call(name, inner) + rest) == (Functional(name, inner), |Call(name, inner)|)
  {
    var s := Call(name, inner) + rest;
    CallText(name, inner, rest);
    NameLenOf(name, "(" + (inner + (")" + rest)));
    assert CloseAt(")" + rest, 1, '(', ')') == Some(0);
    assert !("::" <= s);
    PseudoCall(s, 1 + |name|, 1 + |name| + 1 + |inner|);
  }

  lemma PrefixedToken(prefix: string, name: string, rest: string)
    requires IsName(name) && EndsName(rest) && prefix in {"#", ".", ":", "::"}
    ensures Token(prefix + name + rest)
      == (Counts(if prefix == "#" then ID else if prefix == "::" then TYPE else CLASS), |prefix| + |name|)
  {
    var s := prefix + name + rest;
    NameLenOf(name, rest);
    assert s[|prefix|..] == name + rest;
    assert s[|prefix|] == name[0];
    if prefix == ":" { assert !("::" <= s); }
  }

  lemma AttributeToken(body: string, rest: string)
    requires Flat(body)
    ensures Token("[" + body + "]" + rest) == (Counts(CLASS), |body| + 2)
  {
    var s := "[" + body + "]" + rest;
    FlatPasses(body, "]" + rest, 1, 1, "");
    assert s[1..] == body + ("]" + rest);
    assert CloseAt("]" + rest, 1, '[', ']') == Some(0);
  }

  function KindOf(x: Simple): Kind {
    match x
    case IdSelector(_) => Counts(ID)
    case PseudoElement(_) => Counts(TYPE)
    case ListPseudo(name, list) => Functional(name, PrintList(list))
    case _ => Counts(CLASS)
  }

  lemma ListToken(name: string, list: seq<Complex>, rest: string)
    requires IsName(name) && ValidList(list)
    ensures Token(Call(name, PrintList(list)) + rest)
      == (Functional(name, PrintList(list)), |Call(name, PrintList(list))|)
  {
    ListPasses(list, ")" + rest, 1, 1, "");
    CallToken(name, PrintList(list), rest);
  }

  lemma OfListToken(name: string, formula: string, list: seq<Complex>, rest: string)
    requires IsName(name) && ToLowerCase(name) in NTH_PSEUDOS && IsFormula(formula) && ValidList(list)
    ensures var inner := formula + " of " + PrintList(list);
      Token(Call(name, inner) + rest) == (Counts(CLASS), |Call(name, inner)|)
  {
    var inner := formula + " of " + PrintList(list);
    OfListPasses(formula, list, ")" + rest, 1, 1, "");
    CallToken(name, inner, rest);
    LowerCased(name);
    hide ToLowerCase;
    assert Functional(name, inner) == Counts(CLASS);
  }

  /** A name the scanner looks for is in lower case already. */
  lemma LowerCased(name: string)
    requires ToLowerCase(name) !in LIST_PSEUDOS
    ensures name !in LIST_PSEUDOS
  {
    if name in LIST_PSEUDOS { LowerNames(name); }
  }

  lemma FunctionToken(name: string, argument: string, rest: string)
    requires IsName(name) && ToLowerCase(name) !in LIST_PSEUDOS && Flat(argument)
    ensures Token(Call(name, argument) + rest) == (Counts(CLASS), |Call(name, argument)|)
  {
    LowerCased(name);
    FlatPasses(argument, ")" + rest, 1, 1, "");
    CallToken(name, argument, rest);
  }

  /** One printed simple selector is one token. */
  lemma SimpleToken(x: Simple, rest: string)
    requires ValidSimple(x) && EndsName(rest)
    ensures Token(PrintSimple(x) + rest) == (KindOf(x), |PrintSimple(x)|)
  {
    hide Token, EndsName;
    match x {
      case IdSelector(name) => PrefixedToken("#", name, rest);
      case ClassSelector(name) => PrefixedToken(".", name, rest);
      case AttributeSelector(body) => AttributeToken(body, rest);
      case PseudoClass(name) => PrefixedToken(":", name, rest);
      case PseudoElement(name) => PrefixedToken("::", name, rest);
      case ListPseudo(name, list) => ListToken(name, list, rest);
      case NthOf(name, formula, list) => OfListToken(name, formula, list, rest);
      case FunctionalPseudo(name, argument) => FunctionToken(name, argument, rest);
    }
  }

  /** What the scanner has left to do once it has passed a token. */
  lemma ScanPast(text: string, kind: Kind, rest: string)
    requires text != "" && Token(text + rest) == (kind, |text|)
    ensures Scan(text + rest) == Add(Weigh(kind), Scan(rest))
  {
    assert (text + rest)[|text|..] == rest;
  }

  lemma {:induction false} ScanPastBlank(text: string, rest: string)
    requires forall i :: 0 <= i < |text| ==> IsSpace(text[i]) || text[i] in " \t\n>+~"
    ensures Scan(text + rest) == Scan(rest)
  {
    if text == "" {
      assert text + rest == rest;
    } else {
      assert text[..1] + (text[1..] + rest) == text + rest;
      ScanPast(text[..1], Counts(NONE), text[1..] + rest);
      ScanPastBlank(text[1..], rest);
      AddLaws(Scan(rest), NONE, NONE);
    }
  }

  lemma SimpleStart(x: Simple)
    ensures PrintSimple(x) != "" && PrintSimple(x)[0] in "#.[:"
  {
  }

  lemma RestStart(xs: seq<Simple>, rest: string)
    requires EndsName(rest)
    ensures EndsName(PrintRest(xs) + rest)
  {
    if xs == [] {
      assert PrintRest(xs) + rest == rest;
    } else {
      SimpleStart(xs[0]);
    }
  }

  lemma PartsText(parts: seq<Part>)
    requires parts != []
    ensures PrintParts(parts)
      == parts[0].combinator + (PrintHead(parts[0].head) + (PrintRest(parts[0].rest) + PrintParts(parts[1..])))
  {
    hide PrintHead, PrintRest;
    Regroup(parts[0].combinator, PrintHead(parts[0].head), PrintRest(parts[0].rest), PrintParts(parts[1..]));
  }

  lemma Regroup(a: string, b: string, c: string, d: string)
    ensures a + b + c + d == a + (b + (c + d))
  {
  }

  lemma PartsStart(parts: seq<Part>)
    requires ValidParts(parts) && (parts != [] ==> parts[0].combinator != "")
    ensures EndsName(PrintParts(parts))
  {
    hide EndsName, PrintHead, PrintRest;
    if parts == [] {
      NothingEndsName();
    } else {
      assert ValidPart(parts[0]);
      PartsText(parts);
      BlankEndsName(parts[0].combinator,
        PrintHead(parts[0].head) + (PrintRest(parts[0].rest) + PrintParts(parts[1..])));
    }
  }

  lemma NothingEndsName()
    ensures EndsName("")
  {
  }

  lemma BlankEndsName(combinator: string, rest: string)
    requires IsCombinator(combinator) && combinator != ""
    ensures EndsName(combinator + rest)
  {
    assert (combinator + rest)[0] == combinator[0];
  }

  lemma ScanName(name: string, rest: string)
    requires StartsWithLetter(name) && (rest != "" ==> !IsNameChar(rest[0]))
    ensures Scan(name + rest) == Add(TYPE, Scan(rest))
  {
    hide Scan;
    NameLenOf(name, rest);
    ScanPast(name, Counts(TYPE), rest);
  }

  lemma ScanMark(mark: string, rest: string)
    requires mark == "*" || mark == "|"
    ensures Scan(mark + rest) == Scan(rest)
  {
    ScanPast(mark, Counts(NONE), rest);
    AddLaws(Scan(rest), NONE, NONE);
  }

  lemma ScanPrefix(prefix: Prefix, rest: string)
    requires prefix.Namespace? ==> StartsWithLetter(prefix.name)
    ensures Scan(PrintPrefix(prefix) + rest) == Add(if prefix.Namespace? then TYPE else NONE, Scan(rest))
  {
    hide Scan, StartsWithLetter, Add;
    AddLaws(Scan(rest), NONE, NONE);
    match prefix {
      case Default => assert "" + rest == rest;
      case NoNamespace => ScanMark("|", rest);
      case AnyNamespace =>
        assert "*|" + rest == "*" + ("|" + rest);
        ScanMark("*", "|" + rest);
        ScanMark("|", rest);
      case Namespace(name) =>
        assert name + "|" + rest == name + ("|" + rest);
        ScanName(name, "|" + rest);
        ScanMark("|", rest);
    }
  }

  lemma ScanHead(head: Head, rest: string)
    requires EndsName(rest) && ValidHead(head)
    ensures Scan(PrintHead(head) + rest) == Add(HeadWeight(head), Scan(rest))
  {
    hide Scan, Add, StartsWithLetter, IsNameChar;
    if head.Untyped? {
      assert "" + rest == rest;
      AddLaws(Scan(rest), NONE, NONE);
      AddLaws(NONE, NONE, NONE);
    } else {
      var local := if head.Typed? then head.name else "*";
      assert PrintHead(head) + rest == PrintPrefix(head.prefix) + (local + rest);
      ScanPrefix(head.prefix, local + rest);
      if head.Typed? { ScanName(local, rest); } else { ScanMark("*", rest); }
      AddLaws(Scan(rest), NONE, NONE);
      AddSwap(PrefixWeight(head), HeadSpecificity(head), Scan(rest));
    }
  }

  lemma {:induction false} ScanSimple(x: Simple, rest: string)
    requires ValidSimple(x) && EndsName(rest)
    ensures Scan(PrintSimple(x) + rest) == Add(Weight(x), Scan(rest))
    decreases x, 0
  {
    hide Scan, ListScan, Token, Add, ListWeight;
    SimpleStart(x);
    SimpleToken(x, rest);
    ScanPast(PrintSimple(x), KindOf(x), rest);
    if LooksInto(x) { ScanListWeighs(x.list); }
  }

  lemma {:induction false} ScanRest(xs: seq<Simple>, rest: string)
    requires ValidRest(xs) && EndsName(rest)
    ensures Scan(PrintRest(xs) + rest) == Add(RestWeight(xs), Scan(rest))
    decreases xs, 1
  {
    hide Scan;
    AddLaws(Scan(rest), NONE, NONE);
    if xs == [] {
      assert PrintRest(xs) + rest == rest;
    } else {
      var first, others := PrintSimple(xs[0]), PrintRest(xs[1..]);
      RestStart(xs[1..], rest);
      ScanSimple(xs[0], others + rest);
      ScanRest(xs[1..], rest);
      assert first + others + rest == first + (others + rest);
      AddLaws(Weight(xs[0]), RestWeight(xs[1..]), Scan(rest));
    }
  }

  lemma {:induction false} ScanPart(p: Part, tail: string)
    requires ValidPart(p) && EndsName(tail)
    ensures Scan(p.combinator + (PrintHead(p.head) + (PrintRest(p.rest) + tail)))
      == Add(HeadWeight(p.head), Add(RestWeight(p.rest), Scan(tail)))
    decreases p, 1
  {
    hide Scan;
    var body := PrintRest(p.rest) + tail;
    RestStart(p.rest, tail);
    ScanPastBlank(p.combinator, PrintHead(p.head) + body);
    ScanHead(p.head, body);
    ScanRest(p.rest, tail);
  }

  /** The scanner on any complex selector's text finds its weight. */
  lemma {:induction false} ScanPartsWeighs(parts: seq<Part>)
    requires ValidParts(parts)
    ensures Scan(PrintParts(parts)) == PartsWeight(parts)
    decreases parts, 2
  {
    if parts != [] {
      assert ValidPart(parts[0]);
      hide Scan, Add, ValidPart;
      PartsStart(parts[1..]);
      PartsText(parts);
      ScanPart(parts[0], PrintParts(parts[1..]));
      ScanPartsWeighs(parts[1..]);
    }
  }

  // ----- lists -----

  function Texts(list: seq<Complex>): (r: seq<string>)
    ensures |r| == |list|
  {
    if list == [] then [] else [PrintComplex(list[0])] + Texts(list[1..])
  }

  lemma {:induction false} PrintedPieces(list: seq<Complex>)
    requires ValidList(list) && list != []
    ensures Pieces(PrintList(list), 0, "") == Texts(list)
  {
    assert ValidComplex(list[0]);
    var first := PrintComplex(list[0]);
    if |list| == 1 {
      PartsPass(list[0].parts, "", 1, 0, "");
      assert first + "" == first && "" + first == first;
    } else {
      var others := PrintList(list[1..]);
      PartsPass(list[0].parts, "," + others, 1, 0, "");
      PrintedPieces(list[1..]);
      assert PrintList(list) == first + ("," + others) && "" + first == first;
      assert ("," + others)[1..] == others;
    }
  }

  lemma LastOfName(name: string)
    requires IsName(name)
    ensures !IsSpace(name[|name| - 1])
  {
  }

  predicate EndsSolid(text: string) {
    text != "" && !IsSpace(text[|text| - 1])
  }

  lemma SolidAfter(front: string, text: string)
    requires EndsSolid(text)
    ensures EndsSolid(front + text)
  {
  }

  lemma NameIsSolid(name: string)
    requires IsName(name)
    ensures EndsSolid(name)
  {
    LastOfName(name);
  }

  lemma CallIsSolid(name: string, inner: string)
    ensures EndsSolid(Call(name, inner))
  {
  }

  lemma SimpleEnd(x: Simple)
    requires ValidSimple(x)
    ensures EndsSolid(PrintSimple(x))
  {
    hide EndsSolid, Call, ToLowerCase, PrintList;
    BracketIsSolid();
    match x {
      case IdSelector(name) => NameIsSolid(name); SolidAfter("#", name);
      case ClassSelector(name) => NameIsSolid(name); SolidAfter(".", name);
      case AttributeSelector(body) => SolidAfter("[" + body, "]");
      case PseudoClass(name) => NameIsSolid(name); SolidAfter(":", name);
      case PseudoElement(name) => NameIsSolid(name); SolidAfter("::", name);
      case ListPseudo(name, list) => CallIsSolid(name, PrintList(list));
      case NthOf(name, formula, list) => CallIsSolid(name, formula + " of " + PrintList(list));
      case FunctionalPseudo(name, argument) => CallIsSolid(name, argument);
    }
  }

  lemma BracketIsSolid()
    ensures EndsSolid("]") && EndsSolid("*")
  {
  }

  lemma {:induction false} RestEnd(xs: seq<Simple>)
    requires ValidRest(xs) && xs != []
    ensures EndsSolid(PrintRest(xs))
  {
    hide EndsSolid, PrintSimple, ValidSimple;
    SimpleEnd(xs[0]);
    if |xs| > 1 {
      RestEnd(xs[1..]);
      SolidAfter(PrintSimple(xs[0]), PrintRest(xs[1..]));
    } else {
      assert xs[1..] == [] && PrintRest(xs) == PrintSimple(xs[0]);
    }
  }

  lemma {:induction false} PartsEnd(parts: seq<Part>)
    requires ValidParts(parts) && parts != []
    ensures EndsSolid(PrintParts(parts))
  {
    hide EndsSolid, PrintRest, PrintHead, ValidRest;
    var p := parts[0];
    assert ValidPart(p);
    if |parts| > 1 {
      PartsEnd(parts[1..]);
      SolidAfter(p.combinator + PrintHead(p.head) + PrintRest(p.rest), PrintParts(parts[1..]));
    } else {
      assert parts[1..] == [] && PrintParts(parts) == p.combinator + PrintHead(p.head) + PrintRest(p.rest);
      if p.rest != [] {
        RestEnd(p.rest);
        SolidAfter(p.combinator + PrintHead(p.head), PrintRest(p.rest));
      } else {
        HeadEnd(p.head);
        SolidAfter(p.combinator, PrintHead(p.head));
        NoRest();
        assert p.combinator + PrintHead(p.head) + "" == p.combinator + PrintHead(p.head);
      }
    }
  }

  lemma NoRest()
    ensures PrintRest([]) == ""
  {
  }

  lemma HeadEnd(head: Head)
    requires ValidHead(head) && !head.Untyped?
    ensures EndsSolid(PrintHead(head))
  {
    hide EndsSolid;
    BracketIsSolid();
    if head.Typed? {
      NameIsSolid(head.name);
      SolidAfter(PrintPrefix(head.prefix), head.name);
    } else {
      SolidAfter(PrintPrefix(head.prefix), "*");
    }
  }

  /** Trimming a printed selector takes only leading white space, which counts nothing. */
  lemma TrimKeepsScan(text: string)
    requires EndsSolid(text)
    ensures Trim(text) != "" && Scan(Trim(text)) == Scan(text)
  {
    hide Scan;
    var t := TrimStart(text);
    var lead := text[..|text| - |t|];
    assert text == lead + t;
    ScanPastBlank(lead, t);
    TrimEndPast(t, "");
    assert t + "" == t;
    assert t == "" ==> lead == text;
  }

  lemma {:induction false} TrimmedComplex(c: Complex)
    requires ValidComplex(c)
    ensures Trim(PrintComplex(c)) != "" && Scan(Trim(PrintComplex(c))) == PartsWeight(c.parts)
    decreases c, 3
  {
    hide Scan, Trim, PartsWeight;
    ScanPartsWeighs(c.parts);
    PartsEnd(c.parts);
    TrimKeepsScan(PrintComplex(c));
  }

  predicate Fit(list: seq<Complex>, bound: nat) {
    forall i :: 0 <= i < |list| ==> |Texts(list)[i]| <= bound
  }

  lemma FitTail(list: seq<Complex>, bound: nat)
    requires list != [] && Fit(list, bound)
    ensures Texts(list)[0] == PrintComplex(list[0]) && Texts(list)[1..] == Texts(list[1..])
    ensures Fit(list[1..], bound)
  {
    assert Texts(list)[1..] == Texts(list[1..]);
    forall i | 0 <= i < |list[1..]| ensures |Texts(list[1..])[i]| <= bound {
      assert Texts(list)[i + 1] == Texts(list[1..])[i];
    }
  }

  lemma {:induction false} NoneBlank(list: seq<Complex>, bound: nat)
    requires ValidList(list) && Fit(list, bound)
    ensures NonBlank(Texts(list), bound) == Texts(list)
    decreases list, 4
  {
    if list != [] {
      var c := list[0];
      assert ValidComplex(c);
      assert Trim(PrintComplex(c)) != "" by { TrimmedComplex(c); }
      FitTail(list, bound);
      hide Scan, Trim, ValidComplex, PrintComplex;
      NoneBlank(list[1..], bound);
      assert [PrintComplex(c)] + Texts(list[1..]) == Texts(list);
    }
  }

  lemma MaxLaws(a: Specificity, b: Specificity, c: Specificity)
    ensures Max(a, NONE) == a && Max(NONE, a) == a && Max(Max(a, b), c) == Max(a, Max(b, c))
  {
  }

  lemma {:induction false} MaxOfTexts(list: seq<Complex>, bound: nat, max: Specificity)
    requires ValidList(list) && Fit(list, bound)
    ensures MaxScan(Texts(list), bound, max) == Max(max, ListWeight(list))
    decreases list, 4
  {
    hide Scan, Trim, ValidComplex, Max, PartsWeight, PrintComplex;
    MaxLaws(max, NONE, NONE);
    if list != [] {
      var c := list[0];
      assert ValidComplex(c);
      TrimmedComplex(c);
      FitTail(list, bound);
      MaxOfTexts(list[1..], bound, Max(max, PartsWeight(c.parts)));
      MaxLaws(max, PartsWeight(c.parts), ListWeight(list[1..]));
    }
  }

  /** On the text of any selector list the scanner finds its weight. */
  lemma {:induction false} ScanListWeighs(list: seq<Complex>)
    requires ValidList(list)
    ensures ListScan(PrintList(list)) == ListWeight(list)
    decreases list, 5
  {
    var text := PrintList(list);
    if list == [] {
      assert Trim("") == "";
      assert Pieces(text, 0, "") == [""];
      assert NonBlank([""], 0) == [];
    } else {
      PrintedPieces(list);
      NoneBlank(list, |text|);
      MaxOfTexts(list, |text|, NONE);
      MaxLaws(ListWeight(list), NONE, NONE);
    }
  }

  lemma ScanNothing()
    ensures Scan("") == NONE
  {
  }

  lemma ScanAlone(x: Simple)
    requires ValidSimple(x)
    ensures Scan(PrintSimple(x)) == Weight(x)
  {
    hide Scan, Weight;
    ScanSimple(x, "");
    assert PrintSimple(x) + "" == PrintSimple(x);
    AddLaws(Weight(x), NONE, NONE);
    ScanNothing();
  }

  // ----- the standard -----

  /** Scanning inverts printing: on the text of a complex selector the scanner returns the
      specificity section 17 gives it, when every simple selector in it is spelled so. */
  lemma ScanParts(parts: seq<Part>)
    requires ValidParts(parts) && SpelledParts(parts)
    ensures Scan(PrintParts(parts)) == PartsSpecificity(parts)
  {
    ScanPartsWeighs(parts);
    SpelledPartsWeigh(parts);
  }

  /** The same for a selector list. */
  lemma ScanList(list: seq<Complex>)
    requires ValidList(list) && SpelledList(list)
    ensures ListScan(PrintList(list)) == MostSpecific(list)
  {
    ScanListWeighs(list);
    SpelledListWeighs(list);
  }

  /** And for every simple selector whose inner lists are spelled so: the scanner returns the
      standard's specificity if and only if it is spelled so itself. */
  lemma ScanSimpleExactly(x: Simple)
    requires ValidSimple(x) && (LooksInto(x) ==> SpelledList(x.list))
    ensures Scan(PrintSimple(x)) == SpecificityOf(x) <==> Spelled(x)
  {
    hide Scan, Weight, SpecificityOf, Spelled;
    ScanAlone(x);
    SpellingDecides(x);
  }

  // ----- spellings that are miscounted -----

  lemma LowerCaseOf(upper: string, lower: string)
    requires |upper| == |lower| && forall i :: 0 <= i < |upper| ==> LowerChar(upper[i]) == lower[i]
    ensures ToLowerCase(upper) == lower
  {
  }

  /** One colon always counts a class: so a pseudo-element in its old spelling, which the
      standard counts as a type, is miscounted. */
  lemma OneColonCountsAsClass(name: string)
    requires IsName(name)
    ensures Scan(":" + name) == CLASS
    ensures ToLowerCase(name) in LEGACY_ELEMENTS ==> SpecificityOf(PseudoClass(name)) == TYPE
  {
    ScanAlone(PseudoClass(name));
  }

  /** A list that is one simple selector. */
  function Alone(x: Simple): seq<Complex> {
    [Complex([Part("", Untyped, [x])])]
  }

  lemma AloneValid(x: Simple)
    requires ValidSimple(x)
    ensures ValidList(Alone(x))
  {
    var part := Part("", Untyped, [x]);
    hide ValidSimple;
    assert ValidRest(part.rest) && IsCombinator("");
    assert ValidPart(part);
    assert ValidParts([part]) && ValidComplex(Complex([part]));
  }

  lemma AloneMeans(x: Simple)
    ensures PrintList(Alone(x)) == PrintSimple(x) && MostSpecific(Alone(x)) == SpecificityOf(x)
  {
    hide Add, Max, PrintSimple, SpecificityOf;
    var part := Part("", Untyped, [x]);
    assert [part][1..] == [] && [x][1..] == [] && Alone(x)[1..] == [];
    AddLaws(SpecificityOf(x), NONE, NONE);
    MaxLaws(SpecificityOf(x), NONE, NONE);
    assert RestSpecificity([x]) == SpecificityOf(x) && PrintRest([x]) == PrintSimple(x);
    assert PartsSpecificity([part]) == SpecificityOf(x) && PrintParts([part]) == PrintSimple(x);
  }

  /** `:NOT(#x)`: an id by the standard, a class to the scanner. */
  lemma UpperCaseNot(id: string)
    requires IsName(id)
    ensures Scan(":NOT(#" + id + ")") == CLASS
    ensures var x := ListPseudo("NOT", Alone(IdSelector(id)));
      ValidSimple(x) && PrintSimple(x) == ":NOT(#" + id + ")" && SpecificityOf(x) == ID
  {
    hide Scan, PrintList, ValidList, Alone, MostSpecific, ToLowerCase, ListWeight, Add;
    var x := ListPseudo("NOT", Alone(IdSelector(id)));
    LowerCaseOf("NOT", "not");
    AloneValid(IdSelector(id));
    AloneMeans(IdSelector(id));
    assert PrintSimple(x) == ":NOT(#" + id + ")";
    ScanAlone(x);
  }

  /** `:nth-child(2 of #x)`: a class and an id by the standard, a class to the scanner. */
  lemma NthChildOfId(id: string)
    requires IsName(id)
    ensures Scan(":nth-child(2 of #" + id + ")") == CLASS
    ensures var x := NthOf("nth-child", "2", Alone(IdSelector(id)));
      ValidSimple(x) && PrintSimple(x) == ":nth-child(2 of #" + id + ")" && SpecificityOf(x) == Add(CLASS, ID)
  {
    hide Scan, PrintList, ValidList, Alone, MostSpecific, ToLowerCase, Add;
    var x := NthOf("nth-child", "2", Alone(IdSelector(id)));
    LowerCaseOf("nth-child", "nth-child");
    AloneValid(IdSelector(id));
    AloneMeans(IdSelector(id));
    assert PrintSimple(x) == ":nth-child(2 of #" + id + ")";
    ScanAlone(x);
  }

  /** `svg|rect`: one type by the standard, two to the scanner. */
  lemma NamespaceCountsAsType(prefix: string, name: string)
    requires StartsWithLetter(prefix) && StartsWithLetter(name)
    ensures var part := Part("", Typed(Namespace(prefix), name), []);
      && ValidParts([part]) && PrintParts([part]) == prefix + "|" + name
      && PartsSpecificity([part]) == TYPE && Scan(PrintParts([part])) == Add(TYPE, TYPE)
  {
    hide Scan, Add, StartsWithLetter;
    var part := Part("", Typed(Namespace(prefix), name), []);
    assert ValidPart(part) && [part][1..] == [];
    AddLaws(TYPE, NONE, NONE);
    AddLaws(Add(TYPE, TYPE), NONE, NONE);
    assert PartsWeight([part]) == Add(HeadWeight(part.head), Add(NONE, NONE)) && Add(NONE, NONE) == NONE by {
      AddLaws(NONE, NONE, NONE);
    }
    ScanPartsWeighs([part]);
  }
}
