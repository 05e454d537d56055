/** The selector specificity scanner: what it computes on any text, and the loops that
    compute it. */
module Matcher {
  import opened Json
  import opened Text

  datatype Specificity = Specificity(ids: nat, classes: nat, types: nat)

  const NONE := Specificity(0, 0, 0)
  const ID := Specificity(1, 0, 0)
  const CLASS := Specificity(0, 1, 0)
  const TYPE := Specificity(0, 0, 1)

  function Add(a: Specificity, b: Specificity): Specificity {
    Specificity(a.ids + b.ids, a.classes + b.classes, a.types + b.types)
  }

  function Compare(a: Specificity, b: Specificity): int {
    if a.ids != b.ids then a.ids - b.ids
    else if a.classes != b.classes then a.classes - b.classes
    else a.types - b.types
  }

  function Max(a: Specificity, b: Specificity): Specificity {
    if Compare(b, a) > 0 then b else a
  }

  predicate IsLetter(c: char) {
    'a' <= c <= 'z' || 'A' <= c <= 'Z'
  }

  predicate IsNameChar(c: char) {
    IsLetter(c) || '0' <= c <= '9' || c == '_' || c == '-'
  }

  /** Names are made of ASCII letters, digits, hyphens and underscores, by their codes. */
  lemma NameCharsAre(c: char)
    ensures IsLetter(c) <==> 65 <= c as int <= 90 || 97 <= c as int <= 122
    ensures IsNameChar(c) <==> IsLetter(c) || 48 <= c as int <= 57 || c as int == 45 || c as int == 95
  {
  }

  function NameLen(s: string): (n: nat)
    ensures n <= |s|
  {
    if s != "" && IsNameChar(s[0]) then 1 + NameLen(s[1..]) else 0
  }

  /** How far into `s`, which starts inside `depth` open blocks, the last of them closes. */
  function CloseAt(s: string, depth: nat, open: char, close: char): (r: Option<nat>)
    requires depth > 0
    ensures r.Some? ==> r.value < |s|
  {
    if s == "" then None
    else if s[0] == open then Later(1, CloseAt(s[1..], depth + 1, open, close))
    else if s[0] == close then if depth == 1 then Some(0) else Later(1, CloseAt(s[1..], depth - 1, open, close))
    else Later(1, CloseAt(s[1..], depth, open, close))
  }

  function Later(n: nat, r: Option<nat>): Option<nat> {
    if r.Some? then Some(n + r.value) else None
  }

  /** The parts between separators outside every bracket; `cur` is the part begun. */
  function Pieces(s: string, depth: int, cur: string): (r: seq<string>)
    ensures r != []
    ensures forall i :: 0 <= i < |r| ==> |r[i]| <= |cur| + |s|
  {
    if s == "" then [cur]
    else if s[0] == '(' || s[0] == '[' then Pieces(s[1..], depth + 1, cur + [s[0]])
    else if s[0] == ')' || s[0] == ']' then Pieces(s[1..], depth - 1, cur + [s[0]])
    else if s[0] == ',' && depth == 0 then [cur] + Pieces(s[1..], 0, "")
    else Pieces(s[1..], depth, cur + [s[0]])
  }

  function NonBlank(parts: seq<string>, ghost bound: nat): (r: seq<string>)
    requires forall i :: 0 <= i < |parts| ==> |parts[i]| <= bound
    ensures forall i :: 0 <= i < |r| ==> |r[i]| <= bound
  {
    if parts == [] then []
    else (if Trim(parts[0]) != "" then [parts[0]] else []) + NonBlank(parts[1..], bound)
  }

  /** A token weighs a fixed specificity, or that of the selector list in its brackets. */
  datatype Kind = Counts(spec: Specificity) | Lists(text: string)

  /** What the scanner takes off the front of `s`, and how long it is. */
  function Token(s: string): (r: (Kind, nat))
    requires s != ""
    ensures 0 < r.1 <= |s|
    ensures r.0.Lists? ==> |r.0.text| < |s|
  {
    if s[0] == '#' then (Counts(ID), 1 + NameLen(s[1..]))
    else if s[0] == '.' then (Counts(CLASS), 1 + NameLen(s[1..]))
    else if s[0] == '[' then
      match CloseAt(s[1..], 1, '[', ']')
      case Some(k) => (Counts(CLASS), k + 2)
      case None => (Counts(CLASS), |s|)
    else if s[0] == ':' then PseudoToken(s)
    else if IsLetter(s[0]) then (Counts(TYPE), NameLen(s))
    else (Counts(NONE), 1)
  }

  function PseudoToken(s: string): (r: (Kind, nat))
    requires s != "" && s[0] == ':'
    ensures 0 < r.1 <= |s|
    ensures r.0.Lists? ==> |r.0.text| < |s|
  {
    if |s| > 1 && s[1] == ':' then (Counts(TYPE), 2 + NameLen(s[2..]))
    else
      var n := 1 + NameLen(s[1..]);
      if n < |s| && s[n] == '(' then
        match CloseAt(s[n + 1..], 1, '(', ')')
        case Some(k) => (Functional(s[1..n], s[n + 1..n + 1 + k]), n + k + 2)
        case None => (Functional(s[1..n], if n + 1 < |s| then s[n + 1..|s| - 1] else ""), |s|)
      else (Counts(CLASS), n)
  }

  function Functional(name: string, inner: string): Kind {
    if name == "where" then Counts(NONE)
    else if name == "is" || name == "not" || name == "has" then Lists(inner)
    else Counts(CLASS)
  }

  /** One selector's specificity, token by token. */
  function Scan(s: string): Specificity
    decreases |s|, 0, 0
  {
    if s == "" then NONE
    else
      var (kind, n) := Token(s);
      Add(if kind.Counts? then kind.spec else ListScan(kind.text), Scan(s[n..]))
  }

  /** The most specific selector of a list. */
  function ListScan(text: string): Specificity
    decreases |text|, 2, 0
  {
    MaxScan(NonBlank(Pieces(text, 0, ""), |text|), |text|, NONE)
  }

  function MaxScan(parts: seq<string>, bound: nat, max: Specificity): Specificity
    requires forall i :: 0 <= i < |parts| ==> |parts[i]| <= bound
    decreases bound, 1, |parts|
  {
    if parts == [] then max
    else MaxScan(parts[1..], bound, Max(max, Scan(Trim(parts[0]))))
  }

  // ----- what comparing means -----

  /** `a` is at least as specific as `b`: by its ids, then its classes, then its types. */
  predicate NoLess(a: Specificity, b: Specificity) {
    || a.ids > b.ids
    || (a.ids == b.ids && a.classes > b.classes)
    || (a.ids == b.ids && a.classes == b.classes && a.types >= b.types)
  }

  lemma CompareMeans(a: Specificity, b: Specificity)
    ensures Compare(a, b) >= 0 <==> NoLess(a, b)
    ensures Compare(a, b) > 0 <==> !NoLess(b, a)
    ensures NoLess(a, b) && NoLess(b, a) ==> a == b
  {
  }

  /** `r` is the greatest of `least` and of what these texts weigh: none has more ids, or as many
      and more classes, or as many of both and more types, and one of them is `r`. */
  predicate Greatest(r: Specificity, least: Specificity, parts: seq<string>) {
    && NoLess(r, least) && (forall part :: part in parts ==> NoLess(r, Scan(Trim(part))))
    && (r == least || exists part :: part in parts && r == Scan(Trim(part)))
  }

  /** A list weighs what its most specific selector does. */
  lemma ListIsGreatest(text: string)
    ensures Greatest(ListScan(text), NONE, NonBlank(Pieces(text, 0, ""), |text|))
  {
    hide Scan, Pieces, NonBlank, Trim;
    MaxIsGreatest(NonBlank(Pieces(text, 0, ""), |text|), |text|, NONE);
  }

  lemma {:induction false} MaxIsGreatest(parts: seq<string>, bound: nat, max: Specificity)
    requires forall i :: 0 <= i < |parts| ==> |parts[i]| <= bound
    ensures Greatest(MaxScan(parts, bound, max), max, parts)
    decreases parts
  {
    hide Scan, Trim;
    if parts != [] {
      var first := Scan(Trim(parts[0]));
      CompareMeans(first, max);
      MaxIsGreatest(parts[1..], bound, Max(max, first));
      assert forall part :: part in parts <==> part == parts[0] || part in parts[1..];
    }
  }

  // ----- the loops -----

  method SkipName(selector: string, from: nat) returns (i: nat)
    requires from <= |selector|
    ensures i == from + NameLen(selector[from..])
  {
    i := from;
    while i < |selector| && IsNameChar(selector[i])
      invariant from <= i <= |selector|
      invariant from + NameLen(selector[from..]) == i + NameLen(selector[i..])
    {
      i := i + 1;
    }
  }

  method SkipBlock(selector: string, open: nat, openChar: char, closeChar: char) returns (r: nat)
    requires open < |selector| && selector[open] == openChar && openChar != closeChar
    ensures r == match CloseAt(selector[open + 1..], 1, openChar, closeChar)
      case Some(k) => open + 1 + k
      case None => |selector| - 1
  {
    var depth := 1;
    for i := open + 1 to |selector|
      invariant depth >= 1
      invariant CloseAt(selector[open + 1..], 1, openChar, closeChar)
             == Later(i - open - 1, CloseAt(selector[i..], depth, openChar, closeChar))
    {
      if selector[i] == openChar {
        depth := depth + 1;
      } else if selector[i] == closeChar {
        depth := depth - 1;
        if depth == 0 { return i; }
      }
      assert selector[i..][1..] == selector[i + 1..];
    }
    r := |selector| - 1;
  }

  lemma PiecesStep(text: string, start: nat, i: nat, depth: int)
    requires start <= i < |text|
    ensures var c := text[i];
      Pieces(text[i..], depth, text[start..i]) ==
        if c == '(' || c == '[' then Pieces(text[i + 1..], depth + 1, text[start..i + 1])
        else if c == ')' || c == ']' then Pieces(text[i + 1..], depth - 1, text[start..i + 1])
        else if c == ',' && depth == 0 then [text[start..i]] + Pieces(text[i + 1..], 0, text[i + 1..i + 1])
        else Pieces(text[i + 1..], depth, text[start..i + 1])
  {
    assert text[i..][1..] == text[i + 1..];
    assert text[start..i] + [text[i]] == text[start..i + 1];
    assert text[i + 1..i + 1] == "";
  }

  lemma PiecesEnd(depth: int, cur: string)
    ensures Pieces("", depth, cur) == [cur]
  {
  }

  method SplitTopLevel(text: string) returns (parts: seq<string>)
    ensures parts == NonBlank(Pieces(text, 0, ""), |text|)
  {
    hide NonBlank, Pieces;
    var pieces: seq<string> := [];
    var depth := 0;
    var start := 0;
    assert text[0..] == text && text[0..0] == "";
    for i := 0 to |text|
      invariant 0 <= start <= i
      invariant Pieces(text, 0, "") == pieces + Pieces(text[i..], depth, text[start..i])
    {
      var c := text[i];
      PiecesStep(text, start, i, depth);
      if c == '(' || c == '[' {
        depth := depth + 1;
      } else if c == ')' || c == ']' {
        depth := depth - 1;
      } else if c == ',' && depth == 0 {
        ghost var rest := Pieces(text[i + 1..], 0, text[i + 1..i + 1]);
        assert pieces + ([text[start..i]] + rest) == (pieces + [text[start..i]]) + rest;
        pieces := pieces + [text[start..i]];
        start := i + 1;
      }
    }
    assert text[start..|text|] == text[start..] && text[|text|..] == "";
    PiecesEnd(depth, text[start..]);
    assert Pieces(text, 0, "") == pieces + [text[start..]];
    pieces := pieces + [text[start..]];
    parts := NonBlank(pieces, |text|);
  }

  method SelectorListSpecificity(selectorList: string) returns (max: Specificity)
    ensures max == ListScan(selectorList)
    decreases |selectorList|, 4
  {
    hide Scan, Pieces, NonBlank, Trim;
    max := NONE;
    var parts := SplitTopLevel(selectorList);
    for i := 0 to |parts|
      invariant MaxScan(parts, |selectorList|, NONE) == MaxScan(parts[i..], |selectorList|, max)
    {
      var specificity := SelectorSpecificity(Trim(parts[i]));
      if Compare(specificity, max) > 0 { max := specificity; }
    }
  }

  function Weigh(kind: Kind): Specificity {
    if kind.Counts? then kind.spec else ListScan(kind.text)
  }

  method FunctionalPseudoContribution(name: string, inner: string) returns (r: Specificity)
    ensures r == Weigh(Functional(name, inner))
    decreases |inner|, 5
  {
    if name == "where" { return NONE; }
    if name == "is" || name == "not" || name == "has" {
      r := SelectorListSpecificity(inner);
      return;
    }
    r := CLASS;
  }

  method SelectorSpecificity(selector: string) returns (spec: Specificity)
    ensures spec == Scan(selector)
    decreases |selector|, 2
  {
    spec := NONE;
    var i := 0;
    assert selector[0..] == selector;
    AddLaws(Scan(selector), NONE, NONE);
    while i < |selector|
      invariant 0 <= i <= |selector|
      invariant Scan(selector) == Add(spec, Scan(selector[i..]))
      decreases |selector| - i
    {
      var contribution, next := TokenSpecificity(selector, i);
      Resume(selector, i, next - i);
      AddLaws(spec, contribution, Scan(selector[next..]));
      spec := Add(spec, contribution);
      i := next;
    }
    AddLaws(spec, NONE, NONE);
  }

  /** One turn of the loop: what the token at `i` adds, and where the next one starts. */
  method TokenSpecificity(selector: string, i: nat) returns (spec: Specificity, next: nat)
    requires i < |selector|
    ensures spec == Weigh(Token(selector[i..]).0) && next == i + Token(selector[i..]).1
    decreases |selector|, 1
  {
    var c := selector[i];
    Resume(selector, i, 1);
    if c == '#' {
      spec := ID;
      next := SkipName(selector, i + 1);
    } else if c == '.' {
      spec := CLASS;
      next := SkipName(selector, i + 1);
    } else if c == '[' {
      spec := CLASS;
      var close := SkipBlock(selector, i, '[', ']');
      next := close + 1;
    } else if c == ':' {
      spec, next := PseudoSpecificity(selector, i);
    } else if IsLetter(c) {
      spec := TYPE;
      next := SkipName(selector, i);
    } else {
      spec := NONE;
      next := i + 1;
    }
  }

  lemma AddLaws(a: Specificity, b: Specificity, c: Specificity)
    ensures Add(NONE, a) == a && Add(a, NONE) == a
    ensures Add(Add(a, b), c) == Add(a, Add(b, c))
  {
  }

  lemma AddSwap(a: Specificity, b: Specificity, c: Specificity)
    ensures Add(a, Add(b, c)) == Add(Add(b, a), c)
  {
  }

  lemma AddNothing(a: Specificity, b: Specificity)
    ensures Add(b, a) == b <==> a == NONE
  {
  }

  lemma Resume(s: string, i: nat, k: nat)
    requires i + k <= |s|
    ensures s[i..][k..] == s[i + k..]
  {
  }

  lemma Within(s: string, i: nat, from: nat, to: nat)
    requires i <= from <= to <= |s|
    ensures s[i..][from - i..to - i] == s[from..to]
  {
  }

  lemma PseudoCall(s: string, n: nat, close: int)
    requires s != "" && s[0] == ':' && !("::" <= s) && n == 1 + NameLen(s[1..]) && n < |s| && s[n] == '('
    requires close == match CloseAt(s[n + 1..], 1, '(', ')') case Some(k) => n + 1 + k case None => |s| - 1
    ensures n <= close < |s|
    ensures PseudoToken(s) == (Functional(s[1..n], if n + 1 <= close then s[n + 1..close] else ""), close + 1)
  {
  }

  lemma PseudoCallAt(selector: string, i: nat, nameEnd: nat, close: nat)
    requires i < nameEnd < |selector| && selector[nameEnd] == '(' && nameEnd <= close < |selector|
    requires selector[i] == ':' && selector[i + 1] != ':' && nameEnd == i + 1 + NameLen(selector[i + 1..])
    requires close ==
      match CloseAt(selector[nameEnd + 1..], 1, '(', ')') case Some(k) => nameEnd + 1 + k case None => |selector| - 1
    ensures PseudoToken(selector[i..])
      == (Functional(selector[i + 1..nameEnd], if nameEnd + 1 <= close then selector[nameEnd + 1..close] else ""),
        close + 1 - i)
  {
    hide PseudoToken, CloseAt, NameLen, Functional;
    var s := selector[i..];
    Resume(selector, i, 1);
    Resume(selector, i, nameEnd - i + 1);
    assert !("::" <= s);
    PseudoCall(s, nameEnd - i, close - i);
    Within(selector, i, i + 1, nameEnd);
    if nameEnd + 1 <= close { Within(selector, i, nameEnd + 1, close); }
  }

  /** The `:` branch of the loop: one pseudo-element or pseudo-class, and where it ends. */
  method PseudoSpecificity(selector: string, i: nat) returns (spec: Specificity, next: nat)
    requires i < |selector| && selector[i] == ':'
    ensures spec == Weigh(PseudoToken(selector[i..]).0) && next == i + PseudoToken(selector[i..]).1
    decreases |selector|, 0
  {
    ghost var s := selector[i..];
    Resume(selector, i, 1);
    if i + 1 < |selector| && selector[i + 1] == ':' {
      Resume(selector, i, 2);
      spec := TYPE;
      next := SkipName(selector, i + 2);
      assert PseudoToken(s) == (Counts(TYPE), next - i);
      return;
    }
    var nameEnd := SkipName(selector, i + 1);
    var name := selector[i + 1..nameEnd];
    if nameEnd < |selector| && selector[nameEnd] == '(' {
      Resume(selector, i, nameEnd - i + 1);
      var close := SkipBlock(selector, nameEnd, '(', ')');
      var inner := if nameEnd + 1 <= close then selector[nameEnd + 1..close] else "";
      PseudoCallAt(selector, i, nameEnd, close);
      spec := FunctionalPseudoContribution(name, inner);
      next := close + 1;
    } else {
      spec := CLASS;
      next := nameEnd;
      assert PseudoToken(s) == (Counts(CLASS), next - i);
    }
  }
}
