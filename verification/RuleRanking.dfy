/** Which rules match an element, ranked by specificity. */
module RuleRanking {
  import opened Json
  import opened Matcher

  /** A rule with its compiled selector, if the route has loaded its file. */
  datatype Rule = Rule(selector: string, effectiveSelector: Option<string>, scoped: bool)

  datatype Match = Match(rule: Rule, specificity: Specificity, order: nat)

  datatype MatchedRule = MatchedRule(rule: Rule, specificity: Specificity, winner: bool)

  /** `element.matches`: nothing where it throws. */
  type ElementMatches = string -> Option<bool>

  function MatchingSelector(rule: Rule): Option<string> {
    if rule.scoped || rule.effectiveSelector.Some? then rule.effectiveSelector else Some(rule.selector)
  }

  predicate Selects(rule: Rule, matches: ElementMatches) {
    MatchingSelector(rule).Some? && matches(MatchingSelector(rule).value) == Some(true)
  }

  /** The rules that match, in source order; `from` is the first rule's position. */
  function Matching(rules: seq<Rule>, from: nat, matches: ElementMatches): seq<Match> {
    if rules == [] then []
    else
      (if Selects(rules[0], matches)
       then [Match(rules[0], ListScan(MatchingSelector(rules[0]).value), from)] else [])
      + Matching(rules[1..], from + 1, matches)
  }

  /** The comparator: more specific first, then source order. */
  predicate Outranks(a: Match, b: Match) {
    var c := Compare(b.specificity, a.specificity);
    c < 0 || (c == 0 && a.order < b.order)
  }

  function Insert(m: Match, ranked: seq<Match>): seq<Match> {
    if ranked == [] || !Outranks(ranked[0], m) then [m] + ranked else [ranked[0]] + Insert(m, ranked[1..])
  }

  /** The library's stable sort. */
  function Sort(matches: seq<Match>): seq<Match> {
    if matches == [] then [] else Insert(matches[0], Sort(matches[1..]))
  }

  function Results(ranked: seq<Match>): (r: seq<MatchedRule>)
    ensures |r| == |ranked|
    ensures forall i :: 0 <= i < |r| ==> r[i] == MatchedRule(ranked[i].rule, ranked[i].specificity, i == 0)
  {
    seq(|ranked|, i requires 0 <= i < |ranked| => MatchedRule(ranked[i].rule, ranked[i].specificity, i == 0))
  }

  lemma MatchingFrom(rules: seq<Rule>, i: nat, matches: ElementMatches)
    requires i < |rules|
    ensures Matching(rules[i..], i, matches)
      == (if Selects(rules[i], matches) then [Match(rules[i], ListScan(MatchingSelector(rules[i]).value), i)] else [])
         + Matching(rules[i + 1..], i + 1, matches)
  {
    hide ListScan;
    assert rules[i..][1..] == rules[i + 1..];
  }

  lemma NoRules(n: nat, matches: ElementMatches)
    ensures Matching([], n, matches) == []
  {
  }

  method MatchRules(rules: seq<Rule>, matches: ElementMatches) returns (r: seq<MatchedRule>)
    ensures r == Results(Sort(Matching(rules, 0, matches)))
  {
    hide ListScan, Matching;
    var found: seq<Match> := [];
    assert rules[0..] == rules;
    for order := 0 to |rules|
      invariant found + Matching(rules[order..], order, matches) == Matching(rules, 0, matches)
    {
      MatchingFrom(rules, order, matches);
      var selector := MatchingSelector(rules[order]);
      if selector.None? { continue; }
      if matches(selector.value) != Some(true) { continue; }
      var specificity := SelectorListSpecificity(selector.value);
      found := found + [Match(rules[order], specificity, order)];
    }
    NoRules(|rules|, matches);
    assert rules[|rules|..] == [] && found + [] == found;
    r := Results(Sort(found));
  }

  // ----- the ranking -----

  /** Every match outranks all after it. */
  ghost predicate Ranked(s: seq<Match>) {
    forall i, j :: 0 <= i < j < |s| ==> Outranks(s[i], s[j])
  }

  ghost predicate DistinctOrders(s: seq<Match>) {
    forall i, j :: 0 <= i < j < |s| ==> s[i].order != s[j].order
  }

  lemma OutranksLaws(a: Match, b: Match, c: Match)
    ensures Outranks(a, b) && Outranks(b, c) ==> Outranks(a, c)
    ensures a.order != b.order ==> (Outranks(a, b) <==> !Outranks(b, a))
    ensures !(Outranks(a, b) && Outranks(b, a))
  {
  }

  lemma {:induction false} InsertRanks(m: Match, ranked: seq<Match>)
    requires Ranked(ranked) && forall r :: r in ranked ==> r.order != m.order
    ensures Ranked(Insert(m, ranked)) && multiset(Insert(m, ranked)) == multiset{m} + multiset(ranked)
    ensures forall r :: r in Insert(m, ranked) <==> r == m || r in ranked
  {
    hide Outranks;
    if ranked != [] {
      assert ranked == [ranked[0]] + ranked[1..];
      OutranksLaws(m, ranked[0], m);
      if Outranks(ranked[0], m) {
        InsertRanks(m, ranked[1..]);
        HeadRanks(ranked[0], Insert(m, ranked[1..]));
      } else {
        forall r | r in ranked ensures Outranks(m, r) { OutranksLaws(m, ranked[0], r); }
        HeadRanks(m, ranked);
      }
    }
  }

  lemma HeadRanks(m: Match, rest: seq<Match>)
    requires Ranked(rest) && forall r :: r in rest ==> Outranks(m, r)
    ensures Ranked([m] + rest)
  {
    hide Outranks;
    forall i, j | 0 <= i < j < |[m] + rest| ensures Outranks(([m] + rest)[i], ([m] + rest)[j]) {
      assert ([m] + rest)[j] == rest[j - 1] && rest[j - 1] in rest;
      if i > 0 { assert ([m] + rest)[i] == rest[i - 1]; }
    }
  }

  /** The sort ranks exactly the matches it was given. */
  lemma {:induction false} SortRanks(matches: seq<Match>)
    requires DistinctOrders(matches)
    ensures Ranked(Sort(matches)) && multiset(Sort(matches)) == multiset(matches)
    ensures forall m :: m in Sort(matches) <==> m in matches
  {
    if matches != [] {
      assert matches == [matches[0]] + matches[1..];
      assert forall m :: m in matches[1..] ==> exists i :: 1 <= i < |matches| && matches[i] == m;
      SortRanks(matches[1..]);
      InsertRanks(matches[0], Sort(matches[1..]));
    }
  }

  /** Two rankings of the same matches are the same: which sort the library uses does not
      matter. */
  lemma {:induction false} OneRanking(a: seq<Match>, b: seq<Match>)
    requires Ranked(a) && Ranked(b) && multiset(a) == multiset(b)
    ensures a == b
  {
    assert |multiset(a)| == |multiset(b)|;
    if a != [] {
      SameHead(a, b);
      TailMultiset(a);
      TailMultiset(b);
      hide Ranked;
      OneRanking(a[1..], b[1..]);
      assert a == [a[0]] + a[1..] && b == [b[0]] + b[1..];
    }
  }

  lemma TailMultiset(a: seq<Match>)
    requires a != []
    ensures multiset(a[1..]) == multiset(a) - multiset{a[0]}
  {
    assert a == [a[0]] + a[1..];
  }

  lemma SameHead(a: seq<Match>, b: seq<Match>)
    requires a != [] && b != [] && Ranked(a) && Ranked(b) && multiset(a) == multiset(b)
    ensures a[0] == b[0]
  {
    hide Outranks;
    assert a[0] in multiset(b) && b[0] in multiset(a);
    var i :| 0 <= i < |b| && b[i] == a[0];
    var j :| 0 <= j < |a| && a[j] == b[0];
    OutranksLaws(a[0], b[0], a[0]);
  }

  lemma {:induction false} MatchingOrders(rules: seq<Rule>, from: nat, matches: ElementMatches)
    ensures var r := Matching(rules, from, matches);
      && (forall i :: 0 <= i < |r| ==> from <= r[i].order)
      && DistinctOrders(r)
  {
    hide ListScan;
    if rules != [] { MatchingOrders(rules[1..], from + 1, matches); }
  }

  /** The winner is the earliest of the most specific matching rules, and there is one as
      soon as anything matches. */
  lemma WinnerIsEarliestOfMostSpecific(rules: seq<Rule>, matches: ElementMatches)
    ensures var found := Matching(rules, 0, matches);
      var results := Results(Sort(found));
      && |results| == |found|
      && (forall i :: 0 <= i < |results| ==> (results[i].winner <==> i == 0))
      && forall m :: m in found ==> Sort(found)[0] == m || Outranks(Sort(found)[0], m)
  {
    hide Outranks, Matching;
    var found := Matching(rules, 0, matches);
    MatchingOrders(rules, 0, matches);
    SortRanks(found);
    assert |multiset(Sort(found))| == |multiset(found)|;
    forall m | m in found ensures Sort(found)[0] == m || Outranks(Sort(found)[0], m) {
      var i :| 0 <= i < |Sort(found)| && Sort(found)[i] == m;
    }
  }

  /** A rule matches with this specificity, spelled out: a scoped rule by its compiled selector
      and no other, any rule by the compiled one if there is one, and else by the one in the
      source. */
  ghost predicate MatchesAs(rule: Rule, specificity: Specificity, matches: ElementMatches) {
    exists selector: string ::
      && matches(selector) == Some(true) && specificity == ListScan(selector)
      && (rule.effectiveSelector == Some(selector)
          || (!rule.scoped && rule.effectiveSelector == None && rule.selector == selector))
  }

  lemma SelectsMeans(rule: Rule, specificity: Specificity, matches: ElementMatches)
    ensures MatchesAs(rule, specificity, matches)
      <==> Selects(rule, matches) && specificity == ListScan(MatchingSelector(rule).value)
  {
    hide ListScan;
    if Selects(rule, matches) && specificity == ListScan(MatchingSelector(rule).value) {
      assert matches(MatchingSelector(rule).value) == Some(true);
    }
  }

  lemma MatchingCons(rules: seq<Rule>, from: nat, matches: ElementMatches, m: Match)
    requires rules != []
    ensures m in Matching(rules, from, matches)
      <==> (m.rule == rules[0] && m.order == from && MatchesAs(m.rule, m.specificity, matches))
           || m in Matching(rules[1..], from + 1, matches)
  {
    SelectsMeans(rules[0], m.specificity, matches);
    hide ListScan, MatchesAs, Selects, MatchingSelector;
  }

  /** The matches are exactly the rules that match so, each with its place in the source. */
  lemma {:induction false} MatchMeans(rules: seq<Rule>, from: nat, matches: ElementMatches, m: Match)
    ensures m in Matching(rules, from, matches)
      <==> from <= m.order < from + |rules| && m.rule == rules[m.order - from]
           && MatchesAs(m.rule, m.specificity, matches)
  {
    hide Matching, MatchesAs;
    if rules == [] {
      NoRules(from, matches);
    } else {
      var tail := rules[1..];
      MatchingCons(rules, from, matches, m);
      MatchMeans(tail, from + 1, matches, m);
      assert from < m.order < from + |rules| ==> tail[m.order - (from + 1)] == rules[m.order - from];
    }
  }

  /** The winner among the matching rules, spelled out: no other has more ids; none with as
      many ids has more classes; none with as many of both has more types; and none with as
      many of all three stands earlier. */
  lemma WinnerSpelledOut(rules: seq<Rule>, matches: ElementMatches, m: Match)
    requires m in Matching(rules, 0, matches)
    ensures Sort(Matching(rules, 0, matches)) != []
    ensures var w := Sort(Matching(rules, 0, matches))[0];
      var a, b := w.specificity, m.specificity;
      && a.ids >= b.ids
      && (a.ids == b.ids ==> a.classes >= b.classes)
      && (a.ids == b.ids && a.classes == b.classes ==> a.types >= b.types)
      && (a == b ==> w == m || w.order < m.order)
  {
    WinnerIsEarliestOfMostSpecific(rules, matches);
    hide Matching, Sort;
  }

  /** What the cascade would apply: among the most specific, the one that comes last. */
  ghost predicate WinsCascade(w: Match, found: seq<Match>) {
    w in found && forall m :: m in found && m != w ==>
      var c := Compare(w.specificity, m.specificity);
      c > 0 || (c == 0 && m.order < w.order)
  }

  lemma CompareDecides(a: Specificity, b: Specificity)
    ensures Compare(a, b) == 0 <==> a == b
    ensures Compare(a, b) > 0 <==> Compare(b, a) < 0
  {
  }

  /** The rule marked as the winner is the cascade's if and only if no other match is as
      specific: on a tie the marked one is the first and the cascade's the last. */
  lemma WinnerIsCascadeWinner(rules: seq<Rule>, matches: ElementMatches)
    requires Matching(rules, 0, matches) != []
    ensures var found := Matching(rules, 0, matches);
      && Sort(found) != []
      && var w := Sort(found)[0];
         WinsCascade(w, found) <==> forall m :: m in found && m != w ==> m.specificity != w.specificity
  {
    WinnerIsEarliestOfMostSpecific(rules, matches);
    hide Matching, Sort, Compare;
    var found := Matching(rules, 0, matches);
    var w := Sort(found)[0];
    WinnerMatches(rules, matches);
    forall m | m in found && m != w
      ensures var c := Compare(w.specificity, m.specificity);
        c > 0 || (c == 0 && m.order < w.order) <==> m.specificity != w.specificity
    {
      assert Outranks(w, m);
      CompareDecides(w.specificity, m.specificity);
      CompareDecides(m.specificity, w.specificity);
    }
  }

  lemma WinnerMatches(rules: seq<Rule>, matches: ElementMatches)
    requires Matching(rules, 0, matches) != []
    ensures Sort(Matching(rules, 0, matches)) != []
    ensures Sort(Matching(rules, 0, matches))[0] in Matching(rules, 0, matches)
  {
    hide Matching;
    var found := Matching(rules, 0, matches);
    MatchingOrders(rules, 0, matches);
    SortRanks(found);
    assert |multiset(Sort(found))| == |multiset(found)|;
  }
}
