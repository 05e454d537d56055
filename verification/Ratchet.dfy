/** The risk gate and its baseline, which only tightens. Scores are numbers without NaN. */
module Ratchet {
  import opened Json
  import opened Text

  /** One scored function; generated files have no stop. */
  datatype RiskEntry = RiskEntry(file: string, name: string, lineStart: nat, value: real, stop: Option<real>)

  type Baseline = map<string, real>

  function BaselineKey(file: string, name: string, lineStart: nat): string {
    if name == "(anonymous)" then file + "#" + name + "@L" + Decimal(lineStart) else file + "#" + name
  }

  function KeyOf(e: RiskEntry): string {
    BaselineKey(e.file, e.name, e.lineStart)
  }

  /** Two functions share a key exactly when they are in the same file under the same name, and
      on the same line if they have none; file names without `#`, and names that do not spell
      an anonymous function's line, are told apart so. */
  lemma KeysTell(a: RiskEntry, b: RiskEntry)
    requires '#' !in a.file && '#' !in b.file
    requires !("(anonymous)@L" <= a.name) && !("(anonymous)@L" <= b.name)
    ensures KeyOf(a) == KeyOf(b) <==>
              a.file == b.file && a.name == b.name && (a.name == "(anonymous)" ==> a.lineStart == b.lineStart)
  {
    KeyTail(a);
    KeyTail(b);
    var x, y := TailOf(a), TailOf(b);
    if KeyOf(a) == KeyOf(b) {
      SplitFirst(a.file, x, '#');
      SplitFirst(b.file, y, '#');
      assert a.file == SplitOn(KeyOf(a), '#')[0] == b.file;
      assert x == KeyOf(a)[|a.file| + 1..] && y == KeyOf(b)[|b.file| + 1..];
      TailsTell(a, b);
    }
  }

  function TailOf(e: RiskEntry): string {
    if e.name == "(anonymous)" then "(anonymous)@L" + Decimal(e.lineStart) else e.name
  }

  lemma KeyTail(e: RiskEntry)
    ensures KeyOf(e) == e.file + ['#'] + TailOf(e)
  {
    assert "#" == ['#'];
    if e.name == "(anonymous)" {
      assert e.file + "#" + e.name + "@L" + Decimal(e.lineStart)
        == e.file + "#" + ("(anonymous)@L" + Decimal(e.lineStart));
    }
  }

  lemma TailsTell(a: RiskEntry, b: RiskEntry)
    requires TailOf(a) == TailOf(b) && !("(anonymous)@L" <= a.name) && !("(anonymous)@L" <= b.name)
    ensures a.name == b.name && (a.name == "(anonymous)" ==> a.lineStart == b.lineStart)
  {
    assert a.name == "(anonymous)" ==> "(anonymous)@L" <= TailOf(a);
    assert b.name == "(anonymous)" ==> "(anonymous)@L" <= TailOf(b);
    if a.name == "(anonymous)" && b.name == "(anonymous)" {
      assert Decimal(a.lineStart) == TailOf(a)[13..] == TailOf(b)[13..] == Decimal(b.lineStart);
      ValueOfDecimal(a.lineStart);
      ValueOfDecimal(b.lineStart);
    }
  }

  predicate Gated(e: RiskEntry) {
    e.stop.Some? && e.value >= e.stop.value
  }

  datatype Verdict = Passes | Violates | Improves | Grandfathered

  function VerdictOf(e: RiskEntry, baseline: Baseline): Verdict {
    if !Gated(e) then Passes
    else if KeyOf(e) !in baseline || e.value > baseline[KeyOf(e)] then Violates
    else if e.value < baseline[KeyOf(e)] then Improves
    else Grandfathered
  }

  /** The verdict in terms of the numbers: an entry passes below its stop, or without one; at
      its stop or above it the pin decides, and a pin it equals lets it ride. */
  lemma VerdictMeans(e: RiskEntry, baseline: Baseline)
    ensures VerdictOf(e, baseline) == Passes <==> e.stop == None || e.value < e.stop.value
    ensures VerdictOf(e, baseline) == Violates <==>
              && e.stop.Some? && e.value >= e.stop.value
              && (KeyOf(e) !in baseline || e.value > baseline[KeyOf(e)])
    ensures VerdictOf(e, baseline) == Grandfathered <==>
              e.stop.Some? && e.value >= e.stop.value && KeyOf(e) in baseline && e.value == baseline[KeyOf(e)]
  {
    hide BaselineKey;
  }

  /** The entries with the verdict, in report order. */
  function With(v: Verdict, entries: seq<RiskEntry>, baseline: Baseline): seq<RiskEntry> {
    if entries == [] then []
    else (if VerdictOf(entries[0], baseline) == v then [entries[0]] else []) + With(v, entries[1..], baseline)
  }

  function Min(a: real, b: real): real {
    if a < b then a else b
  }

  datatype Merged = Merged(next: Baseline, refused: seq<RiskEntry>)

  function MergeFrom(previous: Baseline, entries: seq<RiskEntry>, next: Baseline): Merged
    decreases entries
  {
    if entries == [] then Merged(next, [])
    else
      var e := entries[0];
      if !Gated(e) then MergeFrom(previous, entries[1..], next)
      else if KeyOf(e) !in previous then
        var m := MergeFrom(previous, entries[1..], next);
        Merged(m.next, [e] + m.refused)
      else MergeFrom(previous, entries[1..], next[KeyOf(e) := Min(previous[KeyOf(e)], e.value)])
  }

  function Merge(previous: Baseline, entries: seq<RiskEntry>): Merged {
    MergeFrom(previous, entries, map[])
  }

  // ----- the code -----

  lemma WithStep(v: Verdict, entries: seq<RiskEntry>, i: nat, baseline: Baseline)
    requires i < |entries|
    ensures With(v, entries[..i + 1], baseline)
      == With(v, entries[..i], baseline) + if VerdictOf(entries[i], baseline) == v then [entries[i]] else []
  {
    assert entries[..i + 1] == entries[..i] + [entries[i]];
    WithAppend(v, entries[..i], [entries[i]], baseline);
    assert [entries[i]][1..] == [];
  }

  lemma {:induction false} WithAppend(v: Verdict, a: seq<RiskEntry>, b: seq<RiskEntry>, baseline: Baseline)
    ensures With(v, a + b, baseline) == With(v, a, baseline) + With(v, b, baseline)
  {
    hide VerdictOf;
    if a == [] {
      assert a + b == b;
    } else {
      assert (a + b)[1..] == a[1..] + b && (a + b)[0] == a[0];
      WithAppend(v, a[1..], b, baseline);
      var first := if VerdictOf(a[0], baseline) == v then [a[0]] else [];
      assert With(v, a + b, baseline) == first + With(v, a[1..] + b, baseline);
      assert With(v, a, baseline) == first + With(v, a[1..], baseline);
    }
  }

  method EvaluateGate(entries: seq<RiskEntry>, baseline: Baseline)
    returns (violations: seq<RiskEntry>, grandfathered: seq<RiskEntry>, improved: seq<RiskEntry>)
    ensures violations == With(Violates, entries, baseline)
    ensures grandfathered == With(Grandfathered, entries, baseline)
    ensures improved == With(Improves, entries, baseline)
  {
    hide With, BaselineKey;
    violations, grandfathered, improved := [], [], [];
    NoEntries(baseline);
    for i := 0 to |entries|
      invariant violations == With(Violates, entries[..i], baseline)
      invariant grandfathered == With(Grandfathered, entries[..i], baseline)
      invariant improved == With(Improves, entries[..i], baseline)
    {
      var entry := entries[i];
      WithStep(Violates, entries, i, baseline);
      WithStep(Grandfathered, entries, i, baseline);
      WithStep(Improves, entries, i, baseline);
      if entry.stop.None? || entry.value < entry.stop.value { continue; }
      var key := BaselineKey(entry.file, entry.name, entry.lineStart);
      if key !in baseline {
        violations := violations + [entry];
      } else if entry.value > baseline[key] {
        violations := violations + [entry];
      } else if entry.value < baseline[key] {
        improved := improved + [entry];
      } else {
        grandfathered := grandfathered + [entry];
      }
    }
    assert entries[..|entries|] == entries;
  }

  lemma NoEntries(baseline: Baseline)
    ensures forall v :: With(v, [], baseline) == []
  {
  }

  method MergeBaseline(previous: Baseline, entries: seq<RiskEntry>) returns (next: Baseline, refused: seq<RiskEntry>)
    ensures Merged(next, refused) == Merge(previous, entries)
  {
    hide BaselineKey;
    next, refused := map[], [];
    assert entries[0..] == entries;
    for i := 0 to |entries|
      invariant var rest := MergeFrom(previous, entries[i..], next);
        Merge(previous, entries) == Merged(rest.next, refused + rest.refused)
    {
      assert entries[i..][1..] == entries[i + 1..];
      var entry := entries[i];
      if entry.stop.None? || entry.value < entry.stop.value { continue; }
      var key := BaselineKey(entry.file, entry.name, entry.lineStart);
      if key !in previous {
        ghost var rest := MergeFrom(previous, entries[i + 1..], next);
        assert refused + ([entry] + rest.refused) == refused + [entry] + rest.refused;
        refused := refused + [entry];
        continue;
      }
      next := next[key := Min(previous[key], entry.value)];
    }
    assert entries[|entries|..] == [] && refused + [] == refused;
  }

  // ----- one merge -----

  /** What a merge leaves: a key of the previous baseline that some gated entry still has,
      with the lesser of the two values. */
  ghost predicate Tightened(previous: Baseline, entries: seq<RiskEntry>, next: Baseline) {
    && (forall k :: k in next ==> k in previous && next[k] <= previous[k])
    && (forall k :: k in next ==>
      exists e :: e in entries && Gated(e) && KeyOf(e) == k && next[k] == Min(previous[k], e.value))
    && (forall e :: e in entries && Gated(e) && KeyOf(e) in previous ==> KeyOf(e) in next)
  }

  lemma {:induction false} MergeTightens(previous: Baseline, entries: seq<RiskEntry>)
    ensures Tightened(previous, entries, Merge(previous, entries).next)
  {
    MergeFromTightens(previous, [], entries, map[]);
    assert [] + entries == entries;
  }

  lemma {:induction false} MergeFromTightens(previous: Baseline, seen: seq<RiskEntry>, entries: seq<RiskEntry>,
                                             next: Baseline)
    requires Tightened(previous, seen, next)
    ensures Tightened(previous, seen + entries, MergeFrom(previous, entries, next).next)
    decreases entries
  {
    hide BaselineKey;
    if entries == [] {
      assert seen + entries == seen;
    } else {
      var e := entries[0];
      assert seen + entries == (seen + [e]) + entries[1..];
      TightensOne(previous, seen, e, next);
      var more := if Gated(e) && KeyOf(e) in previous then next[KeyOf(e) := Min(previous[KeyOf(e)], e.value)] else next;
      hide Tightened;
      MergeFromTightens(previous, seen + [e], entries[1..], more);
    }
  }

  lemma TightensOne(previous: Baseline, seen: seq<RiskEntry>, e: RiskEntry, next: Baseline)
    requires Tightened(previous, seen, next)
    ensures Tightened(previous, seen + [e],
      if Gated(e) && KeyOf(e) in previous then next[KeyOf(e) := Min(previous[KeyOf(e)], e.value)] else next)
  {
    hide BaselineKey;
    assert e in seen + [e] && forall d :: d in seen + [e] ==> d in seen || d == e;
  }

  /** The refused are the gated entries without a pin. */
  lemma {:induction false} RefusedAreUnpinned(previous: Baseline, entries: seq<RiskEntry>, next: Baseline, e: RiskEntry)
    ensures e in MergeFrom(previous, entries, next).refused <==> e in entries && Gated(e) && KeyOf(e) !in previous
    decreases entries
  {
    hide BaselineKey;
    if entries != [] {
      var d := entries[0];
      assert entries == [d] + entries[1..];
      RefusedAreUnpinned(previous, entries[1..], next, e);
      if Gated(d) && KeyOf(d) in previous {
        RefusedAreUnpinned(previous, entries[1..], next[KeyOf(d) := Min(previous[KeyOf(d)], d.value)], e);
      }
    }
  }

  function Unpinned(previous: Baseline, entries: seq<RiskEntry>): seq<RiskEntry> {
    if entries == [] then []
    else
      (if VerdictOf(entries[0], map[]) == Violates && KeyOf(entries[0]) !in previous then [entries[0]] else [])
      + Unpinned(previous, entries[1..])
  }

  /** They come in report order, and are those that would violate any stop unpinned. */
  lemma {:induction false} RefusedInOrder(previous: Baseline, entries: seq<RiskEntry>, next: Baseline)
    ensures MergeFrom(previous, entries, next).refused == Unpinned(previous, entries)
    decreases entries
  {
    hide BaselineKey;
    if entries != [] {
      var e := entries[0];
      RefusedInOrder(previous, entries[1..],
        if Gated(e) && KeyOf(e) in previous then next[KeyOf(e) := Min(previous[KeyOf(e)], e.value)] else next);
    }
  }

  /** A tightened baseline never lets more pass: what violated still violates, in any report. */
  lemma NothingLaundered(previous: Baseline, entries: seq<RiskEntry>, e: RiskEntry)
    requires VerdictOf(e, previous) == Violates
    ensures VerdictOf(e, Merge(previous, entries).next) == Violates
  {
    MergeTightens(previous, entries);
    hide Merge;
  }

  // ----- runs of merges -----

  function MergeAll(baseline: Baseline, reports: seq<seq<RiskEntry>>): Baseline
    decreases reports
  {
    if reports == [] then baseline else MergeAll(Merge(baseline, reports[0]).next, reports[1..])
  }

  /** Over any sequence of reports keys only disappear and values only fall. */
  lemma {:induction false} OnlyTightens(baseline: Baseline, reports: seq<seq<RiskEntry>>)
    ensures var last := MergeAll(baseline, reports);
      forall k :: k in last ==> k in baseline && last[k] <= baseline[k]
    decreases reports
  {
    if reports != [] {
      MergeTightens(baseline, reports[0]);
      OnlyTightens(Merge(baseline, reports[0]).next, reports[1..]);
      hide Merge;
    }
  }

  lemma {:induction false} MergeAllAppend(baseline: Baseline, a: seq<seq<RiskEntry>>, b: seq<seq<RiskEntry>>)
    ensures MergeAll(baseline, a + b) == MergeAll(MergeAll(baseline, a), b)
    decreases a
  {
    hide Merge;
    if a == [] {
      assert a + b == b;
    } else {
      assert (a + b)[1..] == a[1..] + b;
      MergeAllAppend(Merge(baseline, a[0]).next, a[1..], b);
    }
  }

  /** A dropped key never returns. */
  lemma DroppedNeverReturns(baseline: Baseline, reports: seq<seq<RiskEntry>>, more: seq<seq<RiskEntry>>, k: string)
    requires k !in MergeAll(baseline, reports)
    ensures k !in MergeAll(baseline, reports + more)
  {
    MergeAllAppend(baseline, reports, more);
    OnlyTightens(MergeAll(baseline, reports), more);
  }

  // ----- gating the same report again -----

  /** Gated entries that share a key score the same. */
  ghost predicate OneValuePerKey(entries: seq<RiskEntry>) {
    forall d, e :: d in entries && e in entries && Gated(d) && Gated(e) && KeyOf(d) == KeyOf(e) ==> d.value == e.value
  }

  ghost predicate Stable(previous: Baseline, entries: seq<RiskEntry>) {
    var next := Merge(previous, entries).next;
    && With(Violates, entries, next) == With(Violates, entries, previous)
    && With(Improves, entries, next) == []
  }

  lemma {:induction false} WithSame(v: Verdict, entries: seq<RiskEntry>, a: Baseline, b: Baseline)
    requires forall e :: e in entries ==> (VerdictOf(e, a) == v <==> VerdictOf(e, b) == v)
    ensures With(v, entries, a) == With(v, entries, b)
  {
    hide VerdictOf;
    if entries != [] { WithSame(v, entries[1..], a, b); }
  }

  lemma {:induction false} WithNone(v: Verdict, entries: seq<RiskEntry>, a: Baseline)
    requires forall e :: e in entries ==> VerdictOf(e, a) != v
    ensures With(v, entries, a) == []
  {
    hide VerdictOf;
    if entries != [] { WithNone(v, entries[1..], a); }
  }

  lemma {:induction false} WithHolds(v: Verdict, entries: seq<RiskEntry>, a: Baseline, e: RiskEntry)
    ensures e in With(v, entries, a) <==> e in entries && VerdictOf(e, a) == v
  {
    hide VerdictOf;
    if entries != [] { WithHolds(v, entries[1..], a, e); }
  }

  lemma OneValueStable(previous: Baseline, entries: seq<RiskEntry>)
    requires OneValuePerKey(entries)
    ensures Stable(previous, entries)
  {
    var next := Merge(previous, entries).next;
    MergeTightens(previous, entries);
    hide Merge, BaselineKey;
    forall e | e in entries
      ensures VerdictOf(e, next) != Improves && (VerdictOf(e, next) == Violates <==> VerdictOf(e, previous) == Violates)
    {
      if Gated(e) && KeyOf(e) in previous {
        var d :| d in entries && Gated(d) && KeyOf(d) == KeyOf(e) && next[KeyOf(e)] == Min(previous[KeyOf(e)], d.value);
      }
    }
    WithSame(Violates, entries, next, previous);
    WithNone(Improves, entries, next);
  }

  /** Two values under one key: pinned at the higher one, the merge either makes the higher a
      violation or leaves it an improvement over the pin. */
  lemma TwoValuesUnstable(entries: seq<RiskEntry>, d: RiskEntry, e: RiskEntry)
    requires d in entries && e in entries && Gated(d) && Gated(e) && KeyOf(d) == KeyOf(e) && d.value < e.value
    ensures !Stable(map[KeyOf(d) := e.value], entries)
  {
    var previous := map[KeyOf(d) := e.value];
    var next := Merge(previous, entries).next;
    MergeTightens(previous, entries);
    hide Merge, BaselineKey;
    WithHolds(Violates, entries, next, e);
    WithHolds(Violates, entries, previous, e);
    WithHolds(Improves, entries, next, d);
  }

  /** Gating the report again after the merge gives the same violations and nothing improved,
      whatever the baseline was, exactly for reports whose gated entries agree on every key
      they share. */
  lemma RegateStable(entries: seq<RiskEntry>)
    ensures OneValuePerKey(entries) <==> forall previous :: Stable(previous, entries)
  {
    hide Stable;
    if OneValuePerKey(entries) {
      forall previous ensures Stable(previous, entries) { OneValueStable(previous, entries); }
    } else {
      var d, e :| d in entries && e in entries && Gated(d) && Gated(e) && KeyOf(d) == KeyOf(e) && d.value != e.value;
      if d.value < e.value { TwoValuesUnstable(entries, d, e); } else { TwoValuesUnstable(entries, e, d); }
    }
  }

  // ----- merging twice -----

  lemma {:induction false} LastWins(previous: Baseline, entries: seq<RiskEntry>, next: Baseline, k: string)
    ensures var m := MergeFrom(previous, entries, next).next;
      match LastGated(entries, k)
      case Some(v) => if k in previous then k in m && m[k] == Min(previous[k], v) else (k in m <==> k in next)
      case None => (k in m <==> k in next) && (k in m ==> m[k] == next[k])
    decreases entries
  {
    hide BaselineKey;
    if entries != [] {
      var e := entries[0];
      var more := if Gated(e) && KeyOf(e) in previous then next[KeyOf(e) := Min(previous[KeyOf(e)], e.value)] else next;
      LastWins(previous, entries[1..], more, k);
    }
  }

  /** The value of the last gated entry under a key: the one a merge keeps. */
  function LastGated(entries: seq<RiskEntry>, k: string): Option<real> {
    if entries == [] then None
    else if LastGated(entries[1..], k).Some? then LastGated(entries[1..], k)
    else if Gated(entries[0]) && KeyOf(entries[0]) == k then Some(entries[0].value)
    else None
  }

  /** Merging the same report twice is merging it once, shared keys or not. */
  lemma MergeIdempotent(previous: Baseline, entries: seq<RiskEntry>)
    ensures var once := Merge(previous, entries).next;
      Merge(once, entries).next == once
  {
    var once := Merge(previous, entries).next;
    var twice := Merge(once, entries).next;
    forall k ensures (k in twice <==> k in once) && (k in once ==> twice[k] == once[k]) {
      LastWins(previous, entries, map[], k);
      LastWins(once, entries, map[], k);
    }
  }

  /** Nothing is lost between the lists: every entry passes or is in exactly one of them. */
  lemma {:induction false} VerdictsPartition(entries: seq<RiskEntry>, baseline: Baseline)
    ensures multiset(With(Violates, entries, baseline)) + multiset(With(Grandfathered, entries, baseline))
          + multiset(With(Improves, entries, baseline)) + multiset(With(Passes, entries, baseline)) == multiset(entries)
  {
    hide VerdictOf, With;
    if entries == [] {
      NoneWith(Violates, baseline);
      NoneWith(Grandfathered, baseline);
      NoneWith(Improves, baseline);
      NoneWith(Passes, baseline);
    } else {
      var e, rest := entries[0], entries[1..];
      VerdictsPartition(rest, baseline);
      assert entries == [e] + rest;
      OneMore(Violates, e, rest, baseline);
      OneMore(Grandfathered, e, rest, baseline);
      OneMore(Improves, e, rest, baseline);
      OneMore(Passes, e, rest, baseline);
      AddOne(VerdictOf(e, baseline), e, multiset(With(Violates, rest, baseline)),
             multiset(With(Grandfathered, rest, baseline)), multiset(With(Improves, rest, baseline)),
             multiset(With(Passes, rest, baseline)));
    }
  }

  lemma NoneWith(v: Verdict, baseline: Baseline)
    ensures With(v, [], baseline) == []
  {
  }

  /** An element counted under one of four headings is counted once. */
  lemma AddOne(v: Verdict, e: RiskEntry, a: multiset<RiskEntry>, b: multiset<RiskEntry>, c: multiset<RiskEntry>,
               d: multiset<RiskEntry>)
    ensures (a + if v == Violates then multiset{e} else multiset{})
          + (b + if v == Grandfathered then multiset{e} else multiset{})
          + (c + if v == Improves then multiset{e} else multiset{})
          + (d + if v == Passes then multiset{e} else multiset{})
         == multiset{e} + (a + b + c + d)
  {
  }

  lemma OneMore(v: Verdict, e: RiskEntry, rest: seq<RiskEntry>, baseline: Baseline)
    ensures multiset(With(v, [e] + rest, baseline))
      == multiset(With(v, rest, baseline)) + if VerdictOf(e, baseline) == v then multiset{e} else multiset{}
  {
    hide VerdictOf;
    assert ([e] + rest)[1..] == rest;
  }
}
