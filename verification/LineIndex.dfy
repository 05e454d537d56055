/** One-based lines of offsets: the style indexer's scan and the complexity engine's table of
    line starts. Sources are sequences of UTF-16 code units. */
module LineIndex {

  const LINE_FEED := 10

  /** Line feeds before the offset. */
  function Breaks(source: seq<nat>, offset: nat): nat
    requires offset <= |source|
  {
    if offset == 0 then 0
    else Breaks(source, offset - 1) + (if source[offset - 1] == LINE_FEED then 1 else 0)
  }

  function Within(source: seq<nat>, offset: int): (r: nat)
    ensures r <= |source|
  {
    if offset < 0 then 0 else if offset > |source| then |source| else offset
  }

  /** The line an offset lies on; offsets outside the source count as its ends. */
  function Line(source: seq<nat>, offset: int): nat {
    1 + Breaks(source, Within(source, offset))
  }

  /** The style indexer's scan. */
  method LineAt(contents: seq<nat>, offset: int) returns (line: nat)
    ensures line == Line(contents, offset)
  {
    line := 1;
    var i := 0;
    while i < offset && i < |contents|
      invariant 0 <= i <= |contents| && (i <= offset || i == 0)
      invariant line == 1 + Breaks(contents, i)
    {
      if contents[i] == LINE_FEED { line := line + 1; }
      i := i + 1;
    }
  }

  lemma {:induction false} BreaksMonotone(source: seq<nat>, a: nat, b: nat)
    requires a <= b <= |source|
    ensures Breaks(source, a) <= Breaks(source, b)
    decreases b
  {
    if a < b { BreaksMonotone(source, a, b - 1); }
  }

  /** The line is one more than the number of line feeds (code unit 10) before the offset. */
  lemma {:induction false} LineCounts(source: seq<nat>, offset: nat)
    requires offset <= |source|
    ensures Line(source, offset) == 1 + |set i | 0 <= i < offset && source[i] == 10|
  {
    var before := set i | 0 <= i < offset && source[i] == 10;
    if offset == 0 {
      assert before == {};
    } else {
      LineCounts(source, offset - 1);
      var fewer := set i | 0 <= i < offset - 1 && source[i] == 10;
      assert before == if source[offset - 1] == 10 then fewer + {offset - 1} else fewer;
    }
  }

  /** A table of line starts: entry `k` is where the line after `k` line feeds begins. */
  ghost predicate Starts(source: seq<nat>, lineStarts: seq<nat>) {
    && |lineStarts| == 1 + Breaks(source, |source|)
    && lineStarts[0] == 0
    && forall k :: 0 < k < |lineStarts| ==> Begins(source, lineStarts[k], k)
  }

  ghost predicate Begins(source: seq<nat>, start: nat, k: nat) {
    0 < start <= |source| && source[start - 1] == LINE_FEED && Breaks(source, start) == k
  }

  method UnitLineIndexer(source: seq<nat>) returns (lineStarts: seq<nat>)
    ensures Starts(source, lineStarts)
  {
    lineStarts := [0];
    for i := 0 to |source|
      invariant |lineStarts| == 1 + Breaks(source, i) && lineStarts[0] == 0
      invariant forall k :: 0 < k < |lineStarts| ==> Begins(source, lineStarts[k], k)
    {
      if source[i] == LINE_FEED { lineStarts := lineStarts + [i + 1]; }
    }
  }

  /** Whether a line has begun by an offset is told by the line feeds before the offset. */
  lemma BegunBy(source: seq<nat>, lineStarts: seq<nat>, offset: int, k: nat)
    requires Starts(source, lineStarts) && k < |lineStarts|
    ensures lineStarts[k] <= Within(source, offset) <==> k <= Breaks(source, Within(source, offset))
  {
    var at := Within(source, offset);
    if k > 0 {
      assert Begins(source, lineStarts[k], k);
      if lineStarts[k] <= at {
        BreaksMonotone(source, lineStarts[k], at);
      } else {
        BreaksMonotone(source, at, lineStarts[k] - 1);
      }
    }
  }

  /** Binary search refines the scan, for every offset. */
  method LineLookup(ghost source: seq<nat>, lineStarts: seq<nat>, offset: int) returns (line: nat)
    requires Starts(source, lineStarts)
    ensures line == Line(source, offset)
  {
    ghost var goal := Breaks(source, Within(source, offset));
    BreaksMonotone(source, Within(source, offset), |source|);
    var lo, hi := 0, |lineStarts| - 1;
    while lo < hi
      invariant 0 <= lo <= goal <= hi < |lineStarts|
    {
      var mid := (lo + hi + 1) / 2;
      BegunBy(source, lineStarts, offset, mid);
      assert Begins(source, lineStarts[mid], mid);
      if lineStarts[mid] <= offset {
        lo := mid;
      } else {
        hi := mid - 1;
      }
    }
    line := lo + 1;
  }
}
