/** Cutting a stream at the leftmost separators, and why it does not matter how the stream
    was cut into chunks before. */
module Splitting {
  import opened Json

  predicate At(s: string, j: nat, sep: string) {
    j + |sep| <= |s| && s[j..j + |sep|] == sep
  }

  lemma AtLater(a: string, b: string, j: nat, sep: string)
    ensures At(a + b, |a| + j, sep) == At(b, j, sep)
  {
    if |a| + j + |sep| <= |a + b| {
      assert (a + b)[|a| + j..|a| + j + |sep|] == b[j..j + |sep|];
    }
  }

  lemma AtStays(a: string, b: string, j: nat, sep: string)
    requires j + |sep| <= |a|
    ensures At(a + b, j, sep) == At(a, j, sep)
  {
    assert (a + b)[j..j + |sep|] == a[j..j + |sep|];
  }

  /** `indexOf`: where `sep` first occurs. */
  function Find(s: string, sep: string): (r: Option<nat>)
    requires sep != ""
    ensures r.Some? ==> r.value + |sep| <= |s| && At(s, r.value, sep)
    ensures forall j: nat :: At(s, j, sep) ==> r.Some? && r.value <= j
  {
    if |s| < |sep| then None
    else if At(s, 0, sep) then Some(0)
    else
      assert forall j: nat :: j > 0 ==> At(s, j, sep) == At(s[1..], j - 1, sep) by {
        forall j: nat | j > 0 ensures At(s, j, sep) == At(s[1..], j - 1, sep) {
          AtLater(s[..1], s[1..], j - 1, sep);
          assert s[..1] + s[1..] == s;
        }
      }
      var r := Find(s[1..], sep);
      if r.Some? then Some(r.value + 1) else None
  }

  /** The pieces a stream is cut into, and the remainder without a separator. */
  function Pieces(s: string, sep: string): seq<string>
    requires sep != ""
    decreases |s|
  {
    match Find(s, sep)
    case None => []
    case Some(i) => [s[..i]] + Pieces(s[i + |sep|..], sep)
  }

  function Rest(s: string, sep: string): string
    requires sep != ""
    decreases |s|
  {
    match Find(s, sep)
    case None => s
    case Some(i) => Rest(s[i + |sep|..], sep)
  }

  function Glue(pieces: seq<string>, sep: string): string {
    if pieces == [] then "" else pieces[0] + sep + Glue(pieces[1..], sep)
  }

  function Concat(chunks: seq<string>): string {
    if chunks == [] then "" else chunks[0] + Concat(chunks[1..])
  }

  lemma Uncut(s: string, sep: string)
    requires sep != "" && Find(s, sep).None?
    ensures Pieces(s, sep) == [] && Rest(s, sep) == s
  {
  }

  lemma FindIs(s: string, sep: string, i: nat)
    requires sep != "" && At(s, i, sep) && forall j: nat :: j < i ==> !At(s, j, sep)
    ensures Find(s, sep) == Some(i)
  {
  }

  /** Text that arrives later moves no separator already found. */
  lemma FindExtends(a: string, b: string, sep: string)
    requires sep != "" && Find(a, sep).Some?
    ensures Find(a + b, sep) == Find(a, sep)
  {
    var i := Find(a, sep).value;
    forall j: nat | j <= i ensures At(a + b, j, sep) == At(a, j, sep) {
      AtStays(a, b, j, sep);
    }
    FindIs(a + b, sep, i);
  }

  lemma {:induction false} SplitExtends(a: string, b: string, sep: string)
    requires sep != ""
    ensures Pieces(a + b, sep) == Pieces(a, sep) + Pieces(Rest(a, sep) + b, sep)
    ensures Rest(a + b, sep) == Rest(Rest(a, sep) + b, sep)
    decreases |a|
  {
    hide At, Find;
    if Find(a, sep).Some? {
      var i := Find(a, sep).value;
      FindExtends(a, b, sep);
      assert (a + b)[..i] == a[..i] && (a + b)[i + |sep|..] == a[i + |sep|..] + b;
      SplitExtends(a[i + |sep|..], b, sep);
    }
  }

  /** Nothing is lost: the pieces and the remainder reassemble the input. */
  lemma {:induction false} Reassembles(s: string, sep: string)
    requires sep != ""
    ensures Glue(Pieces(s, sep), sep) + Rest(s, sep) == s
    ensures Find(Rest(s, sep), sep) == None
    decreases |s|
  {
    hide At, Find;
    if Find(s, sep).Some? {
      var i := Find(s, sep).value;
      var tail := s[i + |sep|..];
      Reassembles(tail, sep);
      FirstPiece(s, sep);
      GlueFirst(s[..i], Pieces(tail, sep), sep);
      Regroup(s[..i] + sep, Glue(Pieces(tail, sep), sep), Rest(tail, sep));
    }
  }

  lemma Regroup(a: string, b: string, c: string)
    ensures a + b + c == a + (b + c)
  {
  }

  lemma FirstPiece(s: string, sep: string)
    requires sep != "" && Find(s, sep).Some?
    ensures var i := Find(s, sep).value; s == s[..i] + sep + s[i + |sep|..]
  {
  }

  lemma GlueFirst(p: string, pieces: seq<string>, sep: string)
    ensures Glue([p] + pieces, sep) == p + sep + Glue(pieces, sep)
  {
  }

  /** A piece ends at the first separator of what is left. */
  predicate Leftmost(pieces: seq<string>, rest: string, sep: string)
    requires sep != ""
  {
    && (forall i :: 0 <= i < |pieces| ==> Find(pieces[i] + sep, sep) == Some(|pieces[i]|))
    && Find(rest, sep) == None
  }

  /** The cut is the only one into pieces that end at their first separator. */
  lemma {:induction false} OnlyCut(pieces: seq<string>, rest: string, sep: string)
    requires sep != "" && Leftmost(pieces, rest, sep)
    ensures Pieces(Glue(pieces, sep) + rest, sep) == pieces && Rest(Glue(pieces, sep) + rest, sep) == rest
    decreases pieces
  {
    if pieces == [] {
      assert Glue(pieces, sep) + rest == rest;
    } else {
      var p, tail := pieces[0], Glue(pieces[1..], sep) + rest;
      assert Glue(pieces, sep) + rest == (p + sep) + tail;
      FindExtends(p + sep, tail, sep);
      assert ((p + sep) + tail)[..|p|] == p && ((p + sep) + tail)[|p| + |sep|..] == tail;
      OnlyCut(pieces[1..], rest, sep);
    }
  }

  lemma {:induction false} PiecesAreLeftmost(s: string, sep: string)
    requires sep != ""
    ensures Leftmost(Pieces(s, sep), Rest(s, sep), sep)
    decreases |s|
  {
    if Find(s, sep).Some? {
      var i := Find(s, sep).value;
      PiecesAreLeftmost(s[i + |sep|..], sep);
      FirstPiece(s, sep);
      FirstIsLeftmost(s[..i], s[i + |sep|..], sep);
    }
  }

  lemma FirstIsLeftmost(p: string, tail: string, sep: string)
    requires sep != "" && Find(p + sep + tail, sep) == Some(|p|)
    ensures Find(p + sep, sep) == Some(|p|)
  {
    forall j: nat | j <= |p| ensures At(p + sep + tail, j, sep) == At(p + sep, j, sep) {
      AtStays(p + sep, tail, j, sep);
    }
    FindIs(p + sep, sep, |p|);
  }

  /** The last `n` elements at most. */
  function Last<T>(s: seq<T>, n: nat): (r: seq<T>)
    ensures |r| <= n && |r| <= |s| && r == s[|s| - |r|..]
  {
    if |s| <= n then s else s[|s| - n..]
  }

  lemma LastOfFew<T>(s: seq<T>, n: nat)
    requires |s| <= n
    ensures Last(s, n) == s
  {
  }

  lemma LastWithoutFirst<T>(s: seq<T>, n: nat)
    requires |s| > n
    ensures Last(s[1..], n) == Last(s, n)
  {
  }

  lemma LastOfLast<T>(a: seq<T>, b: seq<T>, n: nat)
    ensures Last(Last(a, n) + b, n) == Last(a + b, n)
  {
    if |a| > n {
      var cut := |a| - n;
      assert Last(a, n) + b == (a + b)[cut..];
      var k := |(a + b)[cut..]| - n;
      assert (a + b)[cut..][k..] == (a + b)[cut + k..];
    }
  }

  lemma LastThen<T>(a: seq<T>, x: T, rest: seq<T>, n: nat)
    ensures Last(Last(a + [x], n) + rest, n) == Last(a + ([x] + rest), n)
  {
    LastOfLast(a + [x], rest, n);
    assert a + [x] + rest == a + ([x] + rest);
  }
}
