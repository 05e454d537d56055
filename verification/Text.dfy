/** String operations the JavaScript sources lean on: trimming, lower-casing, splitting, joining,
    leftmost search and decimal numerals. Text is a sequence of code points. */
module Text {

  /** The white space and line terminators `trim` strips. */
  predicate IsSpace(c: char) {
    || c == ' ' || '\t' <= c <= '\r'
    || c == '\U{00A0}' || c == '\U{1680}' || '\U{2000}' <= c <= '\U{200A}'
    || c == '\U{2028}' || c == '\U{2029}' || c == '\U{202F}' || c == '\U{205F}' || c == '\U{3000}' || c == '\U{FEFF}'
  }

  /** What `trim` strips, by code point: tab to carriage return, the space, the no-break space,
      the space separators of other scripts, the line and paragraph separators and the byte
      order mark. */
  lemma SpacesAre(c: char)
    ensures var code := c as int;
      IsSpace(c) <==> 9 <= code <= 13 || code == 32 || code == 160 || code == 5760 || 8192 <= code <= 8202
                      || code == 8232 || code == 8233 || code == 8239 || code == 8287 || code == 12288
                      || code == 65279
  {
  }

  predicate AllSpace(s: string) {
    forall i :: 0 <= i < |s| ==> IsSpace(s[i])
  }

  function TrimStart(s: string): (r: string)
    ensures |r| <= |s| && s[|s| - |r|..] == r && AllSpace(s[..|s| - |r|])
    ensures r != "" ==> !IsSpace(r[0])
  {
    if s != "" && IsSpace(s[0]) then TrimStart(s[1..]) else s
  }

  function TrimEnd(s: string): (r: string)
    ensures |r| <= |s| && s[..|r|] == r && AllSpace(s[|r|..])
    ensures r != "" ==> !IsSpace(r[|r| - 1])
  {
    if s != "" && IsSpace(s[|s| - 1]) then
      var r := TrimEnd(s[..|s| - 1]);
      assert s[|r|..] == s[..|s| - 1][|r|..] + [s[|s| - 1]];
      r
    else s
  }

  function Trim(s: string): (r: string)
    ensures |r| <= |s|
  {
    TrimEnd(TrimStart(s))
  }

  predicate Trimmed(s: string) {
    s != "" ==> !IsSpace(s[0]) && !IsSpace(s[|s| - 1])
  }

  lemma {:induction false} TrimStartPast(lead: string, s: string)
    requires AllSpace(lead) && (s != "" ==> !IsSpace(s[0]))
    ensures TrimStart(lead + s) == s
  {
    if lead == "" {
      assert lead + s == s;
    } else {
      assert (lead + s)[1..] == lead[1..] + s;
      TrimStartPast(lead[1..], s);
    }
  }

  lemma {:induction false} TrimEndPast(s: string, tail: string)
    requires AllSpace(tail) && (s != "" ==> !IsSpace(s[|s| - 1]))
    ensures TrimEnd(s + tail) == s
  {
    if tail == "" {
      assert s + tail == s;
    } else {
      assert (s + tail)[..|s + tail| - 1] == s + tail[..|tail| - 1];
      TrimEndPast(s, tail[..|tail| - 1]);
    }
  }

  /** Trimming strips exactly the white space around a core that has none at its ends. */
  lemma TrimCore(lead: string, s: string, tail: string)
    requires AllSpace(lead) && AllSpace(tail) && Trimmed(s)
    ensures Trim(lead + s + tail) == s
  {
    if s == "" {
      assert lead + s + tail == (lead + tail) + "";
      TrimStartPast(lead + tail, "");
    } else {
      assert lead + s + tail == lead + (s + tail);
      TrimStartPast(lead, s + tail);
      TrimEndPast(s, tail);
    }
  }

  // ----- numerals -----

  predicate IsDigit(c: char) {
    '0' <= c <= '9'
  }

  function Digit(n: nat): char
    requires n < 10
  {
    "0123456789"[n]
  }

  /** A number as a template literal prints it. */
  function Decimal(n: nat): (r: string)
    ensures r != "" && forall i :: 0 <= i < |r| ==> IsDigit(r[i])
    ensures n == 0 <==> r == "0"
    ensures n > 0 ==> r[0] != '0'
  {
    if n < 10 then [Digit(n)] else Decimal(n / 10) + [Digit(n % 10)]
  }

  /** The number a digit string spells. */
  function Value(s: string): nat
    requires forall i :: 0 <= i < |s| ==> IsDigit(s[i])
  {
    if s == "" then 0
    else
      assert IsDigit(s[|s| - 1]);
      Value(s[..|s| - 1]) * 10 + (s[|s| - 1] as int - '0' as int)
  }

  lemma {:induction false} ValueOfDecimal(n: nat)
    ensures Value(Decimal(n)) == n
  {
    var s := Decimal(n);
    if n >= 10 {
      assert s[..|s| - 1] == Decimal(n / 10);
      ValueOfDecimal(n / 10);
    } else {
      assert s[..|s| - 1] == "";
    }
  }

  // ----- letter case -----

  /** Lower-casing as far as Latin-1 goes. */
  function LowerChar(c: char): char {
    if 'A' <= c <= 'Z' || ('\U{C0}' <= c <= '\U{DE}' && c != '\U{D7}') then (c as int + 32) as char else c
  }

  /** The capitals by code point: the ASCII ones and those of Latin-1, between which stands the
      multiplication sign. Each lies 32 below its small letter. */
  lemma LowersTo(c: char)
    ensures var capital := 65 <= c as int <= 90 || 192 <= c as int <= 214 || 216 <= c as int <= 222;
      LowerChar(c) as int == if capital then c as int + 32 else c as int
  {
  }

  function ToLowerCase(s: string): (r: string)
    ensures |r| == |s| && forall i :: 0 <= i < |s| ==> r[i] == LowerChar(s[i])
  {
    if s == "" then "" else [LowerChar(s[0])] + ToLowerCase(s[1..])
  }

  // ----- splitting and joining at one character -----

  function SplitOn(s: string, sep: char): (r: seq<string>)
    ensures r != []
  {
    if s == "" then [""]
    else
      var r := SplitOn(s[1..], sep);
      if s[0] == sep then [""] + r else [[s[0]] + r[0]] + r[1..]
  }

  function JoinWith(parts: seq<string>, sep: char): string {
    if parts == [] then ""
    else if |parts| == 1 then parts[0]
    else parts[0] + [sep] + JoinWith(parts[1..], sep)
  }

  ghost predicate Unsplit(parts: seq<string>, sep: char) {
    forall p :: p in parts ==> sep !in p
  }

  lemma {:induction false} SplitParts(s: string, sep: char)
    ensures JoinWith(SplitOn(s, sep), sep) == s && Unsplit(SplitOn(s, sep), sep)
  {
    if s != "" {
      var r := SplitOn(s[1..], sep);
      SplitParts(s[1..], sep);
      if s[0] == sep {
        assert ([""] + r)[1..] == r;
      } else {
        assert ([[s[0]] + r[0]] + r[1..])[1..] == r[1..];
        assert r == [r[0]] + r[1..];
      }
    }
  }

  lemma {:induction false} SplitFirst(part: string, s: string, sep: char)
    requires sep !in part
    ensures SplitOn(part + [sep] + s, sep) == [part] + SplitOn(s, sep)
  {
    var whole := part + [sep] + s;
    if part == "" {
      assert whole[1..] == s;
    } else {
      SplitFirst(part[1..], s, sep);
      assert whole[0] == part[0] && whole[0] in part;
      assert whole[1..] == part[1..] + [sep] + s;
      assert [part[0]] + part[1..] == part;
    }
  }

  lemma {:induction false} SplitOne(part: string, sep: char)
    requires sep !in part
    ensures SplitOn(part, sep) == [part]
  {
    if part != "" {
      SplitOne(part[1..], sep);
      assert [part[0]] + part[1..] == part && part[0] in part;
    }
  }

  /** Splitting undoes joining. */
  lemma {:induction false} SplitJoined(parts: seq<string>, sep: char)
    requires parts != [] && Unsplit(parts, sep)
    ensures SplitOn(JoinWith(parts, sep), sep) == parts
  {
    if |parts| == 1 {
      SplitOne(parts[0], sep);
    } else {
      SplitFirst(parts[0], JoinWith(parts[1..], sep), sep);
      SplitJoined(parts[1..], sep);
    }
  }
}
