/** The strict Host-header parse. Header values are Latin-1 text. */
module VirtualHosts {
  import opened Json
  import opened Text

  const LAUNCHER_HOSTNAME := "launcher.localhost"

  datatype HostRejectionReason = MissingHost | DuplicateHost | MalformedHost | TrailingDotHost | HostPortMismatch

  datatype HostParse = Host(hostname: string) | Rejected(reason: HostRejectionReason)

  function ProjectHostname(projectKey: string): string {
    projectKey + ".localhost"
  }

  predicate IsForbidden(c: char) {
    c in "\t\n\r #%/\\?@[]"
  }

  predicate AllDigits(s: string) {
    forall i :: 0 <= i < |s| ==> IsDigit(s[i])
  }

  predicate HasDoubleDot(s: string) {
    exists i :: 0 <= i < |s| - 1 && s[i] == '.' && s[i + 1] == '.'
  }

  /** Where the first colon is, or the length. */
  function Colon(s: string): (r: nat)
    ensures r <= |s| && (r < |s| ==> s[r] == ':') && forall i :: 0 <= i < r ==> s[i] != ':'
  {
    if s == "" || s[0] == ':' then 0 else 1 + Colon(s[1..])
  }

  /** `host[:port]`; an empty hostname stands for anything malformed. */
  function SplitHostPort(value: string): (string, Option<nat>) {
    var colon := Colon(value);
    if colon == |value| then (value, None)
    else
      var digits := value[colon + 1..];
      if ':' in digits then ("", None) else WithPort(value[..colon], digits)
  }

  function WithPort(hostname: string, digits: string): (string, Option<nat>) {
    if digits == "" || !AllDigits(digits) then ("", None) else (hostname, Some(Value(digits)))
  }

  predicate HasForbidden(s: string) {
    exists i :: 0 <= i < |s| && IsForbidden(s[i])
  }

  function HeaderText(value: Option<string>): string {
    if value.Some? then value.value else ""
  }

  function ParseHostHeader(value: Option<string>, count: nat, expectedPort: nat): HostParse {
    if count == 0 then Rejected(MissingHost)
    else if count > 1 then Rejected(DuplicateHost)
    else
      var text := HeaderText(value);
      if text == "" || text != Trim(text) then Rejected(MalformedHost)
      else if HasForbidden(text) then Rejected(MalformedHost)
      else
        var (hostname, port) := SplitHostPort(text);
        if hostname == "" || HasDoubleDot(hostname) || hostname[0] == '.' then Rejected(MalformedHost)
        else if hostname[|hostname| - 1] == '.' then Rejected(TrailingDotHost)
        else if port.Some? && port.value != expectedPort then Rejected(HostPortMismatch)
        else Host(ToLowerCase(hostname))
  }

  // ----- the grammar the parse accepts -----

  /** A host name the listener may route: no separators, no empty label at either end or
      inside. */
  predicate WellFormedName(name: string) {
    && name != "" && name[0] != '.' && name[|name| - 1] != '.' && !HasDoubleDot(name)
    && forall i :: 0 <= i < |name| ==> name[i] != ':' && !IsForbidden(name[i])
  }

  /** A well-formed name spelled out: non-empty labels with single dots between them, and none
      of the characters a host cannot have. */
  lemma NameMeans(name: string)
    ensures WellFormedName(name) <==>
              && NoneEmpty(SplitOn(name, '.'))
              && forall i :: 0 <= i < |name| ==> name[i] !in "\t\n\r #%/\\?@[]:"
  {
    hide HasDoubleDot, SplitOn, IsForbidden, NoneEmpty;
    LabelsMean(name);
    forall i | 0 <= i < |name| ensures name[i] in "\t\n\r #%/\\?@[]:" <==> name[i] == ':' || IsForbidden(name[i]) {
      CannotStand(name[i]);
    }
  }

  lemma CannotStand(c: char)
    ensures c in "\t\n\r #%/\\?@[]:" <==> c == ':' || IsForbidden(c)
  {
    assert "\t\n\r #%/\\?@[]:" == "\t\n\r #%/\\?@[]" + ":";
  }

  predicate NoneEmpty(parts: seq<string>) {
    forall part :: part in parts ==> part != ""
  }

  lemma NoneEmptyCons(part: string, parts: seq<string>)
    ensures NoneEmpty([part] + parts) <==> part != "" && NoneEmpty(parts)
  {
    assert part in [part] + parts && forall l :: l in parts ==> l in [part] + parts;
  }

  lemma DoubleDotCons(s: string)
    requires s != ""
    ensures HasDoubleDot(s) <==> (|s| > 1 && s[0] == '.' && s[1] == '.') || HasDoubleDot(s[1..])
  {
    if i :| 0 < i < |s| - 1 && s[i] == '.' && s[i + 1] == '.' {
      assert s[1..][i - 1] == '.' && s[1..][i] == '.';
    }
    if i :| 0 <= i < |s[1..]| - 1 && s[1..][i] == '.' && s[1..][i + 1] == '.' {
      assert s[i + 1] == '.' && s[i + 2] == '.';
    }
  }

  lemma {:induction false} LabelsMean(name: string)
    ensures NoneEmpty(SplitOn(name, '.')) <==>
              name != "" && name[0] != '.' && name[|name| - 1] != '.' && !HasDoubleDot(name)
    decreases |name|
  {
    hide NoneEmpty, HasDoubleDot;
    if name == "" {
      NoneEmptyCons("", []);
      assert [""] + [] == [""];
    } else {
      var c, tail := name[0], name[1..];
      var rest := SplitOn(tail, '.');
      LabelsMean(tail);
      DoubleDotCons(name);
      if c == '.' {
        NoneEmptyCons("", rest);
      } else {
        assert rest == [rest[0]] + rest[1..];
        NoneEmptyCons([c] + rest[0], rest[1..]);
        NoneEmptyCons(rest[0], rest[1..]);
        if tail == "" {
          NoneEmptyCons("", []);
          NothingEmpty();
          assert rest[1..] == [];
          NoDots(tail);
        } else if tail[0] == '.' {
          LabelsMean(tail[1..]);
          DoubleDotCons(tail);
          assert rest == [""] + SplitOn(tail[1..], '.') && rest[1..] == SplitOn(tail[1..], '.');
        }
      }
    }
  }

  lemma NothingEmpty()
    ensures NoneEmpty([])
  {
  }

  lemma NoDots(s: string)
    requires s == ""
    ensures !HasDoubleDot(s)
  {
  }

  /** The port as it may be written: any digits that spell it. */
  predicate SpellsPort(digits: string, port: nat) {
    digits != "" && AllDigits(digits) && Value(digits) == port
  }

  ghost predicate Written(value: string, name: string, port: nat) {
    && WellFormedName(name) && value == Trim(value)
    && (value == name || exists digits :: SpellsPort(digits, port) && value == name + ":" + digits)
  }

  lemma DigitsAreClean(digits: string)
    requires AllDigits(digits)
    ensures forall i :: 0 <= i < |digits| ==> digits[i] != ':' && !IsForbidden(digits[i])
  {
    forall i | 0 <= i < |digits| ensures digits[i] != ':' && !IsForbidden(digits[i]) {
      assert IsDigit(digits[i]);
    }
  }

  lemma ColonIs(s: string, at: nat)
    requires at <= |s| && (at < |s| ==> s[at] == ':') && forall i :: 0 <= i < at ==> s[i] != ':'
    ensures Colon(s) == at
  {
  }

  /** A clean value that names a host, perhaps one with a trailing dot, alone or with a port. */
  ghost predicate Shaped(value: string, name: string, port: Option<nat>) {
    && value == Trim(value) && name != "" && name[0] != '.' && !HasDoubleDot(name)
    && (forall i :: 0 <= i < |name| ==> name[i] != ':' && !IsForbidden(name[i]))
    && match port
       case None => value == name
       case Some(p) => exists digits :: SpellsPort(digits, p) && value == name + ":" + digits
  }

  function Judged(name: string, port: Option<nat>, expectedPort: nat): HostParse
    requires name != ""
  {
    if name[|name| - 1] == '.' then Rejected(TrailingDotHost)
    else if port.Some? && port.value != expectedPort then Rejected(HostPortMismatch)
    else Host(ToLowerCase(name))
  }

  lemma ShapedParses(value: string, name: string, port: Option<nat>, expectedPort: nat)
    requires Shaped(value, name, port)
    ensures ParseHostHeader(Some(value), 1, expectedPort) == Judged(name, port, expectedPort)
  {
    hide Trim, ToLowerCase, IsForbidden, HasDoubleDot, Value;
    if port.None? {
      ColonIs(value, |value|);
    } else {
      var digits :| SpellsPort(digits, port.value) && value == name + ":" + digits;
      DigitsAreClean(digits);
      ColonIsClean();
      ColonIs(value, |name|);
      assert value[..|name|] == name && value[|name| + 1..] == digits;
      forall i | 0 <= i < |value| ensures !IsForbidden(value[i]) {
        if i > |name| { assert value[i] == digits[i - |name| - 1]; }
      }
      assert ':' !in digits;
    }
  }

  lemma ParsedIsShaped(value: string, expectedPort: nat) returns (name: string, port: Option<nat>)
    requires ParseHostHeader(Some(value), 1, expectedPort) != Rejected(MalformedHost)
    ensures Shaped(value, name, port)
  {
    hide Trim, IsForbidden, ToLowerCase, HasDoubleDot, Value;
    assert !HasForbidden(value);
    var split := SplitHostPort(value);
    name, port := split.0, split.1;
    var colon := Colon(value);
    if colon < |value| {
      var digits := value[colon + 1..];
      assert name == value[..colon];
      assert value == value[..colon] + ":" + digits;
      assert SpellsPort(digits, port.value);
    }
    forall i | 0 <= i < |name| ensures name[i] != ':' && !IsForbidden(name[i]) {
      assert name[i] == value[i] && !IsForbidden(value[i]);
    }
  }

  /** Why a header is refused. None or several: missing or duplicate. One: malformed exactly
      when it has no host's shape, and otherwise by its trailing dot, else by its port. */
  lemma RefusalMeans(value: Option<string>, count: nat, expectedPort: nat)
    ensures var r := ParseHostHeader(value, count, expectedPort);
      var text := HeaderText(value);
      && (r == Rejected(MissingHost) <==> count == 0)
      && (r == Rejected(DuplicateHost) <==> count > 1)
      && (count == 1 ==> (r == Rejected(MalformedHost) <==> forall name, port :: !Shaped(text, name, port)))
      && (count == 1 ==> forall name, port :: Shaped(text, name, port) ==> r == Judged(name, port, expectedPort))
  {
    hide *;
    HeaderCount(value, count, expectedPort);
    OneHeader(HeaderText(value), expectedPort);
  }

  lemma HeaderCount(value: Option<string>, count: nat, expectedPort: nat)
    ensures var r := ParseHostHeader(value, count, expectedPort);
      && (r == Rejected(MissingHost) <==> count == 0) && (r == Rejected(DuplicateHost) <==> count > 1)
      && (count == 1 ==> r == ParseHostHeader(Some(HeaderText(value)), 1, expectedPort))
  {
    hide Trim, IsForbidden, ToLowerCase, HasDoubleDot, SplitHostPort, HasForbidden;
  }

  lemma OneHeader(text: string, expectedPort: nat)
    ensures ParseHostHeader(Some(text), 1, expectedPort) == Rejected(MalformedHost)
       <==> forall name, port :: !Shaped(text, name, port)
    ensures forall name, port :: Shaped(text, name, port) ==>
      name != "" && ParseHostHeader(Some(text), 1, expectedPort) == Judged(name, port, expectedPort)
  {
    hide ParseHostHeader, Shaped;
    forall name, port | Shaped(text, name, port)
      ensures name != "" && ParseHostHeader(Some(text), 1, expectedPort) == Judged(name, port, expectedPort)
    {
      ShapedHasName(text, name, port);
      ShapedParses(text, name, port, expectedPort);
    }
    if ParseHostHeader(Some(text), 1, expectedPort) != Rejected(MalformedHost) {
      var name, port := ParsedIsShaped(text, expectedPort);
    }
  }

  lemma ShapedHasName(value: string, name: string, port: Option<nat>)
    requires Shaped(value, name, port)
    ensures name != ""
  {
  }

  lemma WrittenParses(value: string, name: string, port: nat)
    requires Written(value, name, port)
    ensures ParseHostHeader(Some(value), 1, port) == Host(ToLowerCase(name))
  {
    hide ParseHostHeader, Trim, ToLowerCase, IsForbidden, HasDoubleDot;
    ShapedParses(value, name, if value == name then None else Some(port), port);
  }

  lemma ColonIsClean()
    ensures !IsForbidden(':')
  {
  }

  /** The parse accepts exactly the well-formed names, alone or with the listener's port, and
      answers them in lower case. */
  lemma ParseMeans(value: string, port: nat, hostname: string)
    ensures ParseHostHeader(Some(value), 1, port) == Host(hostname)
       <==> exists name :: Written(value, name, port) && hostname == ToLowerCase(name)
  {
    hide Trim, ToLowerCase, IsForbidden, HasDoubleDot, Value;
    if ParseHostHeader(Some(value), 1, port) == Host(hostname) {
      var name, p := ParsedIsShaped(value, port);
      ShapedParses(value, name, p, port);
      assert WellFormedName(name);
      assert Written(value, name, port);
    }
    forall name | Written(value, name, port) ensures ParseHostHeader(Some(value), 1, port) == Host(ToLowerCase(name)) {
      WrittenParses(value, name, port);
    }
  }
}
