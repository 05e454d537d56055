/** `encodeURIComponent` and `decodeURIComponent`: percent-encoding over UTF-8. */
module Percent {
  import opened Json

  type Byte = b | 0 <= b < 256

  predicate IsAlphanumeric(c: char) {
    'a' <= c <= 'z' || 'A' <= c <= 'Z' || '0' <= c <= '9'
  }

  /** Section 2.3 of RFC 3986. */
  predicate IsUnreserved(c: char) {
    IsAlphanumeric(c) || c in "-._~"
  }

  /** What `encodeURIComponent` leaves alone. */
  predicate StandsForItself(c: char) {
    IsUnreserved(c) || c in "!*'()"
  }

  function HexDigit(n: nat): char
    requires n < 16
  {
    "0123456789ABCDEF"[n]
  }

  function HexValue(c: char): (r: Option<nat>)
    ensures r.Some? ==> r.value < 16
  {
    if '0' <= c <= '9' then Some(c as int - '0' as int)
    else if 'A' <= c <= 'F' then Some(c as int - 'A' as int + 10)
    else if 'a' <= c <= 'f' then Some(c as int - 'a' as int + 10)
    else None
  }

  /** The UTF-8 encoding of one code point. */
  function Utf8(c: char): (r: seq<Byte>)
    ensures 1 <= |r| <= 4
  {
    var n := c as int;
    if n < 0x80 then [n]
    else if n < 0x800 then [0xC0 + n / 64, 0x80 + n % 64]
    else if n < 0x10000 then [0xE0 + n / 4096, 0x80 + n / 64 % 64, 0x80 + n % 64]
    else [0xF0 + n / 262144, 0x80 + n / 4096 % 64, 0x80 + n / 64 % 64, 0x80 + n % 64]
  }

  function EscapeByte(b: Byte): (r: string)
    ensures |r| == 3
  {
    ['%', HexDigit(b / 16), HexDigit(b % 16)]
  }

  function Escape(bytes: seq<Byte>): string {
    if bytes == [] then "" else EscapeByte(bytes[0]) + Escape(bytes[1..])
  }

  function EncodeChar(c: char): string {
    if StandsForItself(c) then [c] else Escape(Utf8(c))
  }

  function Encode(s: string): string {
    if s == "" then "" else EncodeChar(s[0]) + Encode(s[1..])
  }

  /** The byte an escape at the front of `s` stands for. */
  function ReadByte(s: string): (r: Option<Byte>)
    ensures r.Some? ==> |s| >= 3 && s[0] == '%'
  {
    if |s| < 3 || s[0] != '%' || HexValue(s[1]).None? || HexValue(s[2]).None? then None
    else Some(HexValue(s[1]).value * 16 + HexValue(s[2]).value)
  }

  /** The low six bits of a continuation byte. */
  function ReadTail(s: string): (r: Option<nat>)
    ensures r.Some? ==> |s| >= 3 && r.value < 64
  {
    match ReadByte(s)
    case Some(b) => if 0x80 <= b < 0xC0 then Some(b - 0x80) else None
    case None => None
  }

  /** The next `count` continuation bytes, added to the bits read so far. */
  function ReadTails(s: string, count: nat, bits: nat): (r: Option<nat>)
    ensures r.Some? ==> 3 * count <= |s|
  {
    if count == 0 then Some(bits)
    else
      match ReadTail(s)
      case Some(t) => ReadTails(s[3..], count - 1, bits * 64 + t)
      case None => None
  }

  predicate IsScalar(n: nat) {
    n < 0xD800 || 0xE000 <= n < 0x110000
  }

  /** How many bytes follow a first byte, the bits it carries, and the least code point that
      needs them. */
  function Lead(b: Byte): Option<(nat, nat, nat)> {
    if b < 0x80 then Some((0, b, 0))
    else if 0xC0 <= b < 0xE0 then Some((1, b - 0xC0, 0x80))
    else if 0xE0 <= b < 0xF0 then Some((2, b - 0xE0, 0x800))
    else if 0xF0 <= b < 0xF8 then Some((3, b - 0xF0, 0x10000))
    else None
  }

  /** One decoded code point and how much text it took; nothing when the escapes at the
      front are malformed. */
  function ReadChar(s: string): (r: Option<(char, nat)>)
    requires s != ""
    ensures r.Some? ==> 0 < r.value.1 <= |s|
  {
    if s[0] != '%' then Some((s[0], 1))
    else if ReadByte(s).None? || Lead(ReadByte(s).value).None? then None
    else
      var (count, bits, least) := Lead(ReadByte(s).value).value;
      match ReadTails(s[3..], count, bits)
      case None => None
      case Some(n) => if least <= n && IsScalar(n) then Some((n as char, 3 + 3 * count)) else None
  }

  /** The decoded text, or nothing where the original throws. */
  function Decode(s: string): Option<string>
    decreases |s|
  {
    if s == "" then Some("")
    else
      match ReadChar(s)
      case None => None
      case Some((c, n)) =>
        match Decode(s[n..])
        case None => None
        case Some(rest) => Some([c] + rest)
  }

  // ----- what encoding is -----

  /** Encoding leaves exactly the texts alone that are made of letters, digits and these marks. */
  lemma {:induction false} LeftAlone(s: string)
    ensures Encode(s) == s <==> forall i :: 0 <= i < |s| ==>
              'a' <= s[i] <= 'z' || 'A' <= s[i] <= 'Z' || '0' <= s[i] <= '9' || s[i] in "-_.!~*'()"
  {
    hide Utf8, Escape;
    if s != "" {
      LeftAlone(s[1..]);
      EncodedChar(s[0]);
      EncodedGrows(s[1..]);
      assert forall i :: 0 < i < |s| ==> s[i] == s[1..][i - 1];
      if EncodeChar(s[0]) == [s[0]] {
        assert (EncodeChar(s[0]) + Encode(s[1..]))[1..] == Encode(s[1..]);
        assert [s[0]] + s[1..] == s;
      }
    }
  }

  lemma EncodedChar(c: char)
    ensures |EncodeChar(c)| >= 1 && (|EncodeChar(c)| == 1 <==> StandsForItself(c))
  {
    var bytes := Utf8(c);
    assert |Escape(bytes)| >= 3 by { assert Escape(bytes) == EscapeByte(bytes[0]) + Escape(bytes[1..]); }
  }

  lemma {:induction false} EncodedGrows(s: string)
    ensures |Encode(s)| >= |s|
  {
    if s != "" {
      EncodedGrows(s[1..]);
      EncodedChar(s[0]);
      hide EncodeChar;
    }
  }

  /** Other characters become the upper-case escapes of their UTF-8 bytes, as section 3 of
      RFC 3629 lays them out: one of each length. */
  lemma EscapesOfEachLength()
    ensures EncodeChar('/') == "%2F"
    ensures EncodeChar('\U{E9}') == "%C3%A9"
    ensures EncodeChar('\U{20AC}') == "%E2%82%AC"
    ensures EncodeChar('\U{1F600}') == "%F0%9F%98%80"
  {
    hide *;
    ShortEscapes();
    LongEscapes();
  }

  lemma ShortEscapes()
    ensures EncodeChar('/') == "%2F"
    ensures EncodeChar('\U{E9}') == "%C3%A9"
  {
    hide EncodeChar;
    EscapedAs('/', [0x2F]);
    EscapedAs('\U{E9}', [0xC3, 0xA9]);
    hide Utf8;
    ByteEscapes();
  }

  lemma LongEscapes()
    ensures EncodeChar('\U{20AC}') == "%E2%82%AC"
    ensures EncodeChar('\U{1F600}') == "%F0%9F%98%80"
  {
    hide EncodeChar;
    EscapedAs('\U{20AC}', [0xE2, 0x82, 0xAC]);
    EscapedAs('\U{1F600}', [0xF0, 0x9F, 0x98, 0x80]);
    hide Utf8;
    ByteEscapes();
  }

  lemma EscapedAs(c: char, bytes: seq<Byte>)
    requires !StandsForItself(c) && Utf8(c) == bytes && 1 <= |bytes| <= 4
    ensures EncodeChar(c) == EscapeByte(bytes[0])
      + (if |bytes| > 1 then EscapeByte(bytes[1]) else "") + (if |bytes| > 2 then EscapeByte(bytes[2]) else "")
      + (if |bytes| > 3 then EscapeByte(bytes[3]) else "")
  {
    hide Utf8, Escape, EscapeByte;
    EscapeFour(bytes);
  }

  lemma ByteEscapes()
    ensures EscapeByte(0x2F) == "%2F" && EscapeByte(0xC3) == "%C3" && EscapeByte(0xA9) == "%A9"
    ensures EscapeByte(0xE2) == "%E2" && EscapeByte(0x82) == "%82" && EscapeByte(0xAC) == "%AC"
    ensures EscapeByte(0xF0) == "%F0" && EscapeByte(0x9F) == "%9F" && EscapeByte(0x98) == "%98"
    ensures EscapeByte(0x80) == "%80"
  {
  }

  lemma EscapeStep(bytes: seq<Byte>, i: nat)
    requires i < |bytes|
    ensures Escape(bytes[i..]) == EscapeByte(bytes[i]) + Escape(bytes[i + 1..])
  {
    assert bytes[i..][1..] == bytes[i + 1..];
  }

  lemma EscapeFour(bytes: seq<Byte>)
    requires 1 <= |bytes| <= 4
    ensures Escape(bytes) == EscapeByte(bytes[0])
      + (if |bytes| > 1 then EscapeByte(bytes[1]) else "") + (if |bytes| > 2 then EscapeByte(bytes[2]) else "")
      + (if |bytes| > 3 then EscapeByte(bytes[3]) else "")
  {
    hide EscapeByte;
    assert Escape(bytes) == EscapeByte(bytes[0]) + Escape(bytes[1..]);
    if |bytes| > 1 { EscapeStep(bytes, 1); }
    if |bytes| > 2 { EscapeStep(bytes, 2); }
    if |bytes| > 3 { EscapeStep(bytes, 3); }
    assert bytes[|bytes|..] == [];
  }

  // ----- decoding undoes encoding -----

  lemma HexRoundTrip(n: nat)
    requires n < 16
    ensures HexValue(HexDigit(n)) == Some(n)
  {
  }

  /** The first escape reads back, and the rest is what follows it. */
  lemma FrontEscape(b: Byte, rest: string)
    ensures var s := EscapeByte(b) + rest;
      s[0] == '%' && ReadByte(s) == Some(b) && s[3..] == rest
  {
    HexRoundTrip(b / 16);
    HexRoundTrip(b % 16);
  }

  lemma EscapeFirst(a: Byte, bs: seq<Byte>, rest: string)
    ensures Escape([a] + bs) + rest == EscapeByte(a) + (Escape(bs) + rest)
    ensures |Escape([a] + bs)| == 3 + |Escape(bs)|
  {
    assert ([a] + bs)[1..] == bs;
  }

  lemma {:induction false} EscapeLength(bytes: seq<Byte>)
    ensures |Escape(bytes)| == 3 * |bytes|
  {
    if bytes != [] { EscapeLength(bytes[1..]); }
  }

  /** Continuation bytes hold the low bits of `n`, six at a time. */
  function Tails(n: nat, count: nat): (r: seq<Byte>)
    ensures |r| == count
  {
    if count == 0 then [] else Tails(n / 64, count - 1) + [0x80 + n % 64]
  }

  lemma {:induction false} TailsRoundTrip(n: nat, count: nat, rest: string, more: nat)
    ensures ReadTails(Escape(Tails(n, count)) + rest, count + more, Above(n, count)) == ReadTails(rest, more, n)
    decreases count
  {
    hide EscapeByte, Escape, ReadByte;
    if count == 0 {
      NothingEscapedYet(rest);
    } else {
      var last: Byte := 0x80 + n % 64;
      EscapeSnoc(Tails(n / 64, count - 1), last, rest);
      TailsRoundTrip(n / 64, count - 1, EscapeByte(last) + rest, more + 1);
      FrontEscape(last, rest);
      assert n / 64 * 64 + n % 64 == n;
    }
  }

  lemma {:induction false} EscapeSnoc(bytes: seq<Byte>, last: Byte, rest: string)
    ensures Escape(bytes + [last]) + rest == Escape(bytes) + (EscapeByte(last) + rest)
  {
    hide EscapeByte;
    if bytes == [] {
      EscapeFirst(last, [], rest);
      assert [last] + [] == [last] && [] + [last] == [last];
      assert Escape([]) + rest == rest && Escape([]) + (EscapeByte(last) + rest) == EscapeByte(last) + rest;
    } else {
      EscapeSnoc(bytes[1..], last, rest);
      assert (bytes + [last])[1..] == bytes[1..] + [last];
      EscapeFirst(bytes[0], bytes[1..] + [last], rest);
      EscapeFirst(bytes[0], bytes[1..], EscapeByte(last) + rest);
      assert [bytes[0]] + bytes[1..] == bytes && [bytes[0]] + (bytes[1..] + [last]) == bytes + [last];
    }
  }

  /** `n` without its `count` lowest groups of six bits. */
  function Above(n: nat, count: nat): nat {
    if count == 0 then n else Above(n / 64, count - 1)
  }

  lemma NothingEscapedYet(rest: string)
    ensures Escape([]) + rest == rest
  {
  }

  function TailCount(c: char): (k: nat)
    ensures k <= 3
  {
    var n := c as int;
    if n < 0x80 then 0 else if n < 0x800 then 1 else if n < 0x10000 then 2 else 3
  }

  /** The bits that mark a first byte before `count` continuation bytes. */
  function Mark(count: nat): Byte
    requires count <= 3
  {
    [0, 0xC0, 0xE0, 0xF0][count]
  }

  /** The bytes of a code point: a marked first byte with the high bits, then the rest. */
  lemma BytesOf(c: char)
    ensures var n, k := c as int, TailCount(c);
      && Mark(k) + Above(n, k) < 256
      && Utf8(c) == [Mark(k) + Above(n, k)] + Tails(n, k)
      && Lead(Mark(k) + Above(n, k)) == Some((k, Above(n, k), [0, 0x80, 0x800, 0x10000][k]))
  {
    var n := c as int;
    assert n / 64 / 64 == n / 4096 && n / 4096 / 64 == n / 262144;
    assert Tails(n, 1) == Tails(n / 64, 0) + [0x80 + n % 64];
    assert Tails(n, 2) == Tails(n / 64, 1) + [0x80 + n % 64];
    assert Tails(n, 3) == Tails(n / 64, 2) + [0x80 + n % 64];
    assert Tails(n / 64, 1) == Tails(n / 4096, 0) + [0x80 + n / 64 % 64];
    assert Tails(n / 64, 2) == Tails(n / 4096, 1) + [0x80 + n / 64 % 64];
    assert Tails(n / 4096, 1) == Tails(n / 262144, 0) + [0x80 + n / 4096 % 64];
    assert Above(n, 1) == Above(n / 64, 0) && Above(n, 2) == Above(n / 64, 1) && Above(n, 3) == Above(n / 64, 2);
    assert Above(n / 64, 1) == Above(n / 4096, 0) && Above(n / 64, 2) == Above(n / 4096, 1);
    assert Above(n / 4096, 1) == Above(n / 262144, 0);
  }

  /** The escaped bytes of a code point read back as that code point. */
  lemma BytesRoundTrip(c: char, rest: string)
    ensures ReadChar(Escape(Utf8(c)) + rest) == Some((c, |Escape(Utf8(c))|))
  {
    hide Escape, EscapeByte, ReadByte, Utf8, Tails, Lead, Above, Mark, ReadTails;
    var n, k := c as int, TailCount(c);
    BytesOf(c);
    EscapeFirst(Mark(k) + Above(n, k), Tails(n, k), rest);
    FrontEscape(Mark(k) + Above(n, k), Escape(Tails(n, k)) + rest);
    TailsRoundTrip(n, k, rest, 0);
    NoTailsLeft(rest, n);
    EscapeLength(Tails(n, k));
  }

  lemma NoTailsLeft(rest: string, n: nat)
    ensures ReadTails(rest, 0, n) == Some(n)
  {
  }

  lemma CharRoundTrip(c: char, rest: string)
    ensures ReadChar(EncodeChar(c) + rest) == Some((c, |EncodeChar(c)|))
  {
    hide Utf8, Escape;
    if StandsForItself(c) {
      assert c != '%';
    } else {
      BytesRoundTrip(c, rest);
    }
  }

  /** Decoding what was encoded gives the text back, for every text. */
  lemma {:induction false} DecodeUndoesEncode(s: string)
    ensures Decode(Encode(s)) == Some(s)
  {
    hide ReadChar, EncodeChar;
    if s != "" {
      CharRoundTrip(s[0], Encode(s[1..]));
      DecodeUndoesEncode(s[1..]);
      assert (EncodeChar(s[0]) + Encode(s[1..]))[|EncodeChar(s[0])|..] == Encode(s[1..]);
      assert [s[0]] + s[1..] == s;
    }
  }

  lemma {:induction false} NothingEscaped(s: string)
    requires forall i :: 0 <= i < |s| ==> s[i] != '%'
    ensures Decode(s) == Some(s)
  {
    if s != "" {
      NothingEscaped(s[1..]);
      assert [s[0]] + s[1..] == s;
    }
  }

  /** Encoded text holds no separator and nothing a URL parser would rewrite. */
  predicate PathText(s: string) {
    forall i :: 0 <= i < |s| ==> StandsForItself(s[i]) || s[i] == '%'
  }

  lemma EscapedByteIsPathText(b: Byte)
    ensures PathText(EscapeByte(b))
  {
  }

  lemma {:induction false} EscapeIsPathText(bytes: seq<Byte>)
    ensures PathText(Escape(bytes)) && |Escape(bytes)| >= |bytes|
  {
    hide EscapeByte, StandsForItself;
    if bytes != [] {
      EscapedByteIsPathText(bytes[0]);
      EscapeIsPathText(bytes[1..]);
    }
  }

  lemma {:induction false} EncodeIsPathText(s: string)
    ensures PathText(Encode(s)) && (s != "" ==> Encode(s) != "")
  {
    if s != "" {
      EscapeIsPathText(Utf8(s[0]));
      EncodeIsPathText(s[1..]);
    }
  }

  // ----- what decoding accepts -----

  /** Hexadecimal digits are read in either case. */
  lemma HexMeans(c: char)
    ensures HexValue(c).Some? <==> '0' <= c <= '9' || 'a' <= c <= 'f' || 'A' <= c <= 'F'
    ensures 'a' <= c <= 'f' ==> HexValue(c) == HexValue((c as int - 32) as char) == Some(c as int - 87)
    ensures '0' <= c <= '9' ==> HexValue(c) == Some(c as int - 48)
  {
  }

  lemma TwoBytes(b: Byte, t: nat)
    requires 0xC0 <= b < 0xE0 && t < 64 && 0x80 <= (b - 0xC0) * 64 + t
    ensures Utf8(((b - 0xC0) * 64 + t) as char) == [b, 0x80 + t]
  {
  }

  lemma ThreeBytes(b: Byte, t: nat, u: nat)
    requires 0xE0 <= b < 0xF0 && t < 64 && u < 64
    requires var n := ((b - 0xE0) * 64 + t) * 64 + u; 0x800 <= n && IsScalar(n)
    ensures Utf8((((b - 0xE0) * 64 + t) * 64 + u) as char) == [b, 0x80 + t, 0x80 + u]
  {
    var n := ((b - 0xE0) * 64 + t) * 64 + u;
    assert n / 4096 == b - 0xE0 && n / 64 == (b - 0xE0) * 64 + t && n % 64 == u;
  }

  lemma FourBytes(b: Byte, t: nat, u: nat, v: nat)
    requires 0xF0 <= b < 0xF8 && t < 64 && u < 64 && v < 64
    requires var n := (((b - 0xF0) * 64 + t) * 64 + u) * 64 + v; 0x10000 <= n && IsScalar(n)
    ensures Utf8(((((b - 0xF0) * 64 + t) * 64 + u) * 64 + v) as char) == [b, 0x80 + t, 0x80 + u, 0x80 + v]
  {
    var n := (((b - 0xF0) * 64 + t) * 64 + u) * 64 + v;
    assert n / 262144 == b - 0xF0 && n / 4096 == (b - 0xF0) * 64 + t;
    assert n / 64 == ((b - 0xF0) * 64 + t) * 64 + u && n % 64 == v;
  }

  /** A character is only ever decoded from the escapes of its own UTF-8 bytes: nothing
      overlong, cut off or out of range is accepted. */
  lemma OnlyItsOwnBytes(s: string)
    requires s != "" && s[0] == '%' && ReadChar(s).Some?
    ensures var (c, n) := ReadChar(s).value;
      && n == 3 * |Utf8(c)| <= |s|
      && forall k :: 0 <= k < |Utf8(c)| ==> ReadByte(s[3 * k..]) == Some(Utf8(c)[k])
  {
    hide Utf8, ReadByte;
    var b := ReadByte(s).value;
    var (count, bits, least) := Lead(b).value;
    assert s[0..] == s && |s| >= 3;
    if count == 0 {
      OneByte(b);
    } else if count == 1 {
      var t := TailFirst(s[3..], 0, bits);
      NoTailsLeft(s[3..][3..], bits * 64 + t);
      TwoBytes(b, t);
    } else if count == 2 {
      var t := TailFirst(s[3..], 1, bits);
      var u := TailFirst(s[6..], 0, bits * 64 + t);
      NoTailsLeft(s[6..][3..], (bits * 64 + t) * 64 + u);
      ThreeBytes(b, t, u);
    } else {
      var t := TailFirst(s[3..], 2, bits);
      var u := TailFirst(s[6..], 1, bits * 64 + t);
      var v := TailFirst(s[9..], 0, (bits * 64 + t) * 64 + u);
      NoTailsLeft(s[9..][3..], ((bits * 64 + t) * 64 + u) * 64 + v);
      FourBytes(b, t, u, v);
    }
  }

  /** The first of several continuation bytes. */
  lemma TailFirst(s: string, more: nat, bits: nat) returns (t: nat)
    requires ReadTails(s, more + 1, bits).Some?
    ensures |s| >= 3 && t < 64 && ReadByte(s) == Some(0x80 + t)
    ensures ReadTails(s, more + 1, bits) == ReadTails(s[3..], more, bits * 64 + t)
  {
    t := ReadTail(s).value;
  }

  lemma OneByte(b: Byte)
    requires b < 0x80
    ensures Utf8(b as char) == [b]
  {
  }
}
