// Percent-encoding (section 2.1 of RFC 3986) as encodeURIComponent and decodeURIComponent apply it, and the parsing
// of queries (section 5.1 of the WHATWG URL Standard). Strings are sequences of Unicode scalar values.
module Uri {
  import opened Basics

  type Byte = b: nat | b < 256

  // ---- UTF-8 ----

  function Utf8(c: char): (bs: seq<Byte>)
    ensures bs != []
  {
    var n := c as int;
    if n < 0x80 then [n]
    else if n < 0x800 then [0xC0 + n / 64, 0x80 + n % 64]
    else if n < 0x10000 then [0xE0 + n / 4096, 0x80 + n / 64 % 64, 0x80 + n % 64]
    else [0xF0 + n / 262144, 0x80 + n / 4096 % 64, 0x80 + n / 64 % 64, 0x80 + n % 64]
  }

  // How many bytes follow a first byte; None for a byte that starts nothing.
  function Follow(b: Byte): Option<nat> {
    if b < 0x80 then Some(0)
    else if 0xC2 <= b <= 0xDF then Some(1)
    else if 0xE0 <= b <= 0xEF then Some(2)
    else if 0xF0 <= b <= 0xF4 then Some(3)
    else None
  }

  // Whether b may be byte i after the first byte b0: no overlong form, no surrogate, nothing beyond U+10FFFF.
  predicate Continues(b0: Byte, i: nat, b: Byte) {
    (if i == 0 && b0 == 0xE0 then 0xA0 else if i == 0 && b0 == 0xF0 then 0x90 else 0x80) <= b <=
    (if i == 0 && b0 == 0xED then 0x9F else if i == 0 && b0 == 0xF4 then 0x8F else 0xBF)
  }

  // The bytes of one scalar value.
  predicate IsScalar(bs: seq<Byte>) {
    && bs != [] && Follow(bs[0]) == Some(|bs| - 1)
    && (|bs| > 1 ==> Continues(bs[0], 0, bs[1]))
    && (|bs| > 2 ==> Continues(bs[0], 1, bs[2]))
    && (|bs| > 3 ==> Continues(bs[0], 2, bs[3]))
  }

  function Scalar(bs: seq<Byte>): char
    requires IsScalar(bs)
  {
    var b0: int := bs[0];
    var b1: int := if |bs| > 1 then bs[1] - 0x80 else 0;
    var b2: int := if |bs| > 2 then bs[2] - 0x80 else 0;
    var b3: int := if |bs| > 3 then bs[3] - 0x80 else 0;
    var n :=
      if |bs| == 1 then b0
      else if |bs| == 2 then (b0 - 0xC0) * 64 + b1
      else if |bs| == 3 then (b0 - 0xE0) * 4096 + b1 * 64 + b2
      else (b0 - 0xF0) * 262144 + b1 * 4096 + b2 * 64 + b3;
    n as char
  }

  lemma Digits64(n: nat)
    ensures n == n / 64 * 64 + n % 64 && n / 4096 == n / 64 / 64 && n / 262144 == n / 4096 / 64
  {
  }

  lemma Utf8RoundTrip(c: char)
    ensures IsScalar(Utf8(c)) && Scalar(Utf8(c)) == c
  {
    var n := c as int;
    Digits64(n);
    Digits64(n / 64);
    Digits64(n / 4096);
    assert n < 0xD800 || 0xE000 <= n < 0x110000;
  }

  // How many of the bytes after the first belong to it.
  function Run(bs: seq<Byte>, k: nat, most: nat): (n: nat)
    requires k < |bs|
    ensures k <= n <= Max(k, most) && n < |bs|
    decreases |bs| - k
  {
    if k < most && k + 1 < |bs| && Continues(bs[0], k, bs[k + 1]) then Run(bs, k + 1, most) else k
  }

  const REPLACEMENT: char := '\U{FFFD}'

  // Decoding that never fails: a truncated or broken sequence becomes one replacement character.
  function Utf8Lossy(bs: seq<Byte>): string {
    if bs == [] then ""
    else
      var n := if Follow(bs[0]).Some? then Run(bs, 0, Follow(bs[0]).value) else 0;
      var c := if IsScalar(bs[..n + 1]) then Scalar(bs[..n + 1]) else REPLACEMENT;
      [c] + Utf8Lossy(bs[n + 1..])
  }

  function Utf8All(s: string): seq<Byte> { if s == "" then [] else Utf8(s[0]) + Utf8All(s[1..]) }

  lemma {:induction false} RunOfScalar(bs: seq<Byte>, rest: seq<Byte>, k: nat)
    requires IsScalar(bs) && k < |bs|
    ensures Run(bs + rest, k, |bs| - 1) == |bs| - 1
    decreases |bs| - k
  {
    if k < |bs| - 1 {
      assert (bs + rest)[k + 1] == bs[k + 1] && Continues(bs[0], k, bs[k + 1]);
      RunOfScalar(bs, rest, k + 1);
    }
  }

  lemma {:induction false} LossyRoundTrip(s: string)
    ensures Utf8Lossy(Utf8All(s)) == s
  {
    if s != "" {
      var b, rest := Utf8(s[0]), Utf8All(s[1..]);
      Utf8RoundTrip(s[0]);
      RunOfScalar(b, rest, 0);
      assert (b + rest)[..|b|] == b && (b + rest)[|b|..] == rest;
      LossyRoundTrip(s[1..]);
    }
  }

  // ---- percent-encoding ----

  function Hex(n: nat): char
    requires n < 16
  {
    if n < 10 then Digit(n) else ('A' as int + n - 10) as char
  }

  function HexValue(c: char): Option<nat> {
    if '0' <= c <= '9' then Some(c as int - '0' as int)
    else if 'A' <= c <= 'F' then Some(c as int - 'A' as int + 10)
    else if 'a' <= c <= 'f' then Some(c as int - 'a' as int + 10)
    else None
  }

  function Percent(b: Byte): string { ['%', Hex(b / 16), Hex(b % 16)] }

  // The octet percent-encoded at i.
  function OctetAt(s: string, i: nat): Option<Byte> {
    if i + 2 < |s| && s[i] == '%' && HexValue(s[i + 1]).Some? && HexValue(s[i + 2]).Some?
    then Some(HexValue(s[i + 1]).value * 16 + HexValue(s[i + 2]).value)
    else None
  }

  lemma PercentIsOctet(b: Byte, before: string, after: string)
    ensures OctetAt(before + Percent(b) + after, |before|) == Some(b)
  {
    var s := before + Percent(b) + after;
    assert s[|before|] == '%' && s[|before| + 1] == Hex(b / 16) && s[|before| + 2] == Hex(b % 16);
  }

  // What encodeURIComponent leaves as it is.
  predicate Unreserved(c: char) {
    'A' <= c <= 'Z' || 'a' <= c <= 'z' || '0' <= c <= '9' || c in "-_.!~*'()"
  }

  function PercentAll(bs: seq<Byte>): string { if bs == [] then "" else Percent(bs[0]) + PercentAll(bs[1..]) }

  function EncodeChar(c: char): string { if Unreserved(c) then [c] else PercentAll(Utf8(c)) }

  function Encode(s: string): string { if s == "" then "" else EncodeChar(s[0]) + Encode(s[1..]) }

  function Octets(s: string, n: nat): Option<seq<Byte>> {
    if n == 0 then Some([])
    else
      var before := Octets(s, n - 1);
      if before.Some? && OctetAt(s, 3 * (n - 1)).Some? then Some(before.value + [OctetAt(s, 3 * (n - 1)).value]) else None
  }

  // decodeURIComponent: None where it throws.
  function Decode(s: string): Option<string> {
    if s == "" then Some("")
    else if s[0] != '%' then Prepend(s[0], Decode(s[1..]))
    else if OctetAt(s, 0).None? || Follow(OctetAt(s, 0).value).None? then None
    else
      var n := Follow(OctetAt(s, 0).value).value + 1;
      var bs := Octets(s, n);
      if bs.None? || !IsScalar(bs.value) || |s| < 3 * n then None
      else Prepend(Scalar(bs.value), Decode(s[3 * n..]))
  }

  function Prepend(c: char, s: Option<string>): Option<string> { if s.Some? then Some([c] + s.value) else None }

  lemma {:induction false} PercentAllLength(bs: seq<Byte>)
    ensures |PercentAll(bs)| == 3 * |bs|
  {
    if bs != [] { PercentAllLength(bs[1..]); }
  }

  lemma {:induction false} PercentAllSplit(bs: seq<Byte>, i: nat)
    requires i < |bs|
    ensures PercentAll(bs) == PercentAll(bs[..i]) + Percent(bs[i]) + PercentAll(bs[i + 1..])
  {
    if i > 0 {
      PercentAllSplit(bs[1..], i - 1);
      assert bs[1..][..i - 1] == bs[..i][1..] && bs[1..][i..] == bs[i + 1..];
    } else {
      assert bs[..0] == [];
    }
  }

  lemma {:induction false} OctetsOfPercents(bs: seq<Byte>, rest: string, n: nat)
    requires n <= |bs|
    ensures Octets(PercentAll(bs) + rest, n) == Some(bs[..n])
  {
    hide Percent, OctetAt;
    if n > 0 {
      OctetsOfPercents(bs, rest, n - 1);
      PercentAllSplit(bs, n - 1);
      PercentAllLength(bs[..n - 1]);
      var before, after := PercentAll(bs[..n - 1]), PercentAll(bs[n..]);
      assert PercentAll(bs) + rest == before + Percent(bs[n - 1]) + (after + rest);
      PercentIsOctet(bs[n - 1], before, after + rest);
      assert bs[..n] == bs[..n - 1] + [bs[n - 1]];
    }
  }

  lemma DecodeOneChar(c: char, rest: string)
    ensures Decode(EncodeChar(c) + rest) == Prepend(c, Decode(rest))
  {
    var s := EncodeChar(c) + rest;
    if Unreserved(c) {
      assert s[1..] == rest;
    } else {
      var bs := Utf8(c);
      Utf8RoundTrip(c);
      OctetsOfPercents(bs, rest, |bs|);
      OctetsOfPercents(bs, rest, 1);
      PercentAllLength(bs);
      assert bs[..|bs|] == bs;
      assert PercentAll(bs)[0] == '%';
      FirstOctet(bs, rest);
      assert s[3 * |bs|..] == rest;
    }
  }

  lemma FirstOctet(bs: seq<Byte>, rest: string)
    requires bs != []
    ensures OctetAt(PercentAll(bs) + rest, 0) == Some(bs[0])
  {
    assert PercentAll(bs) + rest == "" + Percent(bs[0]) + (PercentAll(bs[1..]) + rest);
    PercentIsOctet(bs[0], "", PercentAll(bs[1..]) + rest);
  }

  // Decoding undoes encoding, for every string.
  lemma {:induction false} DecodeEncode(s: string)
    ensures Decode(Encode(s)) == Some(s)
  {
    if s != "" {
      assert s == [s[0]] + s[1..];
      DecodeOneChar(s[0], Encode(s[1..]));
      DecodeEncode(s[1..]);
      hide Decode, EncodeChar;
    }
  }

  // Letters, digits and a few marks stand for themselves; everything else becomes bytes in percent signs.
  lemma EncodedAs(c: char)
    ensures 'A' <= c <= 'Z' || 'a' <= c <= 'z' || '0' <= c <= '9' || c in "-_.!~*'()" ==> EncodeChar(c) == [c]
    ensures c in " %/?#&=+" ==> EncodeChar(c) != [c] && EncodeChar(c)[0] == '%'
    ensures c as int < 0x80 ==> Utf8(c) == [c as int]
  {
  }

  // What an encoded string is made of: no separator of a path or a query.
  predicate Plain(c: char) { Unreserved(c) || c == '%' }

  lemma {:induction false} PercentAllIsPlain(bs: seq<Byte>)
    ensures forall c :: c in PercentAll(bs) ==> Plain(c)
  {
    if bs != [] { PercentAllIsPlain(bs[1..]); }
  }

  lemma {:induction false} EncodeIsPlain(s: string)
    ensures forall c :: c in Encode(s) ==> Plain(c)
    ensures s != "" ==> Encode(s) != ""
  {
    if s != "" {
      PercentAllIsPlain(Utf8(s[0]));
      PercentAllLength(Utf8(s[0]));
      EncodeIsPlain(s[1..]);
    }
  }

  // ---- queries ----

  // At the first separator; the second part is empty when there is none.
  function Cut(s: string, sep: char): (string, string) {
    if s == "" then ("", "")
    else if s[0] == sep then ("", s[1..])
    else var r := Cut(s[1..], sep); ([s[0]] + r.0, r.1)
  }

  lemma {:induction false} CutAt(a: string, sep: char, b: string)
    requires sep !in a
    ensures Cut(a + [sep] + b, sep) == (a, b) && Cut(a, sep) == (a, "")
  {
    var s := a + [sep] + b;
    if a == "" {
      assert s[1..] == b;
    } else {
      assert s[1..] == a[1..] + [sep] + b && a == [a[0]] + a[1..];
      CutAt(a[1..], sep, b);
    }
  }

  function PercentDecode(s: string): seq<Byte> {
    if s == "" then []
    else if OctetAt(s, 0).Some? then [OctetAt(s, 0).value] + PercentDecode(s[3..])
    else Utf8(s[0]) + PercentDecode(s[1..])
  }

  function PlusToSpace(s: string): string { seq(|s|, i requires 0 <= i < |s| => if s[i] == '+' then ' ' else s[i]) }

  function FormDecode(s: string): string { Utf8Lossy(PercentDecode(PlusToSpace(s))) }

  // new URLSearchParams(search).get(name)
  function QueryGet(search: string, name: string): Option<string> {
    var q := if search != "" && search[0] == '?' then search[1..] else search;
    FirstNamed(Split(q, '&'), name)
  }

  function FirstNamed(pairs: seq<string>, name: string): Option<string> {
    if pairs == [] then None
    else
      var (k, v) := Cut(pairs[0], '=');
      if pairs[0] != "" && FormDecode(k) == name then Some(FormDecode(v)) else FirstNamed(pairs[1..], name)
  }

  lemma PercentDecodeOne(b: Byte, rest: string)
    ensures PercentDecode(Percent(b) + rest) == [b] + PercentDecode(rest)
  {
    PercentIsOctet(b, "", rest);
    assert "" + Percent(b) + rest == Percent(b) + rest;
    assert (Percent(b) + rest)[3..] == rest;
  }

  lemma {:induction false} PercentDecodePercents(bs: seq<Byte>, rest: string)
    ensures PercentDecode(PercentAll(bs) + rest) == bs + PercentDecode(rest)
  {
    hide PercentDecode, Percent;
    if bs == [] {
      assert PercentAll(bs) + rest == rest;
      assert bs + PercentDecode(rest) == PercentDecode(rest);
    } else {
      PercentDecodeOne(bs[0], PercentAll(bs[1..]) + rest);
      PercentDecodePercents(bs[1..], rest);
      assert PercentAll(bs) + rest == Percent(bs[0]) + (PercentAll(bs[1..]) + rest);
      assert [bs[0]] + (bs[1..] + PercentDecode(rest)) == bs + PercentDecode(rest);
    }
  }

  lemma {:induction false} PercentDecodeEncode(s: string)
    ensures PercentDecode(Encode(s)) == Utf8All(s)
  {
    if s != "" {
      PercentDecodeEncode(s[1..]);
      if Unreserved(s[0]) {
        assert Encode(s)[1..] == Encode(s[1..]);
        assert OctetAt(Encode(s), 0).None?;
      } else {
        PercentDecodePercents(Utf8(s[0]), Encode(s[1..]));
      }
    }
  }

  lemma PlainHasNoPlus(s: string)
    requires forall c :: c in s ==> Plain(c)
    ensures PlusToSpace(s) == s
  {
    forall i | 0 <= i < |s| ensures s[i] != '+' { assert s[i] in s; }
  }

  // A query value printed with encodeURIComponent is read back, whatever it contains.
  lemma FormDecodeEncode(s: string)
    ensures FormDecode(Encode(s)) == s
  {
    EncodeIsPlain(s);
    PlainHasNoPlus(Encode(s));
    PercentDecodeEncode(s);
    LossyRoundTrip(s);
  }

  lemma {:induction false} UnreservedIsKept(s: string)
    requires forall c :: c in s ==> Unreserved(c)
    ensures Encode(s) == s
  {
    if s != "" { UnreservedIsKept(s[1..]); }
  }

  lemma OnlyPair(search: string, name: string, k: string, v: string)
    requires search != "" && search[0] == '?' && '&' !in search[1..] && search[1..] != ""
    requires Cut(search[1..], '=') == (k, v) && FormDecode(k) == name
    ensures QueryGet(search, name) == Some(FormDecode(v))
  {
    hide FormDecode, Cut;
    SplitNone(search[1..], '&');
  }

  lemma QueryOfOne(name: string, value: string)
    requires name != "" && forall c :: c in name ==> Unreserved(c)
    ensures QueryGet("?" + name + "=" + Encode(value), name) == Some(value)
  {
    var pair := name + ['='] + Encode(value);
    var search := "?" + name + "=" + Encode(value);
    assert search[1..] == pair;
    EncodeIsPlain(value);
    assert '=' !in name && '&' !in name && '&' !in Encode(value);
    hide Encode, Split, Cut, FormDecode, QueryGet;
    assert '&' !in pair;
    CutAt(name, '=', Encode(value));
    UnreservedIsKept(name);
    FormDecodeEncode(name);
    FormDecodeEncode(value);
    OnlyPair(search, name, name, Encode(value));
  }

  lemma QueryOfNone(name: string)
    ensures QueryGet("", name) == None
  {
    assert Split("", '&') == [""];
    assert [""][1..] == [];
    assert FirstNamed([], name) == None;
  }
}
