/**
 The text encodings a signature header is made of: base 16 (section 8 of RFC 4648,
 written in lower case), signed decimal as strconv.ParseInt reads it, comma-separated
 parts, and the trimming of white space.
 */
module Encoding {
  import opened Prelude
  import opened Digits

  type Byte = b: int | 0 <= b < 256

  // ---------------------------------------------------------------- base 16

  function HexDigit(n: int): char
    requires 0 <= n < 16
  {
    if n < 10 then '0' + n as char else 'a' + (n - 10) as char
  }

  function HexValue(c: char): (v: int)
    ensures -1 <= v < 16
  {
    if '0' <= c <= '9' then (c - '0') as int
    else if 'a' <= c <= 'f' then (c - 'a') as int + 10
    else if 'A' <= c <= 'F' then (c - 'A') as int + 10
    else -1
  }

  function HexEncode(b: seq<Byte>): string {
    if b == [] then "" else [HexDigit(b[0] / 16), HexDigit(b[0] % 16)] + HexEncode(b[1..])
  }

  function HexDecode(s: string): Option<seq<Byte>> {
    if s == [] then Some([])
    else if |s| == 1 || HexValue(s[0]) == -1 || HexValue(s[1]) == -1 then None
    else match HexDecode(s[2..])
      case None => None
      case Some(rest) => Some([HexValue(s[0]) * 16 + HexValue(s[1])] + rest)
  }

  lemma HexDigitValue(n: int)
    requires 0 <= n < 16
    ensures HexValue(HexDigit(n)) == n
  {
  }

  lemma {:induction false} HexRoundTrip(b: seq<Byte>)
    ensures HexDecode(HexEncode(b)) == Some(b)
  {
    if b != [] {
      HexRoundTrip(b[1..]);
      HexDigitValue(b[0] / 16);
      HexDigitValue(b[0] % 16);
      var s := HexEncode(b);
      assert s[2..] == HexEncode(b[1..]);
      assert HexValue(s[0]) * 16 + HexValue(s[1]) == b[0];
      assert [b[0]] + b[1..] == b;
    }
  }

  lemma HexDigitText(n: int)
    requires 0 <= n < 16
    ensures HexDigit(n) == "0123456789abcdef"[n]
  {
  }

  /** Two lower-case digits per byte, the high half first. */
  lemma {:induction false} HexText(b: seq<Byte>, i: nat)
    requires i < |b|
    ensures |HexEncode(b)| == 2 * |b|
    ensures HexEncode(b)[2 * i] == "0123456789abcdef"[b[i] / 16]
    ensures HexEncode(b)[2 * i + 1] == "0123456789abcdef"[b[i] % 16]
    decreases |b|
  {
    HexDigitText(b[0] / 16);
    HexDigitText(b[0] % 16);
    if |b| > 1 { HexText(b[1..], if i > 0 then i - 1 else 0); }
  }

  function Lowered(s: string): string {
    seq(|s|, i requires 0 <= i < |s| => if 'A' <= s[i] <= 'F' then s[i] - 'A' + 'a' else s[i])
  }

  lemma HexValueText(c: char, n: int)
    requires 0 <= n < 16
    ensures HexValue(c) == n <==> Lowered([c])[0] == HexDigit(n)
  {
  }

  /** Exactly the digits of a byte string, in either case, decode to it. */
  lemma {:induction false} HexDecodesExactly(s: string, b: seq<Byte>)
    ensures HexDecode(s) == Some(b) <==> Lowered(s) == HexEncode(b)
    decreases |s|
  {
    if |s| >= 2 && b != [] {
      HexDecodesExactly(s[2..], b[1..]);
      HexHead(s, b);
    } else if |s| >= 2 {
      assert |Lowered(s)| >= 2;
    } else if b != [] {
      assert |HexEncode(b)| >= 2;
    }
  }

  lemma HexHead(s: string, b: seq<Byte>)
    requires |s| >= 2 && b != [] && (HexDecode(s[2..]) == Some(b[1..]) <==> Lowered(s[2..]) == HexEncode(b[1..]))
    ensures HexDecode(s) == Some(b) <==> Lowered(s) == HexEncode(b)
  {
    var hi, lo := b[0] / 16, b[0] % 16;
    HexValueText(s[0], hi);
    HexValueText(s[1], lo);
    var low := Lowered(s);
    assert low == [low[0], low[1]] + Lowered(s[2..]);
    assert low[0] == Lowered([s[0]])[0] && low[1] == Lowered([s[1]])[0];
    assert low == HexEncode(b) <==>
           low[0] == HexDigit(hi) && low[1] == HexDigit(lo) && Lowered(s[2..]) == HexEncode(b[1..]) by
    {
      SameHalves([low[0], low[1]], Lowered(s[2..]), [HexDigit(hi), HexDigit(lo)], HexEncode(b[1..]));
    }
    HexDecodeHead(s, b);
  }

  lemma SameHalves(a: string, x: string, c: string, y: string)
    requires |a| == |c| == 2
    ensures a + x == c + y <==> a[0] == c[0] && a[1] == c[1] && x == y
  {
    assert (a + x)[..2] == a && (c + y)[..2] == c && (a + x)[2..] == x && (c + y)[2..] == y;
    assert a == [a[0], a[1]] && c == [c[0], c[1]];
  }

  lemma HexDecodeHead(s: string, b: seq<Byte>)
    requires |s| >= 2 && b != []
    ensures HexDecode(s) == Some(b) <==>
            HexValue(s[0]) == b[0] / 16 && HexValue(s[1]) == b[0] % 16 && HexDecode(s[2..]) == Some(b[1..])
  {
    var rest := HexDecode(s[2..]);
    if HexValue(s[0]) != -1 && HexValue(s[1]) != -1 && rest.Some? {
      var byte := HexValue(s[0]) * 16 + HexValue(s[1]);
      assert HexDecode(s) == Some([byte] + rest.value);
      assert [byte] + rest.value == b <==> byte == b[0] && rest.value == b[1..] by {
        assert b == [b[0]] + b[1..];
        assert ([byte] + rest.value)[0] == byte && ([byte] + rest.value)[1..] == rest.value;
      }
    }
  }

  lemma {:induction false} HexIsPlain(b: seq<Byte>)
    ensures Plain(HexEncode(b))
  {
    if b != [] { HexIsPlain(b[1..]); }
  }

  /** Characters that mean nothing to the header's syntax. */
  predicate Plain(s: string) {
    forall i :: 0 <= i < |s| ==> s[i] != ',' && s[i] != '=' && !IsSpace(s[i])
  }

  // ---------------------------------------------------------------- decimal

  const MAX_UINT64 := 0xFFFF_FFFF_FFFF_FFFF
  const TWO63 := 0x8000_0000_0000_0000

  predicate IsInt64(n: int) { -TWO63 <= n < TWO63 }

  predicate IsDigit(c: char) { '0' <= c <= '9' }

  /** The digits of s read after those that made acc; overflow ends the scan at once. */
  function ParseUint(s: string, acc: int): Option<int>
    decreases |s|
  {
    if s == [] then Some(acc)
    else if !IsDigit(s[0]) then None
    else
      var n := acc * 10 + (s[0] - '0') as int;
      if n > MAX_UINT64 then Some(MAX_UINT64) else ParseUint(s[1..], n)
  }

  /** The value strconv.ParseInt(s, 10, 64) returns, its error ignored: 0, or the nearest bound. */
  function ParseInt(s: string): int {
    var negative := s != [] && s[0] == '-';
    var digits := if s != [] && (s[0] == '-' || s[0] == '+') then s[1..] else s;
    if digits == [] then 0 else
    match ParseUint(digits, 0)
    case None => 0
    case Some(n) =>
      if negative then (if n > TWO63 then -TWO63 else -n)
      else (if n >= TWO63 then TWO63 - 1 else n)
  }

  lemma {:induction false} ParseNatural(n: nat, rest: string)
    requires n <= MAX_UINT64
    ensures ParseUint(Natural(n) + rest, 0) == ParseUint(rest, n)
    decreases n
  {
    if n < 10 {
      assert (Natural(n) + rest)[1..] == rest;
    } else {
      var d := [Digit(n % 10)];
      assert Natural(n) + rest == Natural(n / 10) + (d + rest);
      ParseNatural(n / 10, d + rest);
      assert (d + rest)[1..] == rest;
    }
  }

  lemma DecimalRoundTrip(n: int)
    requires IsInt64(n)
    ensures ParseInt(Decimal(n)) == n
    ensures Plain(Decimal(n)) && Decimal(n) != []
  {
    var m := if n < 0 then -n else n;
    ParseNatural(m, "");
    assert Natural(m) + "" == Natural(m);
    if n < 0 { assert Decimal(n)[1..] == Natural(m); }
  }

  /** What a string of digits is worth. */
  function Worth(s: string): int
    requires AllDigits(s)
  {
    if s == [] then 0 else assert IsDigit(s[|s| - 1]); Worth(s[..|s| - 1]) * 10 + (Last(s) - '0') as int
  }

  predicate AllDigits(s: string) { forall i :: 0 <= i < |s| ==> IsDigit(s[i]) }

  lemma {:induction false} NaturalText(n: nat)
    ensures Worth(Natural(n)) == n && (n > 0 ==> Natural(n)[0] != '0') && (n == 0 ==> Natural(n) == "0")
  {
    if n >= 10 {
      NaturalText(n / 10);
      assert Natural(n)[..|Natural(n)| - 1] == Natural(n / 10);
    } else {
      assert Natural(n)[..0] == [];
    }
  }

  /** Digits without leading zeros, worth the number, after a minus sign for a negative one. */
  lemma DecimalText(n: int)
    ensures n < 0 ==> Decimal(n) == "-" + Decimal(-n)
    ensures n >= 0 ==>
            && (forall i :: 0 <= i < |Decimal(n)| ==> '0' <= Decimal(n)[i] <= '9')
            && Worth(Decimal(n)) == n && (n > 0 ==> Decimal(n)[0] != '0') && (n == 0 ==> Decimal(n) == "0")
  {
    if n >= 0 { NaturalText(n); }
  }

  lemma {:induction false} WorthNonnegative(s: string)
    requires AllDigits(s)
    ensures Worth(s) >= 0
  {
    if s != [] {
      assert IsDigit(s[|s| - 1]);
      WorthNonnegative(s[..|s| - 1]);
    }
  }

  lemma {:induction false} WorthSplits(a: string, b: string)
    requires AllDigits(a) && AllDigits(b)
    ensures Worth(a + b) >= Worth(a) >= 0
    decreases |b|
  {
    WorthNonnegative(a);
    if b == [] {
      assert a + b == a;
    } else {
      assert (a + b)[..|a + b| - 1] == a + b[..|b| - 1] && Last(a + b) == Last(b);
      WorthSplits(a, b[..|b| - 1]);
      assert IsDigit(b[|b| - 1]);
    }
  }

  /** Reading digits after some others: their joint worth, or the largest value at the first overflow. */
  lemma {:induction false} ParsesWorth(done: string, s: string)
    requires AllDigits(done) && AllDigits(s)
    requires Worth(done) <= MAX_UINT64
    ensures ParseUint(s, Worth(done)) == Some(if Worth(done + s) > MAX_UINT64 then MAX_UINT64 else Worth(done + s))
    decreases |s|
  {
    if s == [] {
      assert done + s == done;
    } else {
      var more := done + [s[0]];
      assert more[..|done|] == done && Worth(more) == Worth(done) * 10 + (s[0] - '0') as int;
      assert more + s[1..] == done + s;
      if Worth(more) > MAX_UINT64 { WorthSplits(more, s[1..]); } else { ParsesWorth(more, s[1..]); }
    }
  }

  lemma ParsesUnsigned(s: string)
    requires s != [] && AllDigits(s)
    ensures ParseUint(s, 0) == Some(if Worth(s) > MAX_UINT64 then MAX_UINT64 else Worth(s))
  {
    ParsesWorth("", s);
    assert "" + s == s;
  }

  /** Non-empty digits, with or without a sign, read as their worth, or as the nearest int64. */
  lemma ParsesDigits(s: string)
    requires s != [] && AllDigits(s)
    ensures ParseInt(s) == if Worth(s) > 0x7FFF_FFFF_FFFF_FFFF then 0x7FFF_FFFF_FFFF_FFFF else Worth(s)
  {
    ParsesUnsigned(s);
    assert IsDigit(s[0]);
  }

  lemma ParsesSigned(s: string)
    requires s != [] && AllDigits(s)
    ensures ParseInt("+" + s) == ParseInt(s)
    ensures ParseInt("-" + s) == if Worth(s) > 0x8000_0000_0000_0000 then -0x8000_0000_0000_0000 else -Worth(s)
  {
    ParsesUnsigned(s);
    ParsesDigits(s);
    assert ("+" + s)[1..] == s && ("-" + s)[1..] == s;
  }

  /** Digits that overflow end the scan; otherwise a character that is no digit spoils it. */
  lemma {:induction false} ParsesUpTo(done: string, s: string, rest: string)
    requires AllDigits(done) && AllDigits(s) && Worth(done) <= MAX_UINT64 && rest != [] && !IsDigit(rest[0])
    ensures ParseUint(s + rest, Worth(done)) == if Worth(done + s) > MAX_UINT64 then Some(MAX_UINT64) else None
    decreases |s|
  {
    if s == [] {
      assert s + rest == rest && done + s == done;
    } else {
      var more := done + [s[0]];
      assert (s + rest)[0] == s[0] && (s + rest)[1..] == s[1..] + rest;
      assert more[..|done|] == done && Worth(more) == Worth(done) * 10 + (s[0] - '0') as int;
      assert more + s[1..] == done + s;
      if Worth(more) > MAX_UINT64 { WorthSplits(more, s[1..]); } else { ParsesUpTo(more, s[1..], rest); }
    }
  }

  /** Digits followed by anything else read as 0, unless they alone exceed an unsigned 64-bit number. */
  lemma ParsesJunk(s: string, rest: string)
    requires s != [] && AllDigits(s) && rest != [] && !IsDigit(rest[0])
    ensures ParseInt(s + rest) == if Worth(s) > 0xFFFF_FFFF_FFFF_FFFF then 0x7FFF_FFFF_FFFF_FFFF else 0
  {
    ParsesUpTo("", s, rest);
    assert "" + s == s && (s + rest)[0] == s[0] && IsDigit(s[0]);
  }

  /** Nothing, a lone sign, or a first character that is no digit reads as 0. */
  lemma ParsesNothing(s: string)
    requires !IsDigit(if s == [] then 'x' else if s[0] in ['+', '-'] then (if |s| == 1 then 'x' else s[1]) else s[0])
    ensures ParseInt(s) == 0
  {
  }

  // ---------------------------------------------------------------- parts

  predicate CommaFree(s: string) { ',' !in s }

  /** strings.Split(s, ","). */
  function Split(s: string): (parts: seq<string>)
    ensures |parts| > 0
  {
    if s == [] then [""]
    else
      var rest := Split(s[1..]);
      if s[0] == ',' then [""] + rest else [[s[0]] + rest[0]] + rest[1..]
  }

  function Join(parts: seq<string>): string
    requires |parts| > 0
  {
    if |parts| == 1 then parts[0] else parts[0] + "," + Join(parts[1..])
  }

  lemma {:induction false} SplitPrefix(p: string, rest: string)
    requires CommaFree(p)
    ensures Split(p + rest) == [p + Split(rest)[0]] + Split(rest)[1..]
    decreases |p|
  {
    if p == [] {
      assert p + rest == rest;
      assert p + Split(rest)[0] == Split(rest)[0];
    } else {
      SplitPrefix(p[1..], rest);
      assert (p + rest)[0] == p[0] && p[0] in p && (p + rest)[1..] == p[1..] + rest;
      assert [p[0]] + (p[1..] + Split(rest)[0]) == p + Split(rest)[0];
    }
  }

  lemma {:induction false} SplitJoin(parts: seq<string>)
    requires |parts| > 0 && forall i :: 0 <= i < |parts| ==> CommaFree(parts[i])
    ensures Split(Join(parts)) == parts
    decreases |parts|
  {
    var p := parts[0];
    if |parts| == 1 {
      SplitPrefix(p, "");
      assert p + "" == p;
    } else {
      var tail := Join(parts[1..]);
      SplitJoin(parts[1..]);
      SplitPrefix(p, "," + tail);
      assert p + "," + tail == p + ("," + tail);
      assert ("," + tail)[1..] == tail;
      assert Split("," + tail) == [""] + parts[1..];
      assert p + "" == p && [p] + parts[1..] == parts;
    }
  }

  lemma {:induction false} JoinSplit(s: string)
    ensures Join(Split(s)) == s
    ensures forall i :: 0 <= i < |Split(s)| ==> CommaFree(Split(s)[i])
    decreases |s|
  {
    if s != [] {
      JoinSplit(s[1..]);
      var rest := Split(s[1..]);
      if s[0] != ',' && |rest| > 1 {
        assert ([[s[0]] + rest[0]] + rest[1..])[1..] == rest[1..];
      }
    }
  }

  /** strings.SplitN(s, "=", 2), when it yields two strings. */
  function Cut(s: string): Option<(string, string)> {
    if s == [] then None
    else if s[0] == '=' then Some(("", s[1..]))
    else match Cut(s[1..])
      case None => None
      case Some((k, v)) => Some(([s[0]] + k, v))
  }

  lemma {:induction false} CutKey(key: string, value: string)
    requires '=' !in key
    ensures Cut(key + "=" + value) == Some((key, value))
    decreases |key|
  {
    var s := key + "=" + value;
    if key == [] {
      assert s[0] == '=' && s[1..] == value;
    } else {
      CutKey(key[1..], value);
      assert s[0] == key[0] && key[0] in key && s[1..] == key[1..] + "=" + value;
      assert [key[0]] + key[1..] == key;
    }
  }

  /** The string is cut at its first "=", and only if it has one. */
  lemma {:induction false} CutExactly(s: string)
    ensures Cut(s).None? <==> '=' !in s
    ensures Cut(s).Some? ==> var (k, v) := Cut(s).value; s == k + "=" + v && '=' !in k
    decreases |s|
  {
    if s != [] && s[0] != '=' { CutExactly(s[1..]); }
  }

  /** Splitting a string at a comma splits its two sides. */
  lemma {:induction false} SplitAppend(a: string, b: string)
    ensures Split(a + "," + b) == Split(a) + Split(b)
    decreases |a|
  {
    var s := a + "," + b;
    if a == [] {
      assert s[0] == ',' && s[1..] == b;
    } else {
      SplitAppend(a[1..], b);
      assert s[0] == a[0] && s[1..] == a[1..] + "," + b;
      SplitHead(a, b);
    }
  }

  lemma SplitHead(a: string, b: string)
    requires a != []
    ensures var rest := Split(a[1..]);
            Split(a) + Split(b)
            == if a[0] == ',' then [""] + (rest + Split(b))
               else [[a[0]] + (rest + Split(b))[0]] + (rest + Split(b))[1..]
  {
  }

  // ---------------------------------------------------------------- white space

  /** unicode.IsSpace. */
  predicate IsSpace(c: char) {
    || '\t' <= c <= '\r' || c == ' '
    || c == '\U{0085}' || c == '\U{00A0}' || c == '\U{1680}'
    || '\U{2000}' <= c <= '\U{200A}' || c == '\U{2028}' || c == '\U{2029}'
    || c == '\U{202F}' || c == '\U{205F}' || c == '\U{3000}'
  }

  function TrimLeft(s: string): string {
    if s != [] && IsSpace(s[0]) then TrimLeft(s[1..]) else s
  }

  function TrimRight(s: string): string {
    if s != [] && IsSpace(Last(s)) then TrimRight(s[..|s| - 1]) else s
  }

  function TrimSpace(s: string): string { TrimRight(TrimLeft(s)) }

  lemma TrimmedStays(s: string)
    requires s != [] && !IsSpace(s[0]) && !IsSpace(Last(s))
    ensures TrimSpace(s) == s
  {
  }

  lemma {:induction false} TrimRightStarts(s: string)
    ensures TrimRight(s) <= s
    ensures TrimRight(s) != [] ==> !IsSpace(Last(TrimRight(s)))
  {
    if s != [] && IsSpace(Last(s)) { TrimRightStarts(s[..|s| - 1]); }
  }

  lemma {:induction false} TrimLeftStarts(s: string)
    ensures TrimLeft(s) != [] ==> !IsSpace(TrimLeft(s)[0])
  {
    if s != [] && IsSpace(s[0]) { TrimLeftStarts(s[1..]); }
  }

  lemma TrimTwice(s: string)
    ensures TrimSpace(TrimSpace(s)) == TrimSpace(s)
  {
    TrimLeftStarts(s);
    TrimRightStarts(TrimLeft(s));
    if TrimSpace(s) != [] { TrimmedStays(TrimSpace(s)); }
  }

  /** The white space of the Unicode standard. */
  predicate WhiteSpace(c: char) {
    c in ['\t', '\n', '\U{000B}', '\U{000C}', '\r', ' ', '\U{0085}', '\U{00A0}', '\U{1680}',
          '\U{2000}', '\U{2001}', '\U{2002}', '\U{2003}', '\U{2004}', '\U{2005}', '\U{2006}', '\U{2007}',
          '\U{2008}', '\U{2009}', '\U{200A}', '\U{2028}', '\U{2029}', '\U{202F}', '\U{205F}', '\U{3000}']
  }

  lemma SpaceIsWhite(c: char)
    ensures IsSpace(c) <==> WhiteSpace(c)
  {
  }

  ghost predicate AllSpace(s: string) { forall i :: 0 <= i < |s| ==> IsSpace(s[i]) }

  lemma {:induction false} TrimLeftSplits(s: string) returns (a: string)
    ensures s == a + TrimLeft(s) && AllSpace(a)
    decreases |s|
  {
    a := "";
    if s != [] && IsSpace(s[0]) {
      var rest := TrimLeftSplits(s[1..]);
      a := [s[0]] + rest;
    }
  }

  lemma {:induction false} TrimRightSplits(s: string) returns (b: string)
    ensures s == TrimRight(s) + b && AllSpace(b)
    decreases |s|
  {
    b := "";
    if s != [] && IsSpace(Last(s)) {
      var rest := TrimRightSplits(s[..|s| - 1]);
      b := rest + [Last(s)];
    }
  }

  /** Trimming takes white space off both ends, all of it and nothing else. */
  lemma TrimExactly(s: string) returns (a: string, b: string)
    ensures s == a + TrimSpace(s) + b && AllSpace(a) && AllSpace(b)
    ensures TrimSpace(s) != "" ==> !IsSpace(TrimSpace(s)[0]) && !IsSpace(Last(TrimSpace(s)))
  {
    a := TrimLeftSplits(s);
    b := TrimRightSplits(TrimLeft(s));
    TrimLeftStarts(s);
    TrimRightStarts(TrimLeft(s));
    assert a + (TrimSpace(s) + b) == a + TrimSpace(s) + b;
  }
}
