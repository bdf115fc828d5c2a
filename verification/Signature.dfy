/**
 Webhook signatures: what the simulator writes and what the adapters read. HMAC
 (section 2 of RFC 2104) is an opaque function of a key and a message, given as a
 text prefix followed by the body.
 */
module Signature {
  import opened Prelude
  import opened Digits
  import opened Encoding

  type Mac = (string, string, seq<Byte>) -> seq<Byte>

  const NANOSECONDS := 1_000_000_000
  const TOLERANCE := 300 * NANOSECONDS

  // ---------------------------------------------------------------- Stripe

  /** Timestamp, dot and body are signed together. */
  function StripeMac(mac: Mac, secret: string, ts: int, body: seq<Byte>): seq<Byte> {
    mac(secret, Decimal(ts) + ".", body)
  }

  datatype Field = Timestamp(ts: int) | V1(digest: seq<Byte>) | Ignored

  /** What one part of the header contributes. */
  function FieldOf(part: string): Field {
    match Cut(TrimSpace(part))
    case None => Ignored
    case Some((k, v)) =>
      if k == "t" then Timestamp(ParseInt(v))
      else if k == "v1" then (match HexDecode(v) case None => Ignored case Some(d) => V1(d))
      else Ignored
  }

  datatype Parsed = Parsed(ts: int, digests: seq<seq<Byte>>)

  function Read(p: Parsed, f: Field): Parsed {
    match f
    case Timestamp(ts) => p.(ts := ts)
    case V1(d) => p.(digests := p.digests + [d])
    case Ignored => p
  }

  function Parse(parts: seq<string>): Parsed {
    if parts == [] then Parsed(0, []) else Read(Parse(parts[..|parts| - 1]), FieldOf(Last(parts)))
  }

  predicate Judge(p: Parsed, mac: Mac, key: string, body: seq<Byte>, now: int) {
    && p.ts != 0 && p.digests != []
    && now - p.ts * NANOSECONDS <= TOLERANCE
    && StripeMac(mac, key, p.ts, body) in p.digests
  }

  /** The verdict on a whole header. */
  predicate StripeAccepts(mac: Mac, header: string, body: seq<Byte>, secret: string, now: int) {
    var key := TrimSpace(secret);
    header != "" && key != "" && Judge(Parse(Split(header)), mac, key, body, now)
  }

  /** The loop over the parts: the last timestamp and every digest that decodes. */
  method ReadParts(parts: seq<string>) returns (ts: int, v1s: seq<seq<Byte>>)
    ensures Parsed(ts, v1s) == Parse(parts)
  {
    ts, v1s := 0, [];
    var i := 0;
    while i < |parts|
      invariant 0 <= i <= |parts|
      invariant Parsed(ts, v1s) == Parse(parts[..i])
    {
      assert parts[..i + 1][..i] == parts[..i];
      var kv := Cut(TrimSpace(parts[i]));
      if kv.Some? {
        if kv.value.0 == "t" {
          ts := ParseInt(kv.value.1);
        } else if kv.value.0 == "v1" {
          var decoded := HexDecode(kv.value.1);
          if decoded.Some? {
            v1s := v1s + [decoded.value];
          }
        }
      }
      i := i + 1;
    }
    assert parts[..|parts|] == parts;
  }

  /** The loop over the digests. */
  method AnyEqual(v1s: seq<seq<Byte>>, expected: seq<Byte>) returns (found: bool)
    ensures found <==> expected in v1s
  {
    var j := 0;
    while j < |v1s|
      invariant 0 <= j <= |v1s|
      invariant forall k :: 0 <= k < j ==> v1s[k] != expected
    {
      if v1s[j] == expected {
        return true;
      }
      j := j + 1;
    }
    found := false;
  }

  method StripeVerify(mac: Mac, header: string, body: seq<Byte>, secret: string, now: int) returns (ok: bool)
    ensures ok == StripeAccepts(mac, header, body, secret, now)
  {
    var key := TrimSpace(secret);
    if header == "" || key == "" {
      return false;
    }
    var ts, v1s := ReadParts(Split(header));
    if ts == 0 || |v1s| == 0 || now - ts * NANOSECONDS > TOLERANCE {
      return false;
    }
    ok := AnyEqual(v1s, mac(key, Decimal(ts) + ".", body));
  }

  lemma KeyedPart(key: string, value: string)
    requires Plain(key) && Plain(value) && key != [] && value != []
    ensures CommaFree(key + "=" + value)
    ensures Cut(TrimSpace(key + "=" + value)) == Some((key, value))
  {
    var part := key + "=" + value;
    assert part[0] == key[0] && Last(part) == Last(value);
    TrimmedStays(part);
    CutKey(key, value);
  }

  lemma HeaderParses(ts: int, digest: seq<Byte>)
    requires IsInt64(ts) && digest != []
    ensures Parse(Split("t=" + Decimal(ts) + ",v1=" + HexEncode(digest))) == Parsed(ts, [digest])
  {
    var t, v := "t" + "=" + Decimal(ts), "v1" + "=" + HexEncode(digest);
    FieldsRead(ts, digest);
    SplitJoin([t, v]);
    TwoParts(Decimal(ts), HexEncode(digest));
    TwoFields(t, v, ts, digest);
  }

  lemma FieldsRead(ts: int, digest: seq<Byte>)
    requires IsInt64(ts) && digest != []
    ensures var t := "t" + "=" + Decimal(ts); FieldOf(t) == Timestamp(ts) && CommaFree(t)
    ensures var v := "v1" + "=" + HexEncode(digest); FieldOf(v) == V1(digest) && CommaFree(v)
  {
    DecimalRoundTrip(ts);
    HexRoundTrip(digest);
    HexIsPlain(digest);
    KeyedPart("t", Decimal(ts));
    KeyedPart("v1", HexEncode(digest));
  }

  lemma TwoParts(ts: string, hex: string)
    ensures Join(["t" + "=" + ts, "v1" + "=" + hex]) == "t=" + ts + ",v1=" + hex
  {
    var t, v := "t" + "=" + ts, "v1" + "=" + hex;
    assert [t, v][1..] == [v];
    assert t + "," + v == "t=" + ts + ",v1=" + hex;
  }

  lemma TwoFields(t: string, v: string, ts: int, digest: seq<Byte>)
    requires FieldOf(t) == Timestamp(ts) && FieldOf(v) == V1(digest)
    ensures Parse([t, v]) == Parsed(ts, [digest])
  {
    assert [t, v][..1] == [t] && [t][..0] == [];
    assert Parse([t]) == Parsed(ts, []);
  }

  /** The reader's exact verdict on a header with one timestamp and one digest, whoever wrote it. */
  lemma HeaderVerdict(mac: Mac, ts: int, digest: seq<Byte>, secret: string, body: seq<Byte>, now: int)
    requires -0x8000_0000_0000_0000 <= ts < 0x8000_0000_0000_0000 && digest != []
    ensures StripeAccepts(mac, "t=" + Decimal(ts) + ",v1=" + HexEncode(digest), body, secret, now) <==>
            && TrimSpace(secret) != "" && ts != 0
            && now - ts * 1_000_000_000 <= 300_000_000_000
            && mac(TrimSpace(secret), Decimal(ts) + ".", body) == digest
  {
    HeaderParses(ts, digest);
    var header := "t=" + Decimal(ts) + ",v1=" + HexEncode(digest);
    assert header[0] == 't';
  }

  /**
   The reader's exact verdict on what the simulator sends: accepted iff the timestamp is
   usable and at most five minutes old and the two secrets, the reader's trimmed, give the
   same MAC of timestamp, dot and body.
   */
  lemma WrittenHeaderVerdict(mac: Mac, written: string, secret: string, ts: int, body: seq<Byte>, now: int)
    requires -0x8000_0000_0000_0000 <= ts < 0x8000_0000_0000_0000 && mac(written, Decimal(ts) + ".", body) != []
    ensures var header := "t=" + Decimal(ts) + ",v1=" + HexEncode(mac(written, Decimal(ts) + ".", body));
            StripeAccepts(mac, header, body, secret, now) <==>
              && TrimSpace(secret) != "" && ts != 0
              && now - ts * 1_000_000_000 <= 300_000_000_000
              && mac(TrimSpace(secret), Decimal(ts) + ".", body) == mac(written, Decimal(ts) + ".", body)
  {
    HeaderVerdict(mac, ts, mac(written, Decimal(ts) + ".", body), secret, body, now);
  }

  /** A header whose timestamp was changed after signing passes only if the two MACs collide. */
  lemma MovedTimestamp(mac: Mac, secret: string, signed: int, ts: int, body: seq<Byte>, now: int)
    requires -0x8000_0000_0000_0000 <= ts < 0x8000_0000_0000_0000 && mac(secret, Decimal(signed) + ".", body) != []
    requires StripeAccepts(mac, "t=" + Decimal(ts) + ",v1=" + HexEncode(mac(secret, Decimal(signed) + ".", body)),
                           body, secret, now)
    ensures mac(TrimSpace(secret), Decimal(ts) + ".", body) == mac(secret, Decimal(signed) + ".", body)
  {
    HeaderVerdict(mac, ts, mac(secret, Decimal(signed) + ".", body), secret, body, now);
  }

  /** A trimmed, non-empty secret always verifies its own fresh header. */
  lemma OwnHeaderAccepted(mac: Mac, secret: string, ts: int, body: seq<Byte>, now: int)
    requires IsInt64(ts) && ts != 0 && now - ts * 1_000_000_000 <= 300_000_000_000
    requires TrimSpace(secret) == secret != "" && mac(secret, Decimal(ts) + ".", body) != []
    ensures StripeAccepts(mac, "t=" + Decimal(ts) + ",v1=" + HexEncode(mac(secret, Decimal(ts) + ".", body)),
                          body, secret, now)
  {
    WrittenHeaderVerdict(mac, secret, secret, ts, body, now);
  }

  /** Whatever an operator enters as the secret, once trimmed for storage it verifies what is signed with it. */
  lemma StoredSecretAccepted(mac: Mac, entered: string, ts: int, body: seq<Byte>, now: int)
    requires IsInt64(ts) && ts != 0 && now - ts * 1_000_000_000 <= 300_000_000_000
    requires TrimSpace(entered) != "" && mac(TrimSpace(entered), Decimal(ts) + ".", body) != []
    ensures var header := "t=" + Decimal(ts) + ",v1=" + HexEncode(mac(TrimSpace(entered), Decimal(ts) + ".", body));
            StripeAccepts(mac, header, body, TrimSpace(entered), now)
  {
    TrimTwice(entered);
    OwnHeaderAccepted(mac, TrimSpace(entered), ts, body, now);
  }

  /** A part counts by its prefix after trimming: "t=" gives a timestamp, "v1=" a digest if what follows decodes. */
  lemma FieldExactly(part: string)
    ensures var s := TrimSpace(part);
            && (FieldOf(part).Timestamp? <==> "t=" <= s)
            && (FieldOf(part).Timestamp? ==> FieldOf(part).ts == ParseInt(s[2..]))
            && (FieldOf(part).V1? <==> "v1=" <= s && HexDecode(s[3..]).Some?)
            && (FieldOf(part).V1? ==> Some(FieldOf(part).digest) == HexDecode(s[3..]))
  {
    var s := TrimSpace(part);
    CutExactly(s);
    if "t=" <= s { CutAtKey(s, "t"); }
    if "v1=" <= s { CutAtKey(s, "v1"); }
    if Cut(s).Some? {
      var (k, v) := Cut(s).value;
      if k == "t" { assert s == "t=" + v && s[2..] == v; }
      if k == "v1" { assert s == "v1=" + v && s[3..] == v; }
    }
  }

  lemma CutAtKey(s: string, key: string)
    requires '=' !in key && key + "=" <= s
    ensures Cut(s) == Some((key, s[|key| + 1..]))
  {
    assert s == key + "=" + s[|key| + 1..];
    CutKey(key, s[|key| + 1..]);
  }

  /** The last timestamp counts: one appended to any header is the one that is judged. */
  lemma LastTimestampCounts(mac: Mac, header: string, ts: int, body: seq<Byte>, secret: string, now: int)
    requires -0x8000_0000_0000_0000 <= ts < 0x8000_0000_0000_0000
    ensures StripeAccepts(mac, header + "," + ("t=" + Decimal(ts)), body, secret, now) <==>
            && TrimSpace(secret) != "" && ts != 0
            && now - ts * 1_000_000_000 <= 300_000_000_000
            && exists p :: p in Split(header) && FieldOf(p) == V1(mac(TrimSpace(secret), Decimal(ts) + ".", body))
  {
    var part, parts := "t=" + Decimal(ts), Split(header);
    AppendedPart(header, ts);
    assert (parts + [part])[..|parts|] == parts;
    ParseDigests(parts, mac(TrimSpace(secret), Decimal(ts) + ".", body));
    VerdictByParse(mac, header + "," + part, body, secret, now);
  }

  lemma TimestampPart(ts: int)
    requires -0x8000_0000_0000_0000 <= ts < 0x8000_0000_0000_0000
    ensures CommaFree("t=" + Decimal(ts)) && FieldOf("t=" + Decimal(ts)) == Timestamp(ts)
  {
    DecimalRoundTrip(ts);
    KeyedPart("t", Decimal(ts));
    assert "t" + "=" + Decimal(ts) == "t=" + Decimal(ts);
  }

  lemma OnePart(part: string)
    requires CommaFree(part)
    ensures Split(part) == [part]
  {
    SplitJoin([part]);
  }

  lemma AppendedPart(header: string, ts: int)
    requires -0x8000_0000_0000_0000 <= ts < 0x8000_0000_0000_0000
    ensures Split(header + "," + ("t=" + Decimal(ts))) == Split(header) + ["t=" + Decimal(ts)]
    ensures FieldOf("t=" + Decimal(ts)) == Timestamp(ts)
  {
    var part := "t=" + Decimal(ts);
    TimestampPart(ts);
    OnePart(part);
    SplitAppend(header, part);
  }

  // ---------------------------------------------------------------- order and noise

  /** All timestamp fields, if any, carry the value n. */
  ghost predicate TimestampIs(parts: seq<string>, n: int) {
    forall p :: p in parts && FieldOf(p).Timestamp? ==> FieldOf(p).ts == n
  }

  ghost predicate HasTimestamp(parts: seq<string>) {
    exists p :: p in parts && FieldOf(p).Timestamp?
  }

  lemma {:induction false} ParseTimestamp(parts: seq<string>, n: int)
    requires TimestampIs(parts, n)
    ensures Parse(parts).ts == if HasTimestamp(parts) then n else 0
    decreases |parts|
  {
    if parts != [] {
      var pre, part := parts[..|parts| - 1], Last(parts);
      assert parts == pre + [part];
      assert part in parts;
      assert forall p :: p in parts <==> p in pre || p == part;
      ParseTimestamp(pre, n);
    }
  }

  lemma {:induction false} ParseDigests(parts: seq<string>, d: seq<Byte>)
    ensures d in Parse(parts).digests <==> exists p :: p in parts && FieldOf(p) == V1(d)
    decreases |parts|
  {
    if parts != [] {
      var pre, part := parts[..|parts| - 1], Last(parts);
      assert parts == pre + [part];
      assert part in parts;
      assert forall p :: p in parts <==> p in pre || p == part;
      ParseDigests(pre, d);
    }
  }

  /**
   As long as its timestamp fields agree, the verdict on a header depends only on which
   parts it has: permuting or repeating them changes nothing.
   */
  lemma OrderDoesNotMatter(mac: Mac, header: string, other: string, body: seq<Byte>, secret: string, now: int, n: int)
    requires forall p :: p in Split(header) <==> p in Split(other)
    requires TimestampIs(Split(header), n)
    ensures StripeAccepts(mac, header, body, secret, now) <==> StripeAccepts(mac, other, body, secret, now)
  {
    var a, b := Split(header), Split(other);
    ParseTimestamp(a, n);
    ParseTimestamp(b, n);
    assert Parse(a).ts == Parse(b).ts;
    var d := StripeMac(mac, TrimSpace(secret), Parse(a).ts, body);
    ParseDigests(a, d);
    ParseDigests(b, d);
    VerdictByParse(mac, header, body, secret, now);
    VerdictByParse(mac, other, body, secret, now);
  }

  /** The test for an empty header is implied by the missing timestamp. */
  lemma VerdictByParse(mac: Mac, header: string, body: seq<Byte>, secret: string, now: int)
    ensures StripeAccepts(mac, header, body, secret, now)
       <==> TrimSpace(secret) != "" && Judge(Parse(Split(header)), mac, TrimSpace(secret), body, now)
  {
    if header == "" {
      assert Split(header) == [""] && [""][..0] == [];
      assert FieldOf("") == Ignored;
    }
  }

  function Insert(parts: seq<string>, i: nat, part: string): seq<string>
    requires i <= |parts|
  {
    parts[..i] + [part] + parts[i..]
  }

  lemma {:induction false} NoiseIsIgnored(parts: seq<string>, i: nat, noise: string)
    requires i <= |parts| && FieldOf(noise) == Ignored
    ensures Parse(Insert(parts, i, noise)) == Parse(parts)
    decreases |parts|
  {
    var longer := Insert(parts, i, noise);
    if i == |parts| {
      assert longer[..|longer| - 1] == parts;
    } else {
      var pre := parts[..|parts| - 1];
      NoiseIsIgnored(pre, i, noise);
      assert longer[..|longer| - 1] == Insert(pre, i, noise);
      assert Last(longer) == Last(parts);
    }
  }

  lemma InsertSplits(header: string, i: nat, noise: string)
    requires i <= |Split(header)| && CommaFree(noise)
    ensures Split(Join(Insert(Split(header), i, noise))) == Insert(Split(header), i, noise)
  {
    var parts := Split(header);
    var longer := Insert(parts, i, noise);
    JoinSplit(header);
    forall k | 0 <= k < |longer| ensures CommaFree(longer[k]) {
      if k < i { assert longer[k] == parts[k]; } else if k > i { assert longer[k] == parts[k - 1]; }
    }
    SplitJoin(longer);
  }

  /** A field no version of the scheme uses, or one that does not decode, can stand anywhere. */
  lemma NoiseDoesNotMatter(mac: Mac, header: string, i: nat, noise: string, body: seq<Byte>, secret: string, now: int)
    requires i <= |Split(header)| && FieldOf(noise) == Ignored && CommaFree(noise)
    ensures StripeAccepts(mac, Join(Insert(Split(header), i, noise)), body, secret, now)
       <==> StripeAccepts(mac, header, body, secret, now)
  {
    InsertSplits(header, i, noise);
    NoiseIsIgnored(Split(header), i, noise);
    VerdictByParse(mac, header, body, secret, now);
    VerdictByParse(mac, Join(Insert(Split(header), i, noise)), body, secret, now);
  }

  // ---------------------------------------------------------------- GitHub

  const SHA256_PREFIX := "sha256="

  method GitHubVerify(mac: Mac, header: string, body: seq<Byte>, secret: string) returns (ok: bool)
    ensures ok <==> secret != "" && header == "sha256=" + HexEncode(mac(secret, "", body))
  {
    ghost var written := "sha256=" + HexEncode(mac(secret, "", body));
    if header == "" || secret == "" || !(SHA256_PREFIX <= header) {
      assert SHA256_PREFIX <= written;
      return false;
    }
    var got := header[|SHA256_PREFIX|..];
    assert header == SHA256_PREFIX + got;
    assert written[|SHA256_PREFIX|..] == HexEncode(mac(secret, "", body));
    ok := got == HexEncode(mac(secret, "", body));
  }
}
