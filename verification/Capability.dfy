/**
 The capability wire format as three parts of the system recognise it: the token parser that splits
 at dots, the seat-capability check over all parts, and the byte scanner with fixed offsets. Text is
 the bytes it consists of; the digest is a parameter.
 */
module Capability {
  import opened Redaction
  import opened Process
  import opened Ordering
  import opened Spelling

  const DOT: Byte := 46
  // "wa_cap_v1"
  const TOKEN_PREFIX: Bytes := [119, 97, 95, 99, 97, 112, 95, 118, 49]
  const ID_BYTES: nat := 16
  const SECRET_BYTES: nat := 32
  const ID_DIGITS: nat := 32
  const SECRET_DIGITS: nat := 64
  const WIRE_BYTES: nat := 107

  predicate IsHexDigit(b: Byte) {
    48 <= b <= 57 || 97 <= b <= 102
  }

  predicate AllHex(s: Bytes) {
    forall i | 0 <= i < |s| :: IsHexDigit(s[i])
  }

  predicate IsLowerHex(s: Bytes, length: nat) {
    |s| == length && AllHex(s)
  }

  // ---------------------------------------------------------------- splitting at dots

  function FirstDot(s: Bytes): (n: nat)
    ensures n <= |s| && DOT !in s[..n]
    ensures n < |s| ==> s[n] == DOT
  {
    if s == [] || s[0] == DOT then 0
    else
      var n := FirstDot(s[1..]);
      assert s[..n + 1] == [s[0]] + s[1..][..n];
      n + 1
  }

  /** The parts between dots; one more than there are dots. */
  function SplitDots(s: Bytes): (parts: seq<Bytes>)
    ensures parts != []
    decreases |s|
  {
    var n := FirstDot(s);
    if n == |s| then [s] else [s[..n]] + SplitDots(s[n + 1..])
  }

  function JoinDots(parts: seq<Bytes>): Bytes
    requires parts != []
  {
    if |parts| == 1 then parts[0] else parts[0] + [DOT] + JoinDots(parts[1..])
  }

  lemma {:induction false} FirstDotAt(a: Bytes, rest: Bytes)
    requires DOT !in a
    ensures FirstDot(a + [DOT] + rest) == |a|
    ensures FirstDot(a) == |a|
  {
    assert (a + [DOT] + rest)[|a|] == DOT;
  }

  lemma {:induction false} SplitFirst(a: Bytes, rest: Bytes)
    requires DOT !in a
    ensures SplitDots(a) == [a] && SplitDots(a + [DOT] + rest) == [a] + SplitDots(rest)
  {
    FirstDotAt(a, rest);
    var s := a + [DOT] + rest;
    assert s[..|a|] == a && s[|a| + 1..] == rest;
  }

  /** Splitting and joining at dots are inverse: a text has exactly one split. */
  lemma {:induction false} SplitJoin(s: Bytes)
    ensures JoinDots(SplitDots(s)) == s
    ensures forall i | 0 <= i < |SplitDots(s)| :: DOT !in SplitDots(s)[i]
    decreases |s|
  {
    var n := FirstDot(s);
    if n == |s| {
      assert s[..n] == s;
    } else {
      var tail := SplitDots(s[n + 1..]);
      SplitJoin(s[n + 1..]);
      assert ([s[..n]] + tail)[1..] == tail;
      assert s == s[..n] + [DOT] + s[n + 1..];
    }
  }

  // ---------------------------------------------------------------- three recognisers

  /** The token parser: three parts, the prefix, a hex secret, and an identifier that it returns. */
  function Parse(value: Bytes): Option<Bytes> {
    var parts := SplitDots(value);
    var identifier := if |parts| > 1 then parts[1] else [];
    if parts[0] != TOKEN_PREFIX || |parts| > 3 || |parts| < 3 || !IsLowerHex(parts[2], SECRET_BYTES * 2) then None
    else if IsLowerHex(identifier, ID_BYTES * 2) then Some(identifier)
    else None
  }

  /** The check on a seat capability. */
  predicate ValidWire(raw: Bytes) {
    var parts := SplitDots(raw);
    && |parts| == 3
    && parts[0] == TOKEN_PREFIX
    && IsLowerHex(parts[1], 32)
    && IsLowerHex(parts[2], 64)
  }

  /** The scanner's check: fixed length, fixed offsets. */
  predicate IsCapability(c: Bytes) {
    && |c| == WIRE_BYTES
    && TOKEN_PREFIX + [DOT] <= c
    && c[42] == DOT
    && AllHex(c[10..42]) && AllHex(c[43..])
  }

  function Wire(id: Bytes, secret: Bytes): Bytes {
    TOKEN_PREFIX + [DOT] + (id + [DOT] + secret)
  }

  lemma {:induction false} HexHasNoDot(s: Bytes)
    requires AllHex(s)
    ensures DOT !in s
  {
  }

  lemma {:induction false} PrefixHasNoDot()
    ensures DOT !in TOKEN_PREFIX && |TOKEN_PREFIX| == 9
  {
  }

  /** A token in the canonical form splits into its parts. */
  lemma {:induction false} SplitWire(id: Bytes, secret: Bytes)
    requires AllHex(id) && AllHex(secret)
    ensures SplitDots(Wire(id, secret)) == [TOKEN_PREFIX, id, secret]
  {
    PrefixHasNoDot();
    HexHasNoDot(id);
    HexHasNoDot(secret);
    hide FirstDot, SplitDots, AllHex;
    SplitFirst(TOKEN_PREFIX, id + [DOT] + secret);
    SplitFirst(id, secret);
    SplitFirst(secret, []);
  }

  /** Three parts, joined again, are a token in the canonical form. */
  lemma {:induction false} JoinThree(parts: seq<Bytes>)
    requires |parts| == 3
    ensures JoinDots(parts) == parts[0] + [DOT] + (parts[1] + [DOT] + parts[2])
  {
    assert parts[1..][1..] == [parts[2]] && parts[1..][0] == parts[1];
    assert JoinDots([parts[2]]) == parts[2];
    assert JoinDots(parts[1..]) == parts[1] + [DOT] + parts[2];
  }

  /** The canonical tokens. */
  ghost predicate Canonical(v: Bytes) {
    exists id, secret :: IsLowerHex(id, ID_DIGITS) && IsLowerHex(secret, SECRET_DIGITS) && v == Wire(id, secret)
  }

  lemma {:induction false} ValidWireIsCanonical(v: Bytes)
    ensures ValidWire(v) <==> Canonical(v)
    ensures Canonical(v) ==> Parse(v) == Some(SplitDots(v)[1])
  {
    if ValidWire(v) {
      var parts := SplitDots(v);
      SplitJoin(v);
      JoinThree(parts);
      assert v == Wire(parts[1], parts[2]);
    }
    if Canonical(v) {
      var id, secret :| IsLowerHex(id, ID_DIGITS) && IsLowerHex(secret, SECRET_DIGITS) && v == Wire(id, secret);
      SplitWire(id, secret);
    }
  }

  lemma {:induction false} ScannerIsCanonical(v: Bytes)
    ensures IsCapability(v) <==> Canonical(v)
  {
    PrefixHasNoDot();
    if IsCapability(v) {
      var id, secret := v[10..42], v[43..];
      assert v[..10] == TOKEN_PREFIX + [DOT];
      assert v == v[..10] + (id + [DOT] + secret);
      assert IsLowerHex(id, ID_DIGITS) && IsLowerHex(secret, SECRET_DIGITS) && v == Wire(id, secret);
    }
    if Canonical(v) {
      var id, secret :| IsLowerHex(id, ID_DIGITS) && IsLowerHex(secret, SECRET_DIGITS) && v == Wire(id, secret);
      assert v[10..42] == id && v[43..] == secret && v[42] == DOT;
      assert v[..10] == TOKEN_PREFIX + [DOT];
    }
  }

  /** The three recognisers accept exactly the same texts. */
  lemma {:induction false} RecognisersAgree(v: Bytes)
    ensures Parse(v).Some? <==> ValidWire(v)
    ensures ValidWire(v) <==> IsCapability(v)
  {
    hide Canonical, IsCapability;
    ValidWireIsCanonical(v);
    ScannerIsCanonical(v);
  }

  /** One of the sixteen digits. */
  predicate HexChar(b: Byte) {
    exists i :: 0 <= i < 16 && b == Ascii("0123456789abcdef")[i]
  }

  /** The wire format, written out: "wa_cap_v1.", 32 digits, a dot, 64 digits, and nothing else. */
  predicate WireFormat(v: Bytes) {
    && |v| == 107 && v[..10] == Ascii("wa_cap_v1.") && v[42] == 46
    && (forall i | 10 <= i < 42 :: HexChar(v[i])) && (forall i | 43 <= i < 107 :: HexChar(v[i]))
  }

  lemma {:induction false} HexCharIff(b: Byte)
    ensures HexChar(b) <==> IsHexDigit(b)
  {
    var digits := Ascii("0123456789abcdef");
    if IsHexDigit(b) {
      var i := if b <= 57 then b as int - 48 else b as int - 87;
      assert 0 <= i < 16 && b == digits[i];
    }
  }

  lemma {:induction false} PrefixText()
    ensures TOKEN_PREFIX + [DOT] == Ascii("wa_cap_v1.")
  {
  }

  /** All three recognisers accept exactly the wire format. */
  lemma {:induction false} RecognisedIff(v: Bytes)
    ensures WireFormat(v) <==> IsCapability(v)
    ensures WireFormat(v) <==> ValidWire(v)
    ensures WireFormat(v) <==> Parse(v).Some?
  {
    RecognisersAgree(v);
    PrefixText();
    hide ValidWire, Parse, HexChar;
    if |v| == 107 {
      assert TOKEN_PREFIX + [DOT] <= v <==> v[..10] == TOKEN_PREFIX + [DOT];
      forall i | 0 <= i < 107 ensures HexChar(v[i]) <==> IsHexDigit(v[i]) {
        HexCharIff(v[i]);
      }
      hide IsHexDigit;
      assert AllHex(v[10..42]) <==> forall i | 10 <= i < 42 :: HexChar(v[i]) by {
        HexStretch(v, 10, 42);
      }
      assert AllHex(v[43..]) <==> forall i | 43 <= i < 107 :: HexChar(v[i]) by {
        HexStretch(v, 43, 107);
        assert v[43..107] == v[43..];
      }
    }
  }

  lemma {:induction false} HexStretch(v: Bytes, lo: nat, hi: nat)
    requires lo <= hi <= |v|
    ensures AllHex(v[lo..hi]) <==> forall i | lo <= i < hi :: HexChar(v[i])
  {
    forall i | lo <= i < hi ensures HexChar(v[i]) <==> IsHexDigit(v[i]) {
      HexCharIff(v[i]);
    }
    hide HexChar, IsHexDigit;
    var w := v[lo..hi];
    if AllHex(w) {
      forall i | lo <= i < hi ensures HexChar(v[i]) {
        assert IsHexDigit(w[i - lo]);
      }
    }
  }

  // ---------------------------------------------------------------- issued tokens

  function HexDigit(n: nat): Byte
    requires n < 16
  {
    if n < 10 then (48 + n) as Byte else (87 + n) as Byte
  }

  function High(b: Byte): Byte {
    HexDigit(b as nat / 16)
  }

  function Low(b: Byte): Byte {
    HexDigit(b as nat % 16)
  }

  function Hex(bytes: Bytes): (s: Bytes)
    ensures |s| == 2 * |bytes|
  {
    if bytes == [] then []
    else Hex(bytes[..|bytes| - 1]) + [High(bytes[|bytes| - 1]), Low(bytes[|bytes| - 1])]
  }

  method EncodeHex(bytes: Bytes) returns (s: Bytes)
    ensures s == Hex(bytes)
  {
    s := [];
    for i := 0 to |bytes|
      invariant s == Hex(bytes[..i])
    {
      assert bytes[..i + 1][..i] == bytes[..i];
      s := s + [High(bytes[i])];
      s := s + [Low(bytes[i])];
    }
    assert bytes[..|bytes|] == bytes;
  }

  /** The bytes a hex text stands for. */
  function Value(d: Byte): nat
    requires IsHexDigit(d)
  {
    if d <= 57 then d as nat - 48 else d as nat - 87
  }

  function Unhex(s: Bytes): Bytes
    requires AllHex(s) && |s| % 2 == 0
  {
    if s == [] then []
    else
      var n := |s| - 2;
      Unhex(s[..n]) + [(16 * Value(s[n]) + Value(s[n + 1])) as Byte]
  }

  lemma {:induction false} HexPair(b: Byte)
    ensures IsHexDigit(High(b)) && IsHexDigit(Low(b))
    ensures 16 * Value(High(b)) + Value(Low(b)) == b as nat
  {
  }

  lemma {:induction false} UnhexMore(s: Bytes, c: Byte, d: Byte)
    requires AllHex(s) && |s| % 2 == 0 && IsHexDigit(c) && IsHexDigit(d)
    ensures AllHex(s + [c, d]) && Unhex(s + [c, d]) == Unhex(s) + [(16 * Value(c) + Value(d)) as Byte]
  {
    var t := s + [c, d];
    assert t[..|t| - 2] == s && t[|t| - 2] == c && t[|t| - 1] == d;
  }

  /** Encoding loses nothing: all digits are lower-case hex, and they stand for the bytes. */
  lemma {:induction false} HexRoundTrip(bytes: Bytes)
    ensures AllHex(Hex(bytes)) && Unhex(Hex(bytes)) == bytes
    decreases |bytes|
  {
    if bytes != [] {
      hide *;
      var n := |bytes| - 1;
      HexRoundTrip(bytes[..n]);
      HexStep(bytes[..n], bytes[n]);
      assert bytes == bytes[..n] + [bytes[n]];
    }
  }

  lemma {:induction false} HexStep(front: Bytes, b: Byte)
    requires AllHex(Hex(front)) && Unhex(Hex(front)) == front
    ensures AllHex(Hex(front + [b])) && Unhex(Hex(front + [b])) == front + [b]
  {
    hide Value, High, Low, IsHexDigit, Unhex;
    HexPair(b);
    UnhexMore(Hex(front), High(b), Low(b));
    assert (front + [b])[..|front|] == front;
  }

  /** Every byte is written as its two digits, the high one first. */
  lemma {:induction false} HexIsWritten(bytes: Bytes, i: nat)
    requires i < |bytes|
    ensures Hex(bytes)[2 * i] == Ascii("0123456789abcdef")[bytes[i] as int / 16]
    ensures Hex(bytes)[2 * i + 1] == Ascii("0123456789abcdef")[bytes[i] as int % 16]
    decreases |bytes|
  {
    if i < |bytes| - 1 {
      HexIsWritten(bytes[..|bytes| - 1], i);
    } else {
      DigitIsWritten(bytes[i] as int / 16);
      DigitIsWritten(bytes[i] as int % 16);
    }
    hide HexDigit;
  }

  lemma {:induction false} DigitIsWritten(n: nat)
    requires n < 16
    ensures HexDigit(n) == Ascii("0123456789abcdef")[n]
  {
  }

  function FromMaterial(id: Bytes, secret: Bytes): Bytes {
    Wire(Hex(id), Hex(secret))
  }

  /** Every issued token is accepted by all three, and parses back to its identifier. */
  lemma {:induction false} IssuedIsAccepted(id: Bytes, secret: Bytes)
    requires |id| == ID_BYTES && |secret| == SECRET_BYTES
    ensures var token := FromMaterial(id, secret);
            && Parse(token) == Some(Hex(id)) && Unhex(Hex(id)) == id
            && ValidWire(token) && IsCapability(token)
  {
    HexRoundTrip(id);
    HexRoundTrip(secret);
    var token := FromMaterial(id, secret);
    SplitWire(Hex(id), Hex(secret));
    assert Canonical(token);
    ValidWireIsCanonical(token);
    ScannerIsCanonical(token);
  }

  /** Tokens of different material are different. */
  lemma {:induction false} MaterialIdentifies(id: Bytes, secret: Bytes, id': Bytes, secret': Bytes)
    requires FromMaterial(id, secret) == FromMaterial(id', secret')
    ensures id == id' && secret == secret'
  {
    HexRoundTrip(id);
    HexRoundTrip(secret);
    HexRoundTrip(id');
    HexRoundTrip(secret');
    SplitWire(Hex(id), Hex(secret));
    SplitWire(Hex(id'), Hex(secret'));
    hide Hex, Unhex, SplitDots;
    var parts := SplitDots(FromMaterial(id, secret));
    assert parts[1] == Hex(id) == Hex(id') && parts[2] == Hex(secret) == Hex(secret');
  }

  // ---------------------------------------------------------------- the scanner

  datatype Authority = HumanSpectator | Administrator

  datatype Fingerprint<!D> = Fingerprint(authority: Authority, digest: D)

  datatype PolicyError = DuplicateFingerprint

  /** Builds the registry; refuses two fingerprints with one digest. */
  method NewPolicy<D(==)>(fingerprints: seq<Fingerprint<D>>) returns (r: Result<map<D, Authority>, PolicyError>)
    ensures r.Ok? <==> UniqueBy(fingerprints, (f: Fingerprint<D>) => f.digest)
    ensures r.Ok? ==> forall d :: d in r.value <==> exists i :: 0 <= i < |fingerprints| && fingerprints[i].digest == d
    ensures r.Ok? ==> forall i | 0 <= i < |fingerprints| :: r.value[fingerprints[i].digest] == fingerprints[i].authority
  {
    var values: map<D, Authority> := map[];
    for i := 0 to |fingerprints|
      invariant forall k, l | 0 <= k < l < i :: fingerprints[k].digest != fingerprints[l].digest
      invariant forall d :: d in values <==> exists k :: 0 <= k < i && fingerprints[k].digest == d
      invariant forall k | 0 <= k < i :: values[fingerprints[k].digest] == fingerprints[k].authority
    {
      if fingerprints[i].digest in values {
        return Err(DuplicateFingerprint);
      }
      values := values[fingerprints[i].digest := fingerprints[i].authority];
    }
    return Ok(values);
  }

  /** The window at `i`, if it is a registered token. */
  function Hit<D>(bytes: Bytes, i: nat, registry: map<D, Authority>, digest: Bytes -> D): Option<Authority>
    requires i + WIRE_BYTES <= |bytes|
  {
    var window := bytes[i..i + WIRE_BYTES];
    if IsCapability(window) && digest(window) in registry then Some(registry[digest(window)]) else None
  }

  /** The first registered token in a byte string, from window `i` on. */
  function FindFrom<D>(bytes: Bytes, i: nat, registry: map<D, Authority>, digest: Bytes -> D): (r: Option<Authority>)
    decreases |bytes| - i
  {
    if i + WIRE_BYTES > |bytes| then None
    else
      var hit := Hit(bytes, i, registry, digest);
      if hit.Some? then hit else FindFrom(bytes, i + 1, registry, digest)
  }

  /** A match is reported exactly when some window hits, and it is the first hit. */
  lemma {:induction false} FindIsFirstHit<D>(bytes: Bytes, i: nat, registry: map<D, Authority>, digest: Bytes -> D)
    ensures FindFrom(bytes, i, registry, digest).None? <==>
      forall k | i <= k <= |bytes| - WIRE_BYTES :: Hit(bytes, k, registry, digest).None?
    ensures FindFrom(bytes, i, registry, digest).Some? ==>
      exists k ::
        && i <= k <= |bytes| - WIRE_BYTES && Hit(bytes, k, registry, digest) == FindFrom(bytes, i, registry, digest)
        && forall l | i <= l < k :: Hit(bytes, l, registry, digest).None?
    decreases |bytes| - i
  {
    if i + WIRE_BYTES <= |bytes| && Hit(bytes, i, registry, digest).None? {
      FindIsFirstHit(bytes, i + 1, registry, digest);
      if FindFrom(bytes, i + 1, registry, digest).Some? {
        var k :| i + 1 <= k <= |bytes| - WIRE_BYTES
                 && Hit(bytes, k, registry, digest) == FindFrom(bytes, i + 1, registry, digest)
          && forall l | i + 1 <= l < k :: Hit(bytes, l, registry, digest).None?;
        assert forall l | i <= l < k :: Hit(bytes, l, registry, digest).None?;
      }
    }
  }

  /** A registered issued token is found wherever it is embedded. */
  lemma {:induction false} EmbeddedTokenFound<D>(before: Bytes, id: Bytes, secret: Bytes, after: Bytes,
                                                 registry: map<D, Authority>, digest: Bytes -> D)
    requires |id| == ID_BYTES && |secret| == SECRET_BYTES && digest(FromMaterial(id, secret)) in registry
    ensures FindFrom(before + FromMaterial(id, secret) + after, 0, registry, digest).Some?
  {
    var token := FromMaterial(id, secret);
    var bytes := before + token + after;
    IssuedIsAccepted(id, secret);
    assert bytes[|before|..|before| + WIRE_BYTES] == token;
    hide IsCapability, FromMaterial;
    assert Hit(bytes, |before|, registry, digest).Some?;
    FindIsFirstHit(bytes, 0, registry, digest);
  }

  /** A window holds a token in the wire format that is registered for this authority. */
  predicate Registered<D>(bytes: Bytes, k: nat, registry: map<D, Authority>, digest: Bytes -> D, a: Authority) {
    && k + 107 <= |bytes| && WireFormat(bytes[k..k + 107])
    && digest(bytes[k..k + 107]) in registry && registry[digest(bytes[k..k + 107])] == a
  }

  /** A scan reports the authority of the first registered token, and none when there is none. */
  lemma {:induction false} FindReports<D>(bytes: Bytes, registry: map<D, Authority>, digest: Bytes -> D)
    ensures FindFrom(bytes, 0, registry, digest).None? <==>
      forall k: nat, a :: !Registered(bytes, k, registry, digest, a)
    ensures forall a | FindFrom(bytes, 0, registry, digest) == Some(a) ::
      exists k: nat ::
        && Registered(bytes, k, registry, digest, a)
        && forall l: nat, b | l < k :: !Registered(bytes, l, registry, digest, b)
  {
    forall k: nat, a ensures Registered(bytes, k, registry, digest, a) <==>
        k + WIRE_BYTES <= |bytes| && Hit(bytes, k, registry, digest) == Some(a)
    {
      if k + WIRE_BYTES <= |bytes| {
        RecognisedIff(bytes[k..k + 107]);
      }
    }
    hide Registered, IsCapability, WireFormat;
    FindIsFirstHit(bytes, 0, registry, digest);
    var found := FindFrom(bytes, 0, registry, digest);
    if found.Some? {
      var k :| 0 <= k <= |bytes| - WIRE_BYTES && Hit(bytes, k, registry, digest) == found
               && forall l | 0 <= l < k :: Hit(bytes, l, registry, digest).None?;
      assert Registered(bytes, k, registry, digest, found.value);
      forall l: nat, b | l < k ensures !Registered(bytes, l, registry, digest, b) {
        assert Hit(bytes, l, registry, digest).None?;
      }
    } else {
      forall k: nat, a ensures !Registered(bytes, k, registry, digest, a) {
        if k + WIRE_BYTES <= |bytes| {
          assert Hit(bytes, k, registry, digest).None?;
        }
      }
    }
  }
}
