/**
 The byte passes of the telemetry sanitizer: known secrets are replaced, then the token behind each
 of a list of prefixes is replaced in place. The marker and the prefixes are parameters of the
 passes; `FourPrefixesQualify` is the instance the sanitizer uses.
 */
module TelemetryText {
  import opened Redaction

  predicate IsDelimiter(b: Byte) {
    b in {32, 9, 13, 10, 34, 39, 44, 59, 41, 93, 125}
  }

  /** Number of bytes before the first delimiter. */
  function TokenLength(b: Bytes): (n: nat)
    ensures n <= |b|
    ensures n < |b| ==> IsDelimiter(b[n])
  {
    if b == [] || IsDelimiter(b[0]) then 0 else 1 + TokenLength(b[1..])
  }

  /** The meaning of one prefix pass: every token behind the prefix becomes the marker. */
  function RedactTokens(v: Bytes, p: Bytes, m: Bytes): Bytes
    requires p != []
    decreases |v|
  {
    if v == [] then []
    else if !(p <= v) then [v[0]] + RedactTokens(v[1..], p, m)
    else
      var n := TokenLength(v[|p|..]);
      p + (if n > 0 then m else []) + RedactTokens(v[|p| + n..], p, m)
  }

  /** What may follow a prefix: nothing, a delimiter, or the marker. */
  predicate Closed(z: Bytes, m: Bytes) {
    z == [] || IsDelimiter(z[0]) || m <= z
  }

  /** Every occurrence of the prefix is closed. */
  predicate Masked(v: Bytes, p: Bytes, m: Bytes) {
    forall i | 0 <= i < |v| && p <= v[i..] :: Closed(v[i + |p|..], m)
  }

  /** A prefix that overlaps neither itself nor the marker. */
  predicate GoodPrefix(p: Bytes, m: Bytes) {
    MarkerFree(p, m) && Apart(p[1..], p)
  }

  // ---------------------------------------------------------------- the in-place loop

  method RedactPrefixedTokens(value: Bytes, prefix: Bytes, marker: Bytes) returns (r: Bytes)
    requires prefix != []
    ensures r == RedactTokens(value, prefix, marker)
  {
    r := value;
    var offset := 0;
    ghost var done, rest := [], value;
    while offset + |prefix| <= |r|
      invariant r == done + rest && offset == |done|
      invariant RedactTokens(value, prefix, marker) == done + RedactTokens(rest, prefix, marker)
      decreases |r| - offset
    {
      assert r[offset..] == rest;
      if !(prefix <= r[offset..]) {
        CopyByte(done, rest, prefix, marker);
        offset := offset + 1;
        done, rest := done + [rest[0]], rest[1..];
      } else {
        var tokenStart := offset + |prefix|;
        assert r[tokenStart..] == rest[|prefix|..];
        var end := TokenEnd(r, tokenStart);
        ghost var n := end - tokenStart;
        MaskToken(done, rest, prefix, marker, n);
        if end > tokenStart {
          r := r[..tokenStart] + marker + r[end..];
          offset := tokenStart + |marker|;
        } else {
          offset := tokenStart;
        }
        done, rest := done + (prefix + if n > 0 then marker else []), rest[|prefix| + n..];
      }
    }
    ShortTokensKept(rest, prefix, marker);
  }

  method TokenEnd(value: Bytes, start: nat) returns (end: nat)
    requires start <= |value|
    ensures end == start + TokenLength(value[start..])
  {
    end := start;
    while end < |value| && !IsDelimiter(value[end])
      invariant start <= end <= |value|
      invariant start + TokenLength(value[start..]) == end + TokenLength(value[end..])
    {
      assert value[end..][1..] == value[end + 1..];
      end := end + 1;
    }
  }

  lemma {:induction false} CopyByte(done: Bytes, rest: Bytes, p: Bytes, m: Bytes)
    requires p != [] && rest != [] && !(p <= rest)
    ensures done + RedactTokens(rest, p, m) == (done + [rest[0]]) + RedactTokens(rest[1..], p, m)
    ensures done + rest == (done + [rest[0]]) + rest[1..]
  {
    BytePart(rest, p, m);
    hide RedactTokens, Parts;
    var r := RedactTokens(rest[1..], p, m);
    assert [rest[0]] + [] == [rest[0]];
    Assoc(done, [rest[0]], r);
    Assoc(done, [rest[0]], rest[1..]);
  }

  lemma {:induction false} MaskToken(done: Bytes, rest: Bytes, p: Bytes, m: Bytes, n: nat)
    requires p != [] && p <= rest && n == TokenLength(rest[|p|..])
    ensures var out := p + if n > 0 then m else [];
            && done + RedactTokens(rest, p, m) == (done + out) + RedactTokens(rest[|p| + n..], p, m)
            && (n > 0 ==>
                  (done + rest)[..|done| + |p|] + m + (done + rest)[|done| + |p| + n..]
                  == (done + out) + rest[|p| + n..])
            && (n == 0 ==> done + rest == (done + out) + rest[|p| + n..])
  {
    var out := p + if n > 0 then m else [];
    Assoc(done, out, RedactTokens(rest[|p| + n..], p, m));
    assert (done + rest)[|done| + |p| + n..] == rest[|p| + n..];
    assert (done + rest)[..|done| + |p|] == done + p;
    Assoc(done, p, m);
  }

  lemma {:induction false} ShortTokensKept(v: Bytes, p: Bytes, m: Bytes)
    requires |v| < |p|
    ensures RedactTokens(v, p, m) == v
  {
    if v != [] {
      ShortTokensKept(v[1..], p, m);
    }
  }

  // ---------------------------------------------------------------- one pass

  /** A stretch of text that a pass keeps, and the token behind it that it replaces, if any. */
  datatype Part = Part(kept: Bytes, token: Bytes)

  /** How a pass reads a text: byte by byte, and whole tokens behind the prefix. */
  function Parts(v: Bytes, p: Bytes): seq<Part>
    requires p != []
    decreases |v|
  {
    if v == [] then []
    else if !(p <= v) then [Part([v[0]], [])] + Parts(v[1..], p)
    else
      var n := TokenLength(v[|p|..]);
      [Part(p, v[|p|..|p| + n])] + Parts(v[|p| + n..], p)
  }

  function Unmasked(parts: seq<Part>): Bytes {
    if parts == [] then [] else parts[0].kept + parts[0].token + Unmasked(parts[1..])
  }

  function WithMarkers(parts: seq<Part>, m: Bytes): Bytes {
    if parts == [] then []
    else parts[0].kept + (if parts[0].token == [] then [] else m) + WithMarkers(parts[1..], m)
  }

  /** A replaced token stands right behind the prefix, holds no delimiter, and ends at one or at the end. */
  predicate WholeToken(part: Part, rest: Bytes, p: Bytes) {
    part.token != [] ==>
      && part.kept == p
      && (forall i | 0 <= i < |part.token| :: !IsDelimiter(part.token[i]))
      && (rest == [] || IsDelimiter(rest[0]))
  }

  predicate OnlyTokens(parts: seq<Part>, p: Bytes) {
    parts != [] ==> WholeToken(parts[0], Unmasked(parts[1..]), p) && OnlyTokens(parts[1..], p)
  }

  /** `out` is `v` with nothing but whole tokens right behind the prefix replaced. */
  predicate MaskedParts(parts: seq<Part>, v: Bytes, out: Bytes, p: Bytes, m: Bytes) {
    Unmasked(parts) == v && WithMarkers(parts, m) == out && OnlyTokens(parts, p)
  }

  /** A pass changes nothing but whole tokens right behind the prefix. */
  lemma {:induction false} OnlyTokensChange(v: Bytes, p: Bytes, m: Bytes)
    requires p != []
    ensures MaskedParts(Parts(v, p), v, RedactTokens(v, p, m), p, m)
    decreases |v|
  {
    hide *;
    if v == [] {
      NoParts(p, m);
    } else if !(p <= v) {
      OnlyTokensChange(v[1..], p, m);
      SilentPart(v[0], v[1..], p);
      FirstPart(Part([v[0]], []), Parts(v[1..], p), v[1..], RedactTokens(v[1..], p, m), p, m);
      BytePart(v, p, m);
    } else {
      var n := TokenLength(v[|p|..]);
      var part, rest := Part(p, v[|p|..|p| + n]), v[|p| + n..];
      OnlyTokensChange(rest, p, m);
      TokenPart(v, p, n, m);
      FirstPart(part, Parts(rest, p), rest, RedactTokens(rest, p, m), p, m);
    }
  }

  lemma {:induction false} NoParts(p: Bytes, m: Bytes)
    requires p != []
    ensures MaskedParts(Parts([], p), [], RedactTokens([], p, m), p, m)
  {
  }

  lemma {:induction false} BytePart(v: Bytes, p: Bytes, m: Bytes)
    requires p != [] && v != [] && !(p <= v)
    ensures Parts(v, p) == [Part([v[0]], [])] + Parts(v[1..], p) && [v[0]] + [] + v[1..] == v
    ensures RedactTokens(v, p, m) == [v[0]] + [] + RedactTokens(v[1..], p, m)
  {
    assert [v[0]] + [] == [v[0]];
  }

  lemma {:induction false} SilentPart(c: Byte, rest: Bytes, p: Bytes)
    ensures WholeToken(Part([c], []), rest, p)
  {
  }

  lemma {:induction false} TokenPart(v: Bytes, p: Bytes, n: nat, m: Bytes)
    requires p != [] && p <= v && n == TokenLength(v[|p|..])
    ensures var part, rest := Part(p, v[|p|..|p| + n]), v[|p| + n..];
            && WholeToken(part, rest, p) && Parts(v, p) == [part] + Parts(rest, p) && p + part.token + rest == v
            && RedactTokens(v, p, m) == p + (if part.token == [] then [] else m) + RedactTokens(rest, p, m)
  {
    PartsAtToken(v, p, n);
    PassAtToken(v, p, n, m);
    hide *;
    WholeTokenCut(v[|p|..], p, n);
    TokenCut(v, p, n);
  }

  lemma {:induction false} PartsAtToken(v: Bytes, p: Bytes, n: nat)
    requires p != [] && p <= v && n == TokenLength(v[|p|..])
    ensures Parts(v, p) == [Part(p, v[|p|..|p| + n])] + Parts(v[|p| + n..], p)
  {
  }

  lemma {:induction false} PassAtToken(v: Bytes, p: Bytes, n: nat, m: Bytes)
    requires p != [] && p <= v && n == TokenLength(v[|p|..])
    ensures RedactTokens(v, p, m) == p + (if n > 0 then m else []) + RedactTokens(v[|p| + n..], p, m)
  {
    hide TokenLength;
  }

  lemma {:induction false} TokenCut(v: Bytes, p: Bytes, n: nat)
    requires p <= v && |p| + n <= |v|
    ensures v[|p|..|p| + n] == v[|p|..][..n] && v[|p| + n..] == v[|p|..][n..]
    ensures p + v[|p|..|p| + n] + v[|p| + n..] == v
    ensures v[|p|..|p| + n] == [] <==> n == 0
  {
  }

  lemma {:induction false} WholeTokenCut(tail: Bytes, p: Bytes, n: nat)
    requires n == TokenLength(tail)
    ensures WholeToken(Part(p, tail[..n]), tail[n..], p)
  {
    TokenPlain(tail, n);
  }

  lemma {:induction false} FirstPart(part: Part, parts: seq<Part>, v: Bytes, out: Bytes, p: Bytes, m: Bytes)
    requires MaskedParts(parts, v, out, p, m) && WholeToken(part, v, p)
    ensures MaskedParts([part] + parts, part.kept + part.token + v,
                        part.kept + (if part.token == [] then [] else m) + out, p, m)
  {
    assert ([part] + parts)[1..] == parts;
  }

  lemma {:induction false} TokenPlain(b: Bytes, n: nat)
    requires n == TokenLength(b)
    ensures forall i | 0 <= i < n :: !IsDelimiter(b[i])
  {
    if n > 0 {
      TokenPlain(b[1..], n - 1);
      assert forall i | 1 <= i < n :: b[i] == b[1..][i - 1];
    }
  }

  /** The split a pass makes when the prefix stands in front of a token. */
  lemma {:induction false} PassToken(v: Bytes, p: Bytes, m: Bytes, n: nat)
    requires p != [] && p <= v && 0 < n == TokenLength(v[|p|..])
    ensures RedactTokens(v, p, m) == p + (m + RedactTokens(v[|p| + n..], p, m))
  {
    Assoc(p, m, RedactTokens(v[|p| + n..], p, m));
  }

  lemma {:induction false} PassNoToken(v: Bytes, p: Bytes, m: Bytes)
    requires p != [] && p <= v && TokenLength(v[|p|..]) == 0
    ensures RedactTokens(v, p, m) == p + RedactTokens(v[|p|..], p, m)
  {
    assert p + [] == p;
  }

  lemma {:induction false} FirstByteKept(v: Bytes, p: Bytes, m: Bytes)
    requires p != []
    ensures v == [] <==> RedactTokens(v, p, m) == []
    ensures v != [] ==> RedactTokens(v, p, m)[0] == v[0]
  {
    if v != [] && p <= v {
      var n := TokenLength(v[|p|..]);
      if n > 0 {
        PassToken(v, p, m, n);
      } else {
        PassNoToken(v, p, m);
      }
    }
  }

  /** A marker-avoiding text at the front after a pass was at the front before it. */
  lemma {:induction false} FrontBeforeTokens(t: Bytes, w: Bytes, p: Bytes, m: Bytes)
    requires p != [] && Apart(t, m) && t <= RedactTokens(w, p, m)
    ensures t <= w
    decreases |w|
  {
    hide *;
    if w == [] {
      NothingPassed(p, m);
    } else if p <= w && TokenLength(w[|p|..]) > 0 {
      var n := TokenLength(w[|p|..]);
      PassToken(w, p, m, n);
      FrontWithinKept(t, p, m + RedactTokens(w[|p| + n..], p, m), m);
    } else {
      var a := if p <= w then p else [w[0]];
      KeptStep(w, p, m, a);
      var r := RedactTokens(w[|a|..], p, m);
      if |t| > |a| {
        TailOfPrefix(t, a, r);
        ApartTail(t, m, |a|);
        FrontBeforeTokens(t[|a|..], w[|a|..], p, m);
      }
      FrontOnto(t, a, r, w);
    }
  }

  lemma {:induction false} NothingPassed(p: Bytes, m: Bytes)
    requires p != []
    ensures RedactTokens([], p, m) == []
  {
  }

  /** Where no token is replaced the pass keeps what it steps over. */
  lemma {:induction false} KeptStep(w: Bytes, p: Bytes, m: Bytes, a: Bytes)
    requires p != [] && w != [] && a == if p <= w then p else [w[0]]
    requires p <= w ==> TokenLength(w[|p|..]) == 0
    ensures a != [] && a <= w && RedactTokens(w, p, m) == a + RedactTokens(w[|a|..], p, m)
  {
    if p <= w {
      PassNoToken(w, p, m);
    }
  }

  lemma {:induction false} FrontOnto(t: Bytes, a: Bytes, r: Bytes, w: Bytes)
    requires t <= a + r && a <= w && (|t| > |a| ==> t[|a|..] <= w[|a|..])
    ensures t <= w
  {
    if |t| > |a| {
      assert t == a + t[|a|..] && w == a + w[|a|..];
    }
  }

  lemma {:induction false} FrontWithinKept(t: Bytes, p: Bytes, r: Bytes, m: Bytes)
    requires Apart(t, m) && m <= r && t <= p + r
    ensures t <= p
  {
    assert |t| > |p| ==> !Compatible(t[|p|..], m);
    if |t| > |p| {
      TailOfPrefix(t, p, r);
    }
  }

  lemma {:induction false} TailOfPrefix(t: Bytes, p: Bytes, r: Bytes)
    requires |t| >= |p| && t <= p + r
    ensures t[|p|..] <= r
  {
    assert (p + r)[|p|..] == r;
  }

  lemma {:induction false} ApartTail(t: Bytes, m: Bytes, n: nat)
    requires Apart(t, m) && n <= |t|
    ensures Apart(t[n..], m)
  {
    forall k | 0 <= k < |t[n..]| ensures !Compatible(t[n..][k..], m) {
      assert t[n..][k..] == t[n + k..];
    }
  }

  /** Text in which no prefix starts is copied by a pass. */
  lemma {:induction false} CopiedByPass(u: Bytes, z: Bytes, p: Bytes, m: Bytes)
    requires p != [] && Apart(u, p)
    ensures RedactTokens(u + z, p, m) == u + RedactTokens(z, p, m)
    decreases |u|
  {
    if u == [] {
      assert u + z == z;
    } else {
      assert !(p <= u + z) by { assert u[0..] == u; assert !Compatible(u[0..], p); }
      ApartTail(u, p, 1);
      CopiedByPass(u[1..], z, p, m);
      assert (u + z)[1..] == u[1..] + z;
      Assoc([u[0]], u[1..], RedactTokens(z, p, m));
      assert [u[0]] + u[1..] == u;
    }
  }

  lemma {:induction false} MaskedBehind(u: Bytes, r: Bytes, p: Bytes, m: Bytes)
    requires Apart(u, p) && Masked(r, p, m)
    ensures Masked(u + r, p, m)
  {
    var w := u + r;
    forall i | 0 <= i < |u| ensures !(p <= w[i..]) {
      assert w[i..] == u[i..] + r;
      assert !Compatible(u[i..], p);
    }
    forall i | |u| <= i < |w| && p <= w[i..] ensures Closed(w[i + |p|..], m) {
      assert w[i..] == r[i - |u|..];
      assert w[i + |p|..] == r[i - |u| + |p|..];
    }
  }

  lemma {:induction false} MaskedCons(c: Byte, r: Bytes, p: Bytes, m: Bytes)
    requires p != [] && Masked(r, p, m)
    requires p <= [c] + r ==> Closed(([c] + r)[|p|..], m)
    ensures Masked([c] + r, p, m)
  {
    var w := [c] + r;
    forall i | 0 <= i < |w| && p <= w[i..] ensures Closed(w[i + |p|..], m) {
      if i == 0 {
        assert w[0..] == w;
      } else {
        assert w[i..] == r[i - 1..];
        assert w[i + |p|..] == r[i - 1 + |p|..];
      }
    }
  }

  lemma {:induction false} MaskedFront(z: Bytes, p: Bytes, m: Bytes)
    requires GoodPrefix(p, m) && Masked(z, p, m) && Closed(z, m)
    ensures Masked(p + z, p, m)
  {
    MaskedBehind(p[1..], z, p, m);
    assert p + z == [p[0]] + (p[1..] + z);
    assert (p + z)[|p|..] == z;
    MaskedCons(p[0], p[1..] + z, p, m);
  }

  /** After its own pass every occurrence of a prefix is closed. */
  lemma {:induction false} PassMasks(v: Bytes, p: Bytes, m: Bytes)
    requires GoodPrefix(p, m)
    ensures Masked(RedactTokens(v, p, m), p, m)
    decreases |v|
  {
    if v == [] {
    } else if !(p <= v) {
      PassMasks(v[1..], p, m);
      var r := RedactTokens(v[1..], p, m);
      if p <= [v[0]] + r {
        FrontBeforeTokens(p, v, p, m);
      }
      MaskedCons(v[0], r, p, m);
    } else {
      var n := TokenLength(v[|p|..]);
      PassMasks(v[|p| + n..], p, m);
      MaskedToken(v, p, m, n);
    }
  }

  lemma {:induction false} MaskedToken(v: Bytes, p: Bytes, m: Bytes, n: nat)
    requires GoodPrefix(p, m) && p <= v && n == TokenLength(v[|p|..])
    requires Masked(RedactTokens(v[|p| + n..], p, m), p, m)
    ensures Masked(RedactTokens(v, p, m), p, m)
  {
    var r := RedactTokens(v[|p| + n..], p, m);
    if n > 0 {
      PassToken(v, p, m, n);
      MaskedBehind(m, r, p, m);
      MaskedFront(m + r, p, m);
    } else {
      PassNoToken(v, p, m);
      FirstByteKept(v[|p|..], p, m);
      MaskedFront(r, p, m);
    }
  }

  /** A later pass keeps what an earlier pass established. */
  lemma {:induction false} LaterPassKeeps(v: Bytes, p: Bytes, q: Bytes, m: Bytes)
    requires GoodPrefix(p, m) && GoodPrefix(q, m) && Apart(p, q) && Apart(q, p)
    requires Masked(v, p, m)
    ensures Masked(RedactTokens(v, q, m), p, m)
    decreases |v|
  {
    if v == [] {
    } else if !(q <= v) {
      MaskedSuffix(v, p, m, 1);
      LaterPassKeeps(v[1..], p, q, m);
      var r := RedactTokens(v[1..], q, m);
      if p <= [v[0]] + r {
        FrontBeforeTokens(p, v, q, m);
        ClosedAfterPass(v, p, q, m);
      }
      MaskedCons(v[0], r, p, m);
    } else {
      var n := TokenLength(v[|q|..]);
      MaskedSuffix(v, p, m, |q| + n);
      LaterPassKeeps(v[|q| + n..], p, q, m);
      MaskedBehindToken(v, p, q, m, n);
    }
  }

  lemma {:induction false} MaskedBehindToken(v: Bytes, p: Bytes, q: Bytes, m: Bytes, n: nat)
    requires q != [] && q <= v && n == TokenLength(v[|q|..]) && Apart(q, p) && Apart(m, p)
    requires Masked(RedactTokens(v[|q| + n..], q, m), p, m)
    ensures Masked(RedactTokens(v, q, m), p, m)
  {
    hide *;
    var r := RedactTokens(v[|q| + n..], q, m);
    if n > 0 {
      PassToken(v, q, m, n);
      MaskedBehind(m, r, p, m);
      MaskedBehind(q, m + r, p, m);
    } else {
      PassNoToken(v, q, m);
      MaskedBehind(q, r, p, m);
    }
  }

  lemma {:induction false} MaskedSuffix(v: Bytes, p: Bytes, m: Bytes, n: nat)
    requires Masked(v, p, m) && n <= |v|
    ensures Masked(v[n..], p, m)
  {
    var w := v[n..];
    forall i | 0 <= i < |w| && p <= w[i..] ensures Closed(w[i + |p|..], m) {
      assert w[i..] == v[n + i..];
      assert w[i + |p|..] == v[n + i + |p|..];
    }
  }

  /** What closes a prefix still closes it after a pass for another prefix. */
  lemma {:induction false} ClosedAfterPass(v: Bytes, p: Bytes, q: Bytes, m: Bytes)
    requires GoodPrefix(p, m) && GoodPrefix(q, m) && Apart(p, q)
    requires Masked(v, p, m) && p <= v
    ensures p <= RedactTokens(v, q, m) && Closed(RedactTokens(v, q, m)[|p|..], m)
  {
    var z := v[|p|..];
    assert v == p + z && v[0..] == v;
    assert Closed(v[0 + |p|..], m);
    CopiedByPass(p, z, q, m);
    FirstByteKept(z, q, m);
    if m <= z {
      CopiedByPass(m, z[|m|..], q, m);
      assert m + z[|m|..] == z;
    }
  }

  // ---------------------------------------------------------------- all passes

  function TokenPasses(v: Bytes, prefixes: seq<Bytes>, m: Bytes): Bytes
    requires forall i | 0 <= i < |prefixes| :: prefixes[i] != []
  {
    if prefixes == [] then v
    else RedactTokens(TokenPasses(v, prefixes[..|prefixes| - 1], m), prefixes[|prefixes| - 1], m)
  }

  predicate GoodPrefixes(prefixes: seq<Bytes>, m: Bytes) {
    && (forall i | 0 <= i < |prefixes| :: GoodPrefix(prefixes[i], m))
    && (forall i, j | 0 <= i < |prefixes| && 0 <= j < |prefixes| && i != j :: Apart(prefixes[i], prefixes[j]))
  }

  /** After all passes every occurrence of every prefix is closed. */
  lemma {:induction false} AllPrefixesMasked(v: Bytes, prefixes: seq<Bytes>, m: Bytes, i: nat)
    requires GoodPrefixes(prefixes, m) && i < |prefixes|
    ensures Masked(TokenPasses(v, prefixes, m), prefixes[i], m)
    decreases |prefixes|
  {
    var n := |prefixes| - 1;
    var before := TokenPasses(v, prefixes[..n], m);
    if i == n {
      PassMasks(before, prefixes[n], m);
    } else {
      AllPrefixesMasked(v, prefixes[..n], m, i);
      LaterPassKeeps(before, prefixes[i], prefixes[n], m);
    }
  }

  /** A prefix pass brings back no secret. */
  lemma {:induction false} PrefixPassCreatesNone(v: Bytes, p: Bytes, t: Bytes, m: Bytes)
    requires p != [] && MarkerFree(t, m) && NoOccurrence(v, t)
    ensures NoOccurrence(RedactTokens(v, p, m), t)
    decreases |v|
  {
    if v == [] {
    } else if !(p <= v) {
      OccurrencesInSuffix(v, t, 1);
      PrefixPassCreatesNone(v[1..], p, t, m);
      assert !(t <= v) by { assert v[0..] == v; }
      var r := RedactTokens(v[1..], p, m);
      if t <= [v[0]] + r {
        FrontBeforeTokens(t, v, p, m);
      }
      NoneBehindByte(v[0], r, t);
    } else {
      var n := TokenLength(v[|p|..]);
      OccurrencesInSuffix(v, t, |p| + n);
      PrefixPassCreatesNone(v[|p| + n..], p, t, m);
      var r := RedactTokens(v[|p| + n..], p, m);
      if n > 0 {
        PassToken(v, p, m, n);
        NoneBehindMarker(r, t, m);
        NoneBehindKept(v, p, m + r, t, m);
      } else {
        PassNoToken(v, p, m);
        NoneBehindKept(v, p, r, t, m);
      }
    }
  }

  /** Occurrences that start in a kept prefix were there before. */
  lemma {:induction false} NoneBehindKept(v: Bytes, p: Bytes, r: Bytes, t: Bytes, m: Bytes)
    requires p != [] && p <= v && MarkerFree(t, m)
    requires NoOccurrence(v, t) && NoOccurrence(r, t)
    requires m <= r || r == RedactTokens(v[|p|..], p, m)
    ensures NoOccurrence(p + r, t)
  {
    hide RedactTokens;
    forall k | 0 <= k < |p + r| ensures !(t <= (p + r)[k..]) {
      if k >= |p| {
        assert (p + r)[k..] == r[k - |p|..];
      } else {
        assert (p + r)[k..] == p[k..] + r;
        assert v[k..] == p[k..] + v[|p|..];
        assert !(t <= v[k..]);
        NoneAcrossKept(v[|p|..], p[k..], p, r, t, m);
      }
    }
  }

  /** An occurrence that starts in kept text `e` was there before. */
  lemma {:induction false} NoneAcrossKept(w: Bytes, e: Bytes, p: Bytes, r: Bytes, t: Bytes, m: Bytes)
    requires p != [] && MarkerFree(t, m) && !(t <= e + w)
    requires m <= r || r == RedactTokens(w, p, m)
    ensures !(t <= e + r)
  {
    hide RedactTokens;
    if |t| > |e| && t <= e + r {
      TailOfPrefix(t, e, r);
      ApartTail(t, m, |e|);
      if m <= r {
        FrontWithinKept(t, e, r, m);
      } else {
        FrontBeforeTokens(t[|e|..], w, p, m);
      }
    }
  }

  /** The buffer before decoding: secrets replaced, then tokens behind prefixes. */
  function SanitizedBytes(v: Bytes, secrets: seq<Bytes>, prefixes: seq<Bytes>, m: Bytes): Bytes
    requires forall i | 0 <= i < |prefixes| :: prefixes[i] != []
  {
    TokenPasses(RedactAll(v, secrets, m), prefixes, m)
  }

  lemma {:induction false} TokenPassesCreateNone(v: Bytes, prefixes: seq<Bytes>, t: Bytes, m: Bytes)
    requires forall i | 0 <= i < |prefixes| :: prefixes[i] != []
    requires MarkerFree(t, m) && NoOccurrence(v, t)
    ensures NoOccurrence(TokenPasses(v, prefixes, m), t)
    decreases |prefixes|
  {
    if prefixes != [] {
      TokenPassesCreateNone(v, prefixes[..|prefixes| - 1], t, m);
      PrefixPassCreatesNone(TokenPasses(v, prefixes[..|prefixes| - 1], m), prefixes[|prefixes| - 1], t, m);
    }
  }

  /** The whole byte stage: no known secret is left and every token prefix is closed. */
  lemma {:induction false} SanitizedBytesSafe(v: Bytes, secrets: seq<Bytes>, prefixes: seq<Bytes>, m: Bytes)
    requires GoodPrefixes(prefixes, m) && AllMarkerFree(secrets, m)
    ensures var r := SanitizedBytes(v, secrets, prefixes, m);
            && (forall i | 0 <= i < |prefixes| :: Masked(r, prefixes[i], m))
            && (forall i | 0 <= i < |secrets| && secrets[i] != [] :: NoOccurrence(r, secrets[i]))
  {
    var clean := RedactAll(v, secrets, m);
    forall i | 0 <= i < |prefixes| ensures Masked(TokenPasses(clean, prefixes, m), prefixes[i], m) {
      AllPrefixesMasked(clean, prefixes, m, i);
    }
    forall i | 0 <= i < |secrets| && secrets[i] != []
      ensures NoOccurrence(TokenPasses(clean, prefixes, m), secrets[i])
    {
      AllPassesLeaveNone(v, secrets, secrets[i], m);
      TokenPassesCreateNone(clean, prefixes, secrets[i], m);
    }
  }

  // ---------------------------------------------------------------- the instance

  lemma {:induction false} FirstByteApart(a: Bytes, b: Bytes)
    requires b != [] && b[0] !in a
    ensures Apart(a, b)
  {
    forall k | 0 <= k < |a| ensures !Compatible(a[k..], b) {
      assert a[k..][0] == a[k];
    }
  }

  lemma {:induction false} LeadQualifies(p: Bytes, m: Bytes)
    requires p != [] && m != [] && p[0] !in p[1..] && p[0] !in m && m[0] !in p
    ensures GoodPrefix(p, m)
  {
    FirstByteApart(p[1..], p);
    FirstByteApart(m, p);
    FirstByteApart(p, m);
  }

  const CAPABILITY_LEAD: Bytes := [119, 97, 95, 99, 97, 112, 95, 118, 49, 46]
  const SK_LEAD: Bytes := [115, 107, 45]
  const GHP_LEAD: Bytes := [103, 104, 112, 95]
  const BEARER_LEAD: Bytes := [66, 101, 97, 114, 101, 114, 32]
  const TOKEN_LEADS: seq<Bytes> := [CAPABILITY_LEAD, SK_LEAD, GHP_LEAD, BEARER_LEAD]

  /** "wa_cap_v1.", "sk-", "ghp_" and "Bearer " meet every side condition of the passes. */
  lemma {:induction false} FourPrefixesQualify()
    ensures GoodPrefixes(TOKEN_LEADS, REDACTED)
  {
    forall i | 0 <= i < |TOKEN_LEADS| ensures GoodPrefix(TOKEN_LEADS[i], REDACTED) {
      LeadQualifies(TOKEN_LEADS[i], REDACTED);
    }
    forall i, j | 0 <= i < |TOKEN_LEADS| && 0 <= j < |TOKEN_LEADS| && i != j
      ensures Apart(TOKEN_LEADS[i], TOKEN_LEADS[j])
    {
      FirstByteApart(TOKEN_LEADS[i], TOKEN_LEADS[j]);
    }
  }
}
