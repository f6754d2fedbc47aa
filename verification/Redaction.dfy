/**
 Byte-level redaction. `Redact` is the meaning of one pass of the splice loop, `RedactAll` the
 meaning of the whole list of secrets. Most lemmas hold for every marker that the secrets can be
 told from; `REDACTED` is the one in use.
 */
module Redaction {
  newtype Byte = b: int | 0 <= b < 256
  type Bytes = seq<Byte>

  const NEWLINE: Byte := 10
  const CHUNK_BYTES: nat := 16384
  // "[REDACTED]"
  const REDACTED: Bytes := [91, 82, 69, 68, 65, 67, 84, 69, 68, 93]

  /** Position of the first newline. */
  function FirstNewline(b: Bytes): (i: nat)
    requires NEWLINE in b
    ensures i < |b| && b[i] == NEWLINE && NEWLINE !in b[..i]
  {
    if b[0] == NEWLINE then 0
    else
      var i := FirstNewline(b[1..]);
      assert b[..i + 1] == [b[0]] + b[1..][..i];
      i + 1
  }

  // ---------------------------------------------------------------- definitions

  /** One left-to-right pass that replaces every non-overlapping occurrence of `s`. */
  function Redact(v: Bytes, s: Bytes, m: Bytes): Bytes
    requires s != []
    decreases |v|
  {
    if v == [] then []
    else if s <= v then m + Redact(v[|s|..], s, m)
    else [v[0]] + Redact(v[1..], s, m)
  }

  function RedactAll(v: Bytes, secrets: seq<Bytes>, m: Bytes): Bytes
    decreases |secrets|
  {
    if secrets == [] then v
    else if secrets[0] == [] then RedactAll(v, secrets[1..], m)
    else RedactAll(Redact(v, secrets[0], m), secrets[1..], m)
  }

  /** One of the two is a prefix of the other: both can be prefixes of one longer text. */
  predicate Compatible(a: Bytes, b: Bytes) {
    a <= b || b <= a
  }

  /** An occurrence of `b` can never begin inside an occurrence of `a`. */
  predicate Apart(a: Bytes, b: Bytes) {
    forall k | 0 <= k < |a| :: !Compatible(a[k..], b)
  }

  /** `s` can overlap neither end of a marker, nor contain one, nor lie inside one. */
  predicate MarkerFree(s: Bytes, m: Bytes) {
    s != [] && Apart(m, s) && Apart(s, m)
  }

  predicate NoOccurrence(v: Bytes, s: Bytes) {
    forall k | 0 <= k < |v| :: !(s <= v[k..])
  }

  // ---------------------------------------------------------------- the loop

  method RedactBytes(value: Bytes, secrets: seq<Bytes>, m: Bytes) returns (r: Bytes)
    ensures r == RedactAll(value, secrets, m)
  {
    r := value;
    for i := 0 to |secrets|
      invariant RedactAll(r, secrets[i..], m) == RedactAll(value, secrets, m)
    {
      var secret := secrets[i];
      assert secrets[i..][0] == secret && secrets[i..][1..] == secrets[i + 1..];
      if secret != [] {
        r := RedactOne(r, secret, m);
      }
    }
  }

  /** The inner splice loop for one secret. */
  method RedactOne(value: Bytes, secret: Bytes, m: Bytes) returns (r: Bytes)
    requires secret != []
    ensures r == Redact(value, secret, m)
  {
    r := value;
    var offset := 0;
    ghost var done, rest := [], value;
    while offset + |secret| <= |r|
      invariant r == done + rest && offset == |done|
      invariant Redact(value, secret, m) == done + Redact(rest, secret, m)
      decreases |r| - offset
    {
      assert r[offset..] == rest;
      if secret <= r[offset..] {
        SpliceStep(done, rest, secret, m);
        r := r[..offset] + m + r[offset + |secret|..];
        offset := offset + |m|;
        done, rest := done + m, rest[|secret|..];
      } else {
        CopyStep(done, rest, secret, m);
        offset := offset + 1;
        done, rest := done + [rest[0]], rest[1..];
      }
    }
    ShortTextKept(rest, secret, m);
  }

  lemma {:induction false} SpliceStep(done: Bytes, rest: Bytes, s: Bytes, m: Bytes)
    requires s != [] && s <= rest
    ensures done + Redact(rest, s, m) == (done + m) + Redact(rest[|s|..], s, m)
    ensures (done + rest)[..|done|] + m + (done + rest)[|done| + |s|..] == (done + m) + rest[|s|..]
  {
  }

  lemma {:induction false} CopyStep(done: Bytes, rest: Bytes, s: Bytes, m: Bytes)
    requires s != [] && rest != [] && !(s <= rest)
    ensures done + Redact(rest, s, m) == (done + [rest[0]]) + Redact(rest[1..], s, m)
    ensures done + rest == (done + [rest[0]]) + rest[1..]
  {
  }

  lemma {:induction false} ShortTextKept(v: Bytes, s: Bytes, m: Bytes)
    requires |v| < |s|
    ensures Redact(v, s, m) == v
  {
    if v != [] {
      ShortTextKept(v[1..], s, m);
    }
  }

  // ---------------------------------------------------------------- one pass

  /** The text between the replaced occurrences. */
  function Pieces(v: Bytes, s: Bytes): (ps: seq<Bytes>)
    requires s != []
    ensures ps != []
    decreases |v|
  {
    if v == [] then [[]]
    else if s <= v then [[]] + Pieces(v[|s|..], s)
    else
      var ps := Pieces(v[1..], s);
      [[v[0]] + ps[0]] + ps[1..]
  }

  function Join(ps: seq<Bytes>, sep: Bytes): Bytes
    requires ps != []
  {
    if |ps| == 1 then ps[0] else ps[0] + sep + Join(ps[1..], sep)
  }

  /**
   A pass changes nothing but occurrences: the pieces joined by the secret are the text, joined by the
   marker the result.
   */
  lemma {:induction false} OnlyOccurrencesChange(v: Bytes, s: Bytes, m: Bytes)
    requires s != []
    ensures Join(Pieces(v, s), s) == v
    ensures Join(Pieces(v, s), m) == Redact(v, s, m)
    decreases |v|
  {
    if v == [] {
    } else if s <= v {
      OnlyOccurrencesChange(v[|s|..], s, m);
      JoinEmpty(Pieces(v[|s|..], s), s);
      JoinEmpty(Pieces(v[|s|..], s), m);
      assert s + v[|s|..] == v;
    } else {
      OnlyOccurrencesChange(v[1..], s, m);
      JoinHead(v[0], Pieces(v[1..], s), s);
      JoinHead(v[0], Pieces(v[1..], s), m);
      assert [v[0]] + v[1..] == v;
    }
  }

  lemma {:induction false} JoinEmpty(ps: seq<Bytes>, sep: Bytes)
    requires ps != []
    ensures Join([[]] + ps, sep) == sep + Join(ps, sep)
  {
    assert ([[]] + ps)[1..] == ps && [] + sep == sep;
  }

  lemma {:induction false} JoinHead(c: Byte, ps: seq<Bytes>, sep: Bytes)
    requires ps != []
    ensures Join([[c] + ps[0]] + ps[1..], sep) == [c] + Join(ps, sep)
  {
    var qs := [[c] + ps[0]] + ps[1..];
    if |ps| > 1 {
      assert qs[1..] == ps[1..];
      Assoc([c], ps[0], sep);
      Assoc([c], ps[0] + sep, Join(ps[1..], sep));
    }
  }

  /** Text in which no occurrence starts is copied. */
  lemma {:induction false} CleanTextKept(out: Bytes, z: Bytes, s: Bytes, m: Bytes)
    requires s != []
    requires forall k | 0 <= k < |out| :: !(s <= out[k..] + z)
    ensures Redact(out + z, s, m) == out + Redact(z, s, m)
    decreases |out|
  {
    if out == [] {
      assert out + z == z;
    } else {
      assert out[0..] + z == out + z;
      assert (out + z)[1..] == out[1..] + z;
      forall k | 0 <= k < |out[1..]| ensures !(s <= out[1..][k..] + z) {
        assert out[1..][k..] == out[k + 1..];
      }
      CleanTextKept(out[1..], z, s, m);
    }
  }

  lemma {:induction false} NoOccurrenceKept(v: Bytes, s: Bytes, m: Bytes)
    requires s != [] && NoOccurrence(v, s)
    ensures Redact(v, s, m) == v
  {
    forall k | 0 <= k < |v| ensures !(s <= v[k..] + []) {
      assert v[k..] + [] == v[k..];
    }
    CleanTextKept(v, [], s, m);
    assert v + [] == v;
  }

  lemma {:induction false} MarkerKept(z: Bytes, s: Bytes, m: Bytes)
    requires s != [] && Apart(m, s)
    ensures Redact(m + z, s, m) == m + Redact(z, s, m)
  {
    forall k | 0 <= k < |m| ensures !(s <= m[k..] + z) {
      assert !Compatible(m[k..], s);
    }
    CleanTextKept(m, z, s, m);
  }

  /** A marker-avoiding text that shows at the front after a pass was compatible with the front before it. */
  lemma {:induction false} FrontBeforePass(t: Bytes, w: Bytes, y: Bytes, s: Bytes, m: Bytes)
    requires s != [] && Apart(t, m)
    requires t <= Redact(w, s, m) + y
    ensures Compatible(t, w)
    ensures t <= Redact(w, s, m) ==> t <= w
    decreases |w|
  {
    assert t == [] || !Compatible(t, m) by { assert t[0..] == t; }
    if t == [] || w == [] || s <= w {
    } else {
      forall k | 0 <= k < |t[1..]| ensures !Compatible(t[1..][k..], m) {
        assert t[1..][k..] == t[k + 1..];
      }
      assert Redact(w, s, m) == [w[0]] + Redact(w[1..], s, m);
      assert t[1..] <= (Redact(w, s, m) + y)[1..] == Redact(w[1..], s, m) + y;
      FrontBeforePass(t[1..], w[1..], y, s, m);
      assert t == [t[0]] + t[1..] && w == [w[0]] + w[1..];
    }
  }

  /** Redacting what was already redacted, with more text behind it, changes nothing. */
  lemma {:induction false} RedactAppend(b: Bytes, y: Bytes, s: Bytes, m: Bytes)
    requires MarkerFree(s, m)
    ensures Redact(Redact(b, s, m) + y, s, m) == Redact(b + y, s, m)
    decreases |b|
  {
    if |b| < |s| {
      ShortTextKept(b, s, m);
    } else if s <= b {
      var rest := b[|s|..];
      RedactAppend(rest, y, s, m);
      MarkerKept(Redact(rest, s, m) + y, s, m);
      Assoc(m, Redact(rest, s, m), y);
      assert (b + y)[|s|..] == rest + y;
    } else {
      RedactAppend(b[1..], y, s, m);
      NoFalseFront(s, b, y, m);
      HeadCopied(b[0], Redact(b[1..], s, m), y, s, m);
      HeadCopied(b[0], b[1..], y, s, m);
      assert [b[0]] + b[1..] == b;
    }
  }

  lemma Assoc(a: Bytes, b: Bytes, c: Bytes)
    ensures (a + b) + c == a + (b + c)
  {
  }

  lemma {:induction false} HeadCopied(c: Byte, v: Bytes, y: Bytes, s: Bytes, m: Bytes)
    requires s != [] && !(s <= [c] + v + y)
    ensures Redact([c] + v + y, s, m) == [c] + Redact(v + y, s, m)
  {
    assert ([c] + v + y)[1..] == v + y;
  }

  lemma {:induction false} NoFalseFront(s: Bytes, b: Bytes, y: Bytes, m: Bytes)
    requires MarkerFree(s, m) && |s| <= |b| && !(s <= b)
    ensures !(s <= Redact(b, s, m) + y) && !(s <= b + y)
  {
    if s <= Redact(b, s, m) + y {
      FrontBeforePass(s, b, y, s, m);
    }
  }

  /** A pass for `s` creates no occurrence of a marker-avoiding text, and leaves none of `s` itself. */
  lemma {:induction false} PassCreatesNone(v: Bytes, s: Bytes, t: Bytes, m: Bytes)
    requires s != [] && MarkerFree(t, m)
    requires s == t || NoOccurrence(v, t)
    ensures NoOccurrence(Redact(v, s, m), t)
    decreases |v|
  {
    if v == [] {
    } else if s <= v {
      OccurrencesInSuffix(v, t, |s|);
      PassCreatesNone(v[|s|..], s, t, m);
      NoneBehindMarker(Redact(v[|s|..], s, m), t, m);
    } else {
      OccurrencesInSuffix(v, t, 1);
      PassCreatesNone(v[1..], s, t, m);
      assert !(t <= v) by { assert v[0..] == v; }
      NoNewFront(v, s, t, m);
      NoneBehindByte(v[0], Redact(v[1..], s, m), t);
    }
  }

  lemma {:induction false} NoneBehindMarker(r: Bytes, t: Bytes, m: Bytes)
    requires NoOccurrence(r, t) && Apart(m, t)
    ensures NoOccurrence(m + r, t)
  {
    forall k | 0 <= k < |m + r| ensures !(t <= (m + r)[k..]) {
      if k < |m| {
        assert (m + r)[k..] == m[k..] + r;
        assert !Compatible(m[k..], t);
      } else {
        assert (m + r)[k..] == r[k - |m|..];
      }
    }
  }

  lemma {:induction false} NoneBehindByte(c: Byte, r: Bytes, t: Bytes)
    requires NoOccurrence(r, t) && !(t <= [c] + r)
    ensures NoOccurrence([c] + r, t)
  {
    forall k | 0 <= k < |[c] + r| ensures !(t <= ([c] + r)[k..]) {
      if k == 0 {
        assert ([c] + r)[0..] == [c] + r;
      } else {
        assert ([c] + r)[k..] == r[k - 1..];
      }
    }
  }

  lemma {:induction false} OccurrencesInSuffix(v: Bytes, t: Bytes, n: nat)
    requires n <= |v|
    ensures NoOccurrence(v, t) ==> NoOccurrence(v[n..], t)
  {
    if NoOccurrence(v, t) {
      forall k | 0 <= k < |v[n..]| ensures !(t <= v[n..][k..]) {
        assert v[n..][k..] == v[n + k..];
      }
    }
  }

  // ---------------------------------------------------------------- several secrets

  /** Every secret can be told from the markers that replace it. */
  predicate AllMarkerFree(secrets: seq<Bytes>, m: Bytes) {
    forall i | 0 <= i < |secrets| :: secrets[i] == [] || MarkerFree(secrets[i], m)
  }

  /** No two different secrets of the list can overlap in a text. */
  predicate Independent(secrets: seq<Bytes>) {
    forall i, j | 0 <= i < j < |secrets| :: Separate(secrets[i], secrets[j])
  }

  predicate Separate(s: Bytes, t: Bytes) {
    s == [] || t == [] || s == t || (Apart(s, t) && Apart(t, s))
  }

  lemma {:induction false} PassesCommute(v: Bytes, s: Bytes, t: Bytes, m: Bytes)
    requires MarkerFree(s, m) && MarkerFree(t, m) && Separate(s, t)
    ensures Redact(Redact(v, s, m), t, m) == Redact(Redact(v, t, m), s, m)
    decreases |v|
  {
    if v == [] || s == t {
    } else if s <= v {
      FrontOccurrenceCommutes(v, s, t, m);
      PassesCommute(v[|s|..], s, t, m);
    } else if t <= v {
      FrontOccurrenceCommutes(v, t, s, m);
      PassesCommute(v[|t|..], s, t, m);
    } else {
      NoNewFront(v, s, t, m);
      NoNewFront(v, t, s, m);
      PassesCommute(v[1..], s, t, m);
      assert Redact(v, s, m)[1..] == Redact(v[1..], s, m);
      assert Redact(v, t, m)[1..] == Redact(v[1..], t, m);
    }
  }

  lemma {:induction false} NoNewFront(v: Bytes, s: Bytes, t: Bytes, m: Bytes)
    requires s != [] && MarkerFree(t, m) && v != [] && !(t <= v)
    ensures !(t <= Redact(v, s, m))
  {
    if t <= Redact(v, s, m) {
      assert Redact(v, s, m) + [] == Redact(v, s, m);
      FrontBeforePass(t, v, [], s, m);
    }
  }

  lemma {:induction false} FrontOccurrenceCommutes(v: Bytes, s: Bytes, t: Bytes, m: Bytes)
    requires MarkerFree(s, m) && MarkerFree(t, m) && Apart(s, t) && s <= v
    ensures Redact(Redact(v, s, m), t, m) == m + Redact(Redact(v[|s|..], s, m), t, m)
    ensures Redact(Redact(v, t, m), s, m) == m + Redact(Redact(v[|s|..], t, m), s, m)
  {
    var rest := v[|s|..];
    MarkerKept(Redact(rest, s, m), t, m);
    assert v == s + rest;
    forall k | 0 <= k < |s| ensures !(t <= s[k..] + rest) {
      assert !Compatible(s[k..], t);
    }
    CleanTextKept(s, rest, t, m);
    assert (s + Redact(rest, t, m))[|s|..] == Redact(rest, t, m);
  }

  lemma {:induction false} PassCommutesWithAll(v: Bytes, s: Bytes, secrets: seq<Bytes>, m: Bytes)
    requires MarkerFree(s, m) && AllMarkerFree(secrets, m)
    requires forall i | 0 <= i < |secrets| :: Separate(s, secrets[i])
    ensures RedactAll(Redact(v, s, m), secrets, m) == Redact(RedactAll(v, secrets, m), s, m)
    decreases |secrets|
  {
    if secrets != [] {
      if secrets[0] == [] {
        PassCommutesWithAll(v, s, secrets[1..], m);
      } else {
        PassesCommute(v, s, secrets[0], m);
        PassCommutesWithAll(Redact(v, secrets[0], m), s, secrets[1..], m);
      }
    }
  }

  lemma {:induction false} RedactAllAppend(b: Bytes, y: Bytes, secrets: seq<Bytes>, m: Bytes)
    requires AllMarkerFree(secrets, m) && Independent(secrets)
    ensures RedactAll(RedactAll(b, secrets, m) + y, secrets, m) == RedactAll(b + y, secrets, m)
    decreases |secrets|
  {
    if secrets != [] {
      var s, rest := secrets[0], secrets[1..];
      if s == [] {
        RedactAllAppend(b, y, rest, m);
      } else {
        assert forall i | 0 <= i < |rest| :: rest[i] == secrets[i + 1] && Separate(s, rest[i]);
        var u := Redact(b, s, m);
        calc {
          RedactAll(Redact(RedactAll(u, rest, m) + y, s, m), rest, m);
          { PassCommutesWithAll(RedactAll(u, rest, m) + y, s, rest, m); }
          Redact(RedactAll(RedactAll(u, rest, m) + y, rest, m), s, m);
          { RedactAllAppend(u, y, rest, m); }
          Redact(RedactAll(u + y, rest, m), s, m);
          { PassCommutesWithAll(u + y, s, rest, m); }
          RedactAll(Redact(u + y, s, m), rest, m);
          { RedactAppend(b, y, s, m); }
          RedactAll(Redact(b + y, s, m), rest, m);
        }
      }
    }
  }

  lemma {:induction false} AllPassesLeaveNone(v: Bytes, secrets: seq<Bytes>, t: Bytes, m: Bytes)
    requires AllMarkerFree(secrets, m) && MarkerFree(t, m)
    requires t in secrets || NoOccurrence(v, t)
    ensures NoOccurrence(RedactAll(v, secrets, m), t)
    decreases |secrets|
  {
    if secrets != [] {
      var s, rest := secrets[0], secrets[1..];
      if s == [] {
        AllPassesLeaveNone(v, rest, t, m);
      } else if s == t || NoOccurrence(v, t) {
        PassCreatesNone(v, s, t, m);
        AllPassesLeaveNone(Redact(v, s, m), rest, t, m);
      } else {
        AllPassesLeaveNone(Redact(v, s, m), rest, t, m);
      }
    }
  }

  lemma {:induction false} NoneToRedact(v: Bytes, secrets: seq<Bytes>, m: Bytes)
    requires forall i | 0 <= i < |secrets| :: secrets[i] == [] || NoOccurrence(v, secrets[i])
    ensures RedactAll(v, secrets, m) == v
    decreases |secrets|
  {
    if secrets != [] {
      if secrets[0] != [] {
        NoOccurrenceKept(v, secrets[0], m);
      }
      NoneToRedact(v, secrets[1..], m);
    }
  }

  // ---------------------------------------------------------------- sealed text

  /** Whatever follows `b`, no occurrence of `s` in `g + b + ...` starts inside `g`. */
  predicate Sealed(g: Bytes, b: Bytes, s: Bytes) {
    forall p | 0 <= p < |g| :: !Compatible(s, g[p..] + b)
  }

  lemma {:induction false} SealedBeforeMore(g: Bytes, b: Bytes, x: Bytes, s: Bytes)
    requires Sealed(g, b, s)
    ensures Sealed(g, b + x, s)
  {
    forall p | 0 <= p < |g| ensures !Compatible(s, g[p..] + (b + x)) {
      assert g[p..] + (b + x) == (g[p..] + b) + x;
      assert !Compatible(s, g[p..] + b);
    }
  }

  lemma {:induction false} SealedThroughPass(g: Bytes, w: Bytes, s: Bytes, t: Bytes, m: Bytes)
    requires s != [] && MarkerFree(t, m) && Sealed(g, w, t)
    ensures Sealed(g, Redact(w, s, m), t)
  {
    forall p | 0 <= p < |g| ensures !Compatible(t, g[p..] + Redact(w, s, m)) {
      assert !Compatible(t, g[p..] + w);
      if Compatible(t, g[p..] + Redact(w, s, m)) {
        TailBeforePass(g[p..], w, s, t, m);
      }
    }
  }

  lemma {:induction false} TailBeforePass(tail: Bytes, w: Bytes, s: Bytes, t: Bytes, m: Bytes)
    requires s != [] && MarkerFree(t, m) && Compatible(t, tail + Redact(w, s, m))
    ensures Compatible(t, tail + w)
  {
    if |tail| < |t| {
      var r := Redact(w, s, m);
      var u := t[|tail|..];
      assert t == tail + u;
      forall k | 0 <= k < |u| ensures !Compatible(u[k..], m) {
        assert u[k..] == t[|tail| + k..];
      }
      if t <= tail + r {
        assert u <= (tail + r)[|tail|..] == r;
        FrontBeforePass(u, w, [], s, m);
      } else {
        assert r <= u by { assert (tail + r)[|tail|..] == r; }
        assert u == r + u[|r|..];
        FrontBeforePass(u, w, u[|r|..], s, m);
      }
    }
  }

  lemma {:induction false} SealedThroughAll(g: Bytes, w: Bytes, secrets: seq<Bytes>, t: Bytes, m: Bytes)
    requires MarkerFree(t, m) && Sealed(g, w, t)
    ensures Sealed(g, RedactAll(w, secrets, m), t)
    decreases |secrets|
  {
    if secrets != [] {
      if secrets[0] == [] {
        SealedThroughAll(g, w, secrets[1..], t, m);
      } else {
        SealedThroughPass(g, w, secrets[0], t, m);
        SealedThroughAll(g, Redact(w, secrets[0], m), secrets[1..], t, m);
      }
    }
  }

  lemma {:induction false} SealedKept(g: Bytes, w: Bytes, secrets: seq<Bytes>, m: Bytes)
    requires AllMarkerFree(secrets, m)
    requires forall i | 0 <= i < |secrets| :: secrets[i] == [] || Sealed(g, w, secrets[i])
    ensures RedactAll(g + w, secrets, m) == g + RedactAll(w, secrets, m)
    decreases |secrets|
  {
    if secrets != [] {
      var s, rest := secrets[0], secrets[1..];
      if s == [] {
        SealedKept(g, w, rest, m);
      } else {
        forall k | 0 <= k < |g| ensures !(s <= g[k..] + w) {
          assert !Compatible(s, g[k..] + w);
        }
        CleanTextKept(g, w, s, m);
        forall i | 0 <= i < |rest| ensures rest[i] == [] || Sealed(g, Redact(w, s, m), rest[i]) {
          assert rest[i] == secrets[i + 1];
          if rest[i] != [] {
            SealedThroughPass(g, w, s, rest[i], m);
          }
        }
        SealedKept(g, Redact(w, s, m), rest, m);
      }
    }
  }
}
