/**
 Two secrets in one stream. They are redacted one after the other, so a piece of the first one can
 be used up by the second before the rest of it has been read. This module settles exactly which
 pairs are streamed right.
 */
module SecretPairs {
  import opened Redaction
  import opened RedactingStream

  /** `a` is the end of `b`. */
  predicate Ending(a: Bytes, b: Bytes) {
    |a| <= |b| && b[|b| - |a|..] == a
  }

  /** The first `k` bytes of `s` end with `t`, or are an end of `t`. */
  predicate EndsInside(s: Bytes, t: Bytes, k: nat)
    requires k <= |s|
  {
    Ending(t, s[..k]) || Ending(s[..k], t)
  }

  /** No pass for `t` can use up the front of an unfinished `s`. */
  predicate FrontSafe(s: Bytes, t: Bytes) {
    forall k | 0 < k < |s| :: !EndsInside(s, t, k)
  }

  /** `s` occurs in `t`, so `t` is gone before its turn, or `t` cannot use up the front of an `s`. */
  predicate Harmless(s: Bytes, t: Bytes) {
    !NoOccurrence(t, s) || FrontSafe(s, t)
  }

  /** No part of the marker but the whole is a front of it. */
  predicate Unbordered(m: Bytes) {
    m != [] && Apart(m[1..], m)
  }

  function Both(v: Bytes, s: Bytes, t: Bytes, m: Bytes): Bytes
    requires s != [] && t != []
  {
    Redact(Redact(v, s, m), t, m)
  }

  // ---------------------------------------------------------------- harmless pairs

  lemma {:induction false} OccursThrough(w: Bytes, k: nat, t: Bytes, j: nat, s: Bytes)
    requires k < |w| && t <= w[k..] && j < |t| && s <= t[j..]
    ensures !NoOccurrence(w, s)
  {
    assert t[j..] <= w[k..][j..] == w[k + j..];
    assert s <= w[k + j..];
  }

  /** The first pass leaves no text that contains its secret. */
  lemma {:induction false} SecondPassIdle(v: Bytes, s: Bytes, t: Bytes, m: Bytes)
    requires MarkerFree(s, m) && t != [] && !NoOccurrence(t, s)
    ensures Both(v, s, t, m) == Redact(v, s, m)
  {
    var w := Redact(v, s, m);
    PassCreatesNone(v, s, s, m);
    var j :| 0 <= j < |t| && s <= t[j..];
    forall k | 0 <= k < |w| ensures !(t <= w[k..]) {
      if t <= w[k..] {
        OccursThrough(w, k, t, j, s);
      }
    }
    NoOccurrenceKept(w, t, m);
  }

  /** A `t` within a front of `s` ends some front of `s`. */
  lemma {:induction false} EndsWithin(c: Bytes, j: nat, s: Bytes, t: Bytes)
    requires c <= s && j <= |c| && t <= c[j..]
    ensures j + |t| <= |c| && Ending(t, s[..j + |t|]) && EndsInside(s, t, j + |t|)
  {
    var k := j + |t|;
    assert s[..k] == c[..k] && c[..k][j..] == c[j..][..|t|] == t;
  }

  /** An `s` that starts in `t` and ends behind it has a front that ends `t`. */
  lemma {:induction false} SpillsInto(t: Bytes, j: nat, y: Bytes, s: Bytes)
    requires j <= |t| && s <= t[j..] + y && !(s <= t[j..])
    ensures |t| - j < |s| && Ending(s[..|t| - j], t) && EndsInside(s, t, |t| - j)
  {
    assert s[..|t| - j] == t[j..];
  }

  /** A front of `s` holds no `t`. */
  lemma {:induction false} FrontKept(c: Bytes, s: Bytes, t: Bytes, m: Bytes)
    requires t != [] && FrontSafe(s, t) && c <= s && |c| < |s|
    ensures Redact(c, t, m) == c
  {
    forall j | 0 <= j < |c| ensures !(t <= c[j..]) {
      if t <= c[j..] {
        EndsWithin(c, j, s, t);
      }
    }
    NoOccurrenceKept(c, t, m);
  }

  /** No `s` starts inside a `t` that stands in front of text without `s`. */
  lemma {:induction false} NoneStartsInside(rest: Bytes, y: Bytes, s: Bytes, t: Bytes)
    requires s != [] && FrontSafe(s, t) && NoOccurrence(t + rest, s)
    ensures forall j | 0 <= j < |t| :: !(s <= t[j..] + (rest + y))
  {
    forall j | 0 <= j < |t| ensures !(s <= t[j..] + (rest + y)) {
      assert (t + rest)[j..] == t[j..] + rest;
      assert !(s <= t[j..]) by { assert t[j..] <= t[j..] + rest; }
      if s <= t[j..] + (rest + y) {
        SpillsInto(t, j, rest + y, s);
      }
    }
  }

  /** A pass for `t` on text without `s` can be left to the passes that follow. */
  lemma {:induction false} EarlyPass(c: Bytes, y: Bytes, s: Bytes, t: Bytes, m: Bytes)
    requires MarkerFree(s, m) && MarkerFree(t, m) && FrontSafe(s, t) && NoOccurrence(c, s)
    ensures Both(Redact(c, t, m) + y, s, t, m) == Both(c + y, s, t, m)
    decreases |c|
  {
    if |c| < |t| {
      ShortTextKept(c, t, m);
    } else if c <= s {
      assert |c| < |s| by { assert c == [] || c[0..] == c; }
      FrontKept(c, s, t, m);
    } else if t <= c {
      OccurrencesInSuffix(c, s, |t|);
      EarlyPass(c[|t|..], y, s, t, m);
      FrontReplaced(c[|t|..], c, y, s, t, m);
    } else {
      OccurrencesInSuffix(c, s, 1);
      EarlyPass(c[1..], y, s, t, m);
      HeadKept(c, y, s, t, m);
    }
  }

  lemma {:induction false} FrontReplaced(rest: Bytes, c: Bytes, y: Bytes, s: Bytes, t: Bytes, m: Bytes)
    requires MarkerFree(s, m) && MarkerFree(t, m) && FrontSafe(s, t) && c == t + rest && NoOccurrence(c, s)
    ensures Both(Redact(c, t, m) + y, s, t, m) == m + Both(Redact(rest, t, m) + y, s, t, m)
    ensures Both(c + y, s, t, m) == m + Both(rest + y, s, t, m)
  {
    var r := Redact(rest, t, m);
    assert Redact(c, t, m) == m + r;
    Assoc(m, r, y);
    MarkerKept(r + y, s, m);
    MarkerStays(Redact(r + y, s, m), t, m);
    Assoc(t, rest, y);
    NoneStartsInside(rest, y, s, t);
    CleanTextKept(t, rest + y, s, m);
    var z := Redact(rest + y, s, m);
    assert (t + z)[|t|..] == z;
  }

  lemma {:induction false} MarkerStays(z: Bytes, t: Bytes, m: Bytes)
    requires MarkerFree(t, m)
    ensures Redact(m + z, t, m) == m + Redact(z, t, m)
  {
    MarkerKept(z, t, m);
  }

  lemma {:induction false} HeadKept(c: Bytes, y: Bytes, s: Bytes, t: Bytes, m: Bytes)
    requires MarkerFree(s, m) && MarkerFree(t, m) && c != []
    requires !Compatible(c, s) && !Compatible(c, t)
    ensures Both(Redact(c, t, m) + y, s, t, m) == [c[0]] + Both(Redact(c[1..], t, m) + y, s, t, m)
    ensures Both(c + y, s, t, m) == [c[0]] + Both(c[1..] + y, s, t, m)
  {
    var r := Redact(c[1..], t, m);
    assert Redact(c, t, m) == [c[0]] + r && c == [c[0]] + c[1..];
    FrontsStay(c, y, s, t, m);
    HeadCopied(c[0], r, y, s, m);
    HeadCopied(c[0], c[1..], y, s, m);
    var a, b := Redact(r + y, s, m), Redact(c[1..] + y, s, m);
    assert [c[0]] + a + [] == [c[0]] + a && a + [] == a;
    assert [c[0]] + b + [] == [c[0]] + b && b + [] == b;
    HeadCopied(c[0], a, [], t, m);
    HeadCopied(c[0], b, [], t, m);
  }

  /** Neither secret shows up in front where it was not. */
  lemma {:induction false} FrontsStay(c: Bytes, y: Bytes, s: Bytes, t: Bytes, m: Bytes)
    requires MarkerFree(s, m) && MarkerFree(t, m) && c != []
    requires !Compatible(c, s) && !Compatible(c, t)
    ensures !(s <= Redact(c, t, m) + y) && !(s <= c + y)
    ensures !(t <= Redact(Redact(c, t, m) + y, s, m)) && !(t <= Redact(c + y, s, m))
  {
    if s <= Redact(c, t, m) + y {
      FrontBeforePass(s, c, y, t, m);
    }
    if t <= Redact(c, t, m) + y {
      FrontBeforePass(t, c, y, t, m);
    }
    assert Redact(c, t, m) != [];
    NoNewFront(Redact(c, t, m) + y, s, t, m);
    NoNewFront(c + y, s, t, m);
  }

  lemma {:induction false} HarmlessAppends(b: Bytes, y: Bytes, s: Bytes, t: Bytes, m: Bytes)
    requires MarkerFree(s, m) && MarkerFree(t, m) && Harmless(s, t)
    ensures Both(Both(b, s, t, m) + y, s, t, m) == Both(b + y, s, t, m)
  {
    var c := Redact(b, s, m);
    RedactAppend(b, y, s, m);
    if NoOccurrence(t, s) {
      PassCreatesNone(b, s, s, m);
      EarlyPass(c, y, s, t, m);
    } else {
      SecondPassIdle(b, s, t, m);
      SecondPassIdle(c + y, s, t, m);
      SecondPassIdle(b + y, s, t, m);
    }
  }

  // ---------------------------------------------------------------- harmful pairs

  lemma {:induction false} LastFront(s: Bytes, t: Bytes, k: nat) returns (n: nat)
    requires 0 < k < |s| && Ending(s[..k], t)
    ensures 0 < n < |s| && Ending(s[..n], t)
    ensures forall j | n < j < |s| :: !Ending(s[..j], t)
    decreases |s| - k
  {
    if j :| k < j < |s| && Ending(s[..j], t) {
      n := LastFront(s, t, j);
    } else {
      n := k;
    }
  }

  lemma {:induction false} FirstInside(s: Bytes, t: Bytes, k: nat) returns (n: nat)
    requires 0 < k < |s| && Ending(t, s[..k])
    ensures 0 < n < |s| && Ending(t, s[..n])
    ensures forall j | 0 < j < n :: !Ending(t, s[..j])
    decreases k
  {
    if j :| 0 < j < k && Ending(t, s[..j]) {
      n := FirstInside(s, t, j);
    } else {
      n := k;
    }
  }

  lemma {:induction false} NotEmptied(v: Bytes, t: Bytes, m: Bytes)
    requires t != [] && v != [] && m != []
    ensures Redact(v, t, m) != []
  {
  }

  lemma {:induction false} SpillsOver(u: Bytes, m: Bytes, z: Bytes, s: Bytes)
    requires s <= u + (m + z) && !(s <= u)
    ensures !Apart(s, m)
  {
    assert s[|u|..] <= (u + (m + z))[|u|..] == m + z;
    assert Compatible(s[|u|..], m);
  }

  /** Text without `s` in front of a marker is kept. */
  lemma {:induction false} KeptBeforeMarker(p: Bytes, z: Bytes, s: Bytes, m: Bytes)
    requires MarkerFree(s, m) && NoOccurrence(p, s)
    ensures Redact(p + m + z, s, m) == p + m + Redact(z, s, m)
  {
    forall j | 0 <= j < |p| ensures !(s <= p[j..] + (m + z)) {
      assert !(s <= p[j..]);
      if s <= p[j..] + (m + z) {
        SpillsOver(p[j..], m, z, s);
      }
    }
    Assoc(p, m, z);
    CleanTextKept(p, m + z, s, m);
    MarkerKept(z, s, m);
    Assoc(p, m, Redact(z, s, m));
  }

  lemma {:induction false} ShortHasNone(p: Bytes, s: Bytes)
    requires |p| < |s|
    ensures NoOccurrence(p, s)
  {
  }

  /** Nothing but a marker, then the rest of an `s`. */
  lemma {:induction false} AfterMarker(p: Bytes, y: Bytes, s: Bytes, t: Bytes, m: Bytes)
    requires MarkerFree(s, m) && MarkerFree(t, m) && NoOccurrence(p, s) && NoOccurrence(p, t) && |y| < |s|
    ensures Both(p + m + y, s, t, m) == p + m + Redact(y, t, m)
  {
    KeptBeforeMarker(p, y, s, m);
    ShortTextKept(y, s, m);
    KeptBeforeMarker(p, y, t, m);
  }

  /** The first `s` in a `t` that ends with its longest front `s[..k]` and goes on with the rest of it. */
  lemma {:induction false} NoneBeforeFront(s: Bytes, t: Bytes, k: nat, p: Bytes)
    requires NoOccurrence(t, s) && 0 < k < |s| && Ending(s[..k], t)
    requires forall j | k < j < |s| :: !Ending(s[..j], t)
    requires p == t[..|t| - k]
    ensures t + s[k..] == p + s
    ensures forall j | 0 <= j < |p| :: !(s <= p[j..] + s)
  {
    var y := s[k..];
    assert t + y == p + s;
    forall j | 0 <= j < |p| ensures !(s <= p[j..] + s) {
      assert p[j..] + s == t[j..] + y;
      assert !(s <= t[j..]);
      if s <= t[j..] + y {
        SpillsInto(t, j, y, s);
      }
    }
  }

  /** The second secret ends with a front of the first: it is replaced before the rest of the first arrives. */
  lemma {:induction false} FrontUsedUp(s: Bytes, t: Bytes, k: nat, m: Bytes)
    requires MarkerFree(s, m) && MarkerFree(t, m) && NoOccurrence(t, s)
    requires 0 < k < |s| && Ending(s[..k], t) && forall j | k < j < |s| :: !Ending(s[..j], t)
    ensures Both(Both(t, s, t, m) + s[k..], s, t, m) == m + Redact(s[k..], t, m)
    ensures Both(t + s[k..], s, t, m) == t[..|t| - k] + m
  {
    hide Redact, MarkerFree;
    NoOccurrenceKept(t, s, m);
    WholeSecret(t, m);
    AfterMarker([], s[k..], s, t, m);
    assert [] + m == m;
    NoneBeforeFront(s, t, k, t[..|t| - k]);
    FrontGone(t[..|t| - k], s, t, m);
  }

  lemma {:induction false} FrontGone(p: Bytes, s: Bytes, t: Bytes, m: Bytes)
    requires s != [] && MarkerFree(t, m) && |p| < |t|
    requires forall j | 0 <= j < |p| :: !(s <= p[j..] + s)
    ensures Both(p + s, s, t, m) == p + m
  {
    CleanTextKept(p, s, s, m);
    WholeSecret(s, m);
    ShortHasNone(p, t);
    KeptBeforeMarker(p, [], t, m);
    hide Redact;
    RedactNothing(t, m);
    assert p + m + [] == p + m;
  }

  lemma {:induction false} RedactNothing(t: Bytes, m: Bytes)
    requires t != []
    ensures Redact([], t, m) == []
  {
  }

  /** `t` first ends in `s` at `k`. */
  lemma {:induction false} NoneBeforeInside(s: Bytes, t: Bytes, k: nat, p: Bytes)
    requires t != [] && 0 < k < |s| && Ending(t, s[..k]) && forall j | 0 < j < k :: !Ending(t, s[..j])
    requires p == s[..k - |t|]
    ensures s[..k] == p + t && NoOccurrence(p, t)
    ensures forall j | 0 <= j < |p| :: !(t <= p[j..] + t)
  {
    var b := s[..k];
    assert b == p + t;
    forall j | 0 <= j < |p| ensures !(t <= p[j..] + t) && !(t <= p[j..]) {
      assert p[j..] + t == b[j..] && p[j..] <= p[j..] + t;
      if t <= b[j..] {
        EndsWithin(b, j, s, t);
      }
    }
  }

  /** The second secret lies inside a front of the first. */
  lemma {:induction false} InsideUsedUp(s: Bytes, t: Bytes, k: nat, m: Bytes)
    requires MarkerFree(s, m) && MarkerFree(t, m)
    requires 0 < k < |s| && Ending(t, s[..k]) && forall j | 0 < j < k :: !Ending(t, s[..j])
    ensures Both(Both(s[..k], s, t, m) + s[k..], s, t, m) == s[..k - |t|] + m + Redact(s[k..], t, m)
    ensures Both(s[..k] + s[k..], s, t, m) == m
  {
    var b, p, y := s[..k], s[..k - |t|], s[k..];
    assert t != [] && b + y == s;
    hide *;
    NoneBeforeInside(s, t, k, p);
    InsideReplaced(p, s, t, m);
    assert Both(b, s, t, m) == p + m;
    ShortHasNone(p, s);
    AfterMarker(p, y, s, t, m);
    WholeGone(s, t, m);
  }

  lemma {:induction false} InsideReplaced(p: Bytes, s: Bytes, t: Bytes, m: Bytes)
    requires t != [] && |p + t| < |s|
    requires forall j | 0 <= j < |p| :: !(t <= p[j..] + t)
    ensures Both(p + t, s, t, m) == p + m
  {
    ShortTextKept(p + t, s, m);
    CleanTextKept(p, t, t, m);
    WholeSecret(t, m);
  }

  lemma {:induction false} WholeGone(s: Bytes, t: Bytes, m: Bytes)
    requires s != [] && MarkerFree(t, m)
    ensures Both(s, s, t, m) == m
  {
    WholeSecret(s, m);
    MarkerAlone(t, m);
  }

  lemma {:induction false} MarkerAlone(t: Bytes, m: Bytes)
    requires MarkerFree(t, m)
    ensures Redact(m, t, m) == m
  {
    MarkerKept([], t, m);
    assert m + [] == m;
  }

  /** A text that both starts and ends with a marker, less than a `t` in front of the second. */
  lemma {:induction false} MarkerShifted(p: Bytes, t: Bytes, m: Bytes, z: Bytes)
    requires p + m == m + z && p <= t && p != [] && m != []
    ensures !Apart(t, m) || !Unbordered(m)
  {
    if |p| < |m| {
      assert m[|p|..] == (m + z)[|p|..][..|m| - |p|] == m[..|m| - |p|];
      assert m[1..][|p| - 1..] == m[|p|..];
      assert Compatible(m[1..][|p| - 1..], m);
    } else {
      assert p[..|m|] == (p + m)[..|m|] == (m + z)[..|m|] == m;
      assert t[0..] == t && Compatible(t[0..], m);
    }
  }

  /** Two reads of a harmful pair that are not redacted as one. */
  lemma {:induction false} HarmfulCut(s: Bytes, t: Bytes, m: Bytes) returns (b: Bytes, y: Bytes)
    requires MarkerFree(s, m) && MarkerFree(t, m) && Unbordered(m) && !Harmless(s, t)
    ensures Both(Both(b, s, t, m) + y, s, t, m) != Both(b + y, s, t, m)
    ensures Ending(s, b + y)
  {
    var k :| 0 < k < |s| && EndsInside(s, t, k);
    if Ending(s[..k], t) {
      var n := LastFront(s, t, k);
      b, y := t, s[n..];
      FrontDiffers(s, t, n, m);
    } else {
      var n := FirstInside(s, t, k);
      b, y := s[..n], s[n..];
      InsideDiffers(s, t, n, m);
    }
  }

  lemma {:induction false} FrontDiffers(s: Bytes, t: Bytes, k: nat, m: Bytes)
    requires MarkerFree(s, m) && MarkerFree(t, m) && NoOccurrence(t, s) && Unbordered(m)
    requires 0 < k < |s| && Ending(s[..k], t) && forall j | k < j < |s| :: !Ending(s[..j], t)
    ensures Both(Both(t, s, t, m) + s[k..], s, t, m) != Both(t + s[k..], s, t, m)
    ensures Ending(s, t + s[k..])
  {
    var p, y := t[..|t| - k], s[k..];
    assert t + y == p + s && (p + s)[|p|..] == s;
    assert t != [] && m != [];
    hide Redact, Both, MarkerFree;
    FrontUsedUp(s, t, k, m);
    NotEmptied(y, t, m);
    hide *;
    OutputsDiffer(p, t, m, Redact(y, t, m));
  }

  lemma {:induction false} OutputsDiffer(p: Bytes, t: Bytes, m: Bytes, z: Bytes)
    requires MarkerFree(t, m) && Unbordered(m) && p <= t && z != []
    ensures p + m != m + z
  {
    assert p == [] ==> |p + m| < |m + z|;
    if p != [] && p + m == m + z {
      MarkerShifted(p, t, m, z);
    }
  }

  lemma {:induction false} InsideDiffers(s: Bytes, t: Bytes, k: nat, m: Bytes)
    requires MarkerFree(s, m) && MarkerFree(t, m) && m != []
    requires 0 < k < |s| && Ending(t, s[..k]) && forall j | 0 < j < k :: !Ending(t, s[..j])
    ensures Both(Both(s[..k], s, t, m) + s[k..], s, t, m) != Both(s[..k] + s[k..], s, t, m)
    ensures Ending(s, s[..k] + s[k..])
  {
    InsideUsedUp(s, t, k, m);
    NotEmptied(s[k..], t, m);
    hide Redact, Both;
    assert s[..k] + s[k..] == s;
  }

  // ---------------------------------------------------------------- the exact condition

  lemma {:induction false} PairAppends(s: Bytes, t: Bytes, b: Bytes, y: Bytes, m: Bytes)
    requires s != [] && t != []
    ensures AppendsAt([s, t], b, y, m) <==> Both(Both(b, s, t, m) + y, s, t, m) == Both(b + y, s, t, m)
  {
    TwoSecrets(b, s, t, m);
    TwoSecrets(Both(b, s, t, m) + y, s, t, m);
    TwoSecrets(b + y, s, t, m);
  }

  /** All runs over two one-line, marker-avoiding secrets are right exactly when the pair is harmless. */
  lemma {:induction false} PairStreamsIff(s: Bytes, t: Bytes, m: Bytes)
    requires MarkerFree(s, m) && MarkerFree(t, m) && OneLine(s) && OneLine(t) && Unbordered(m)
    ensures (forall steps :: AgreesOn([s, t], steps, m)) <==> Harmless(s, t)
  {
    StreamingIff([s, t], m);
    if Harmless(s, t) {
      forall b, y ensures AppendsAt([s, t], b, y, m) {
        HarmlessAppends(b, y, s, t, m);
        PairAppends(s, t, b, y, m);
      }
    } else {
      var b, y := HarmfulCut(s, t, m);
      PairAppends(s, t, b, y, m);
    }
  }

  lemma {:induction false} RedactedUnbordered()
    ensures Unbordered(REDACTED)
  {
    var tail := REDACTED[1..];
    forall k | 0 <= k < |tail| ensures !Compatible(tail[k..], REDACTED) {
      assert tail[k..][0] == tail[k] == REDACTED[k + 1] != REDACTED[0];
    }
  }

  /** The two reads that show it, for the marker in use. */
  lemma {:induction false} HarmfulPairDependsOnCuts(s: Bytes, t: Bytes) returns (b: Bytes, y: Bytes)
    requires MarkerFree(s, REDACTED) && MarkerFree(t, REDACTED) && OneLine(s) && OneLine(t) && !Harmless(s, t)
    ensures !AgreesOn([s, t], [Read(b), Read(y)], REDACTED)
    ensures Ending(s, b + y)
  {
    RedactedUnbordered();
    b, y := HarmfulCut(s, t, REDACTED);
    PairAppends(s, t, b, y, REDACTED);
    TwoReads([s, t], b, y, REDACTED);
  }
}
