/**
 One secret in one stream, whatever it is and whatever the marker is: exactly which secrets are
 streamed right. A secret need not avoid the marker altogether; it is enough that no text the
 redaction leaves can hold it.
 */
module SingleSecret {
  import opened Redaction
  import opened RedactingStream

  /** Where the first `k` bytes of `s` stand in front of an `s`, another one starts in them. */
  predicate StartsEarlier(s: Bytes, k: nat)
    requires k <= |s|
  {
    exists j :: 0 <= j < k && s <= s[..k][j..] + s
  }

  /**
   No `s` can start in a marker, and none can start in front of one: a front of `s` that would need a
   marker behind it never stays in front of a replaced `s`.
   */
  predicate Clear(s: Bytes, m: Bytes) {
    && s != [] && Apart(m, s)
    && forall k | 0 < k < |s| :: Compatible(s[k..], m) ==> StartsEarlier(s, k)
  }

  /** Avoiding the marker is enough. */
  lemma {:induction false} MarkerFreeIsClear(s: Bytes, m: Bytes)
    requires MarkerFree(s, m)
    ensures Clear(s, m)
  {
  }

  // ---------------------------------------------------------------- clear secrets

  /** No `s` starts in `tail`, which stands in front of `w`. */
  predicate NoneFrom(tail: Bytes, w: Bytes, s: Bytes) {
    forall j | 0 <= j < |tail| :: !(s <= tail[j..] + w)
  }

  /** A clear secret that shows behind kept text after a pass was there, or could come, before it. */
  lemma {:induction false} SpillBeforePass(tail: Bytes, w: Bytes, y: Bytes, s: Bytes, m: Bytes)
    requires Clear(s, m) && NoneFrom(tail, w, s) && s <= tail + (Redact(w, s, m) + y)
    ensures Compatible(s, tail + w)
    ensures s <= tail + Redact(w, s, m) ==> s <= tail + w
    decreases |w|
  {
    if |s| <= |tail| || w == [] || (tail == [] && s <= w) {
    } else if s <= w {
      MarkerBehindTail(tail, w, y, s, m);
    } else {
      var tail', w' := tail + [w[0]], w[1..];
      StepTail(tail, w, s);
      var r := Redact(w', s, m);
      assert tail + (([w[0]] + r) + y) == tail' + (r + y);
      assert tail + ([w[0]] + r) == tail' + r;
      assert tail + w == tail' + w';
      SpillBeforePass(tail', w', y, s, m);
    }
  }

  lemma {:induction false} StepTail(tail: Bytes, w: Bytes, s: Bytes)
    requires w != [] && !(s <= w) && NoneFrom(tail, w, s)
    ensures NoneFrom(tail + [w[0]], w[1..], s)
  {
    var tail' := tail + [w[0]];
    forall j | 0 <= j < |tail'| ensures !(s <= tail'[j..] + w[1..]) {
      if j < |tail| {
        assert tail'[j..] + w[1..] == tail[j..] + w;
      } else {
        assert tail'[j..] + w[1..] == w;
      }
    }
  }

  /** A marker right behind a front of `s` means that an `s` started earlier. */
  lemma {:induction false} MarkerBehindTail(tail: Bytes, w: Bytes, y: Bytes, s: Bytes, m: Bytes)
    requires Clear(s, m) && s <= w && 0 < |tail| < |s| && s <= tail + (Redact(w, s, m) + y)
    ensures !NoneFrom(tail, w, s)
  {
    var k := |tail|;
    var r := Redact(w[|s|..], s, m);
    assert s[..k] == tail;
    assert (tail + ((m + r) + y))[k..] == m + (r + y);
    assert s[k..] <= m + (r + y);
    assert Compatible(s[k..], m);
    var j :| 0 <= j < k && s <= s[..k][j..] + s;
    assert w == s + w[|s|..];
    Assoc(tail[j..], s, w[|s|..]);
    assert s <= tail[j..] + w;
  }

  lemma {:induction false} NoNewFrontClear(v: Bytes, s: Bytes, m: Bytes)
    requires Clear(s, m) && !(s <= v)
    ensures !(s <= Redact(v, s, m))
  {
    var r := Redact(v, s, m);
    assert [] + (r + []) == r && [] + r == r && [] + v == v;
    if s <= r {
      SpillBeforePass([], v, [], s, m);
    }
  }

  lemma {:induction false} PassLeavesNone(v: Bytes, s: Bytes, m: Bytes)
    requires Clear(s, m)
    ensures NoOccurrence(Redact(v, s, m), s)
    decreases |v|
  {
    if v == [] {
    } else if s <= v {
      PassLeavesNone(v[|s|..], s, m);
      NoneBehindMarker(Redact(v[|s|..], s, m), s, m);
    } else {
      PassLeavesNone(v[1..], s, m);
      NoNewFrontClear(v, s, m);
      NoneBehindByte(v[0], Redact(v[1..], s, m), s);
    }
  }

  /** Redacting what was already redacted, with more text behind it, changes nothing. */
  lemma {:induction false} ClearAppends(b: Bytes, y: Bytes, s: Bytes, m: Bytes)
    requires Clear(s, m)
    ensures Redact(Redact(b, s, m) + y, s, m) == Redact(b + y, s, m)
    decreases |b|
  {
    if |b| < |s| {
      ShortTextKept(b, s, m);
    } else if s <= b {
      ClearAppends(b[|s|..], y, s, m);
      AppendAtSecret(b, y, s, m);
    } else {
      ClearAppends(b[1..], y, s, m);
      AppendAtByte(b, y, s, m);
    }
  }

  lemma {:induction false} AppendAtSecret(b: Bytes, y: Bytes, s: Bytes, m: Bytes)
    requires s != [] && s <= b && Apart(m, s)
    ensures Redact(Redact(b, s, m) + y, s, m) == m + Redact(Redact(b[|s|..], s, m) + y, s, m)
    ensures Redact(b + y, s, m) == m + Redact(b[|s|..] + y, s, m)
  {
    var rest := b[|s|..];
    assert (b + y)[|s|..] == rest + y;
    assert Redact(b, s, m) == m + Redact(rest, s, m) && Redact(b + y, s, m) == m + Redact(rest + y, s, m);
    hide Redact;
    Assoc(m, Redact(rest, s, m), y);
    MarkerKept(Redact(rest, s, m) + y, s, m);
  }

  lemma {:induction false} AppendAtByte(b: Bytes, y: Bytes, s: Bytes, m: Bytes)
    requires Clear(s, m) && |s| <= |b| && !(s <= b)
    ensures Redact(Redact(b, s, m) + y, s, m) == [b[0]] + Redact(Redact(b[1..], s, m) + y, s, m)
    ensures Redact(b + y, s, m) == [b[0]] + Redact(b[1..] + y, s, m)
  {
    assert Redact(b, s, m) == [b[0]] + Redact(b[1..], s, m);
    NoFalseFrontClear(s, b, y, m);
    hide Redact, Clear;
    assert [b[0]] + b[1..] == b;
    HeadCopied(b[0], Redact(b[1..], s, m), y, s, m);
    HeadCopied(b[0], b[1..], y, s, m);
  }

  lemma {:induction false} NoFalseFrontClear(s: Bytes, b: Bytes, y: Bytes, m: Bytes)
    requires Clear(s, m) && |s| <= |b| && !(s <= b)
    ensures !(s <= Redact(b, s, m) + y) && !(s <= b + y)
  {
    var r := Redact(b, s, m);
    assert [] + (r + y) == r + y && [] + b == b;
    if s <= r + y {
      SpillBeforePass([], b, y, s, m);
    }
  }

  lemma {:induction false} SealedThroughClear(g: Bytes, w: Bytes, s: Bytes, m: Bytes)
    requires Clear(s, m) && Sealed(g, w, s)
    ensures Sealed(g, Redact(w, s, m), s)
  {
    var r := Redact(w, s, m);
    forall p | 0 <= p < |g| ensures !Compatible(s, g[p..] + r) {
      assert !Compatible(s, g[p..] + w);
      SealedTail(g, p, w, s);
      if Compatible(s, g[p..] + r) {
        TailBeforeClear(g[p..], w, s, m);
      }
    }
  }

  lemma {:induction false} SealedTail(g: Bytes, p: nat, w: Bytes, s: Bytes)
    requires Sealed(g, w, s) && p < |g|
    ensures NoneFrom(g[p..], w, s)
  {
    forall j | 0 <= j < |g[p..]| ensures !(s <= g[p..][j..] + w) {
      assert g[p..][j..] == g[p + j..];
      assert !Compatible(s, g[p + j..] + w);
    }
  }

  lemma {:induction false} TailBeforeClear(tail: Bytes, w: Bytes, s: Bytes, m: Bytes)
    requires Clear(s, m) && NoneFrom(tail, w, s) && Compatible(s, tail + Redact(w, s, m))
    ensures Compatible(s, tail + w)
  {
    var r := Redact(w, s, m);
    var y := if s <= tail + r then [] else s[|tail + r|..];
    Assoc(tail, r, y);
    assert s <= (tail + r) + y;
    SpillBeforePass(tail, w, y, s, m);
  }

  // ---------------------------------------------------------------- whole runs

  lemma {:induction false} ClearRunIsSafe(s: Bytes, steps: seq<Step>, m: Bytes)
    requires Clear(s, m) && OneLine(s)
    ensures Safe([s], Replay([s], steps, m))
    decreases |steps|
  {
    if steps != [] {
      var st, step := Replay([s], steps[..|steps| - 1], m), steps[|steps| - 1];
      ClearRunIsSafe(s, steps[..|steps| - 1], m);
      ClearStepIsSafe(s, st, step, m);
    }
  }

  lemma {:induction false} ClearStepIsSafe(s: Bytes, st: Stream, step: Step, m: Bytes)
    requires Clear(s, m) && OneLine(s) && Safe([s], st)
    ensures Safe([s], Apply([s], st, step, m))
  {
    assert [s][0] == s && NoOccurrence(st.buffer, s) && Sealed(st.gave, st.buffer, s);
    if step.Read? {
      var w := st.buffer + step.bytes;
      SingleSecret(w, s, m);
      PassLeavesNone(w, s, m);
      SealedBeforeMore(st.gave, st.buffer, step.bytes, s);
      SealedThroughClear(st.gave, w, s, m);
      hide Redact, RedactAll, Clear;
    } else {
      HandOnSealed([s], st, step);
      HandOnIsCopy([s], st, step, m);
      SealMoves(st.gave, st.buffer, HandOn(st, [s], step), s);
    }
  }

  /** At every point of every run, what is delivered plus the future of the buffer is the future of the input. */
  lemma {:induction false} ClearRunAgrees(s: Bytes, steps: seq<Step>, y: Bytes, m: Bytes)
    requires Clear(s, m) && OneLine(s)
    ensures var st := Replay([s], steps, m); st.gave + Redact(st.buffer + y, s, m) == Redact(st.read + y, s, m)
    decreases |steps|
  {
    if steps == [] {
      assert [] + y == y && [] + Redact(y, s, m) == Redact(y, s, m);
    } else {
      var st, step := Replay([s], steps[..|steps| - 1], m), steps[|steps| - 1];
      if step.Read? {
        ClearRunAgrees(s, steps[..|steps| - 1], step.bytes + y, m);
        SingleSecret(st.buffer + step.bytes, s, m);
        ClearAppends(st.buffer + step.bytes, y, s, m);
        Assoc(st.buffer, step.bytes, y);
        Assoc(st.read, step.bytes, y);
      } else {
        ClearRunAgrees(s, steps[..|steps| - 1], y, m);
        ClearRunIsSafe(s, steps[..|steps| - 1], m);
        ClearHandOnAgrees(s, st, step, y, m);
      }
    }
  }

  lemma {:induction false} ClearHandOnAgrees(s: Bytes, st: Stream, step: Step, y: Bytes, m: Bytes)
    requires s != [] && OneLine(s) && Safe([s], st) && !step.Read?
    ensures var st' := Apply([s], st, step, m);
            st'.gave + Redact(st'.buffer + y, s, m) == st.gave + Redact(st.buffer + y, s, m) && st'.read == st.read
  {
    HandOnIsCopy([s], st, step, m);
    HandOnSealed([s], st, step);
    var n := HandOn(st, [s], step);
    var l, rest := st.buffer[..n], st.buffer[n..];
    assert [s][0] == s && Sealed(l, rest, s) && l + rest == st.buffer;
    SealedBeforeMore(l, rest, y, s);
    forall k | 0 <= k < |l| ensures !(s <= l[k..] + (rest + y)) {
      assert !Compatible(s, l[k..] + (rest + y));
    }
    CleanTextKept(l, rest + y, s, m);
    hide Redact, Apply;
    Assoc(l, rest, y);
    Assoc(st.gave, l, Redact(rest + y, s, m));
  }

  lemma {:induction false} ClearStreams(s: Bytes, steps: seq<Step>, m: Bytes)
    requires Clear(s, m) && OneLine(s)
    ensures AgreesOn([s], steps, m)
  {
    var st := Replay([s], steps, m);
    ClearRunAgrees(s, steps, [], m);
    SingleSecret(st.buffer, s, m);
    SingleSecret(st.read, s, m);
    hide Redact, RedactAll, Replay;
    assert st.buffer + [] == st.buffer && st.read + [] == st.read;
  }

  // ---------------------------------------------------------------- other secrets

  /** A secret that is the marker is replaced by itself. */
  lemma {:induction false} MarkerForItself(v: Bytes, m: Bytes)
    requires m != []
    ensures Redact(v, m, m) == v
    decreases |v|
  {
    if v != [] {
      if m <= v {
        MarkerForItself(v[|m|..], m);
        assert m + v[|m|..] == v;
      } else {
        MarkerForItself(v[1..], m);
        assert [v[0]] + v[1..] == v;
      }
    }
  }

  lemma {:induction false} MarkerStreams(steps: seq<Step>, m: Bytes)
    requires m != []
    ensures var st := Replay([m], steps, m); st.gave + st.buffer == st.read
    decreases |steps|
  {
    if steps != [] {
      var st, step := Replay([m], steps[..|steps| - 1], m), steps[|steps| - 1];
      MarkerStreams(steps[..|steps| - 1], m);
      MarkerStep(st, step, m);
    }
  }

  lemma {:induction false} MarkerStep(st: Stream, step: Step, m: Bytes)
    requires m != [] && st.gave + st.buffer == st.read
    ensures var st' := Apply([m], st, step, m); st'.gave + st'.buffer == st'.read
  {
    match step
    case Read(x) =>
      SingleSecret(st.buffer + x, m, m);
      MarkerForItself(st.buffer + x, m);
      Assoc(st.gave, st.buffer, x);
    case Line =>
      var n := LineLength(st.buffer);
      SingleSecret(st.buffer[..n], m, m);
      MarkerForItself(st.buffer[..n], m);
      assert st.buffer[..n] + st.buffer[n..] == st.buffer;
      Assoc(st.gave, st.buffer[..n], st.buffer[n..]);
    case Chunk =>
      var n := ChunkLength(st.buffer, [m]);
      assert st.buffer[..n] + st.buffer[n..] == st.buffer;
      Assoc(st.gave, st.buffer[..n], st.buffer[n..]);
  }

  /** A text that a pass leaves with an `s` in it. */
  lemma {:induction false} ClashText(s: Bytes, m: Bytes) returns (v: Bytes)
    requires s != [] && !Clear(s, m)
    ensures !NoOccurrence(Redact(v, s, m), s)
  {
    if !Apart(m, s) {
      var k :| 0 <= k < |m| && Compatible(m[k..], s);
      v := StartsInMarker(s, m, k);
    } else {
      var k :| 0 < k < |s| && Compatible(s[k..], m) && !StartsEarlier(s, k);
      v := StartsBeforeMarker(s, m, k);
    }
  }

  lemma {:induction false} OccursAt(w: Bytes, k: nat, s: Bytes)
    requires k < |w| && s <= w[k..]
    ensures !NoOccurrence(w, s)
  {
  }

  lemma {:induction false} SecretThen(s: Bytes, q: Bytes, m: Bytes)
    requires |q| < |s|
    ensures Redact(s + q, s, m) == m + q
  {
    assert (s + q)[|s|..] == q;
    ShortTextKept(q, s, m);
  }

  lemma {:induction false} StartsInMarker(s: Bytes, m: Bytes, k: nat) returns (v: Bytes)
    requires s != [] && k < |m| && Compatible(m[k..], s)
    ensures !NoOccurrence(Redact(v, s, m), s)
  {
    var q := if |m| - k < |s| then s[|m| - k..] else [];
    v := s + q;
    SecretThen(s, q, m);
    hide Redact, NoOccurrence;
    assert (m + q)[k..] == m[k..] + q;
    if |m| - k < |s| {
      assert m[k..] + q == s;
    }
    OccursAt(m + q, k, s);
  }

  lemma {:induction false} StartsBeforeMarker(s: Bytes, m: Bytes, k: nat) returns (v: Bytes)
    requires 0 < k < |s| && Compatible(s[k..], m) && !StartsEarlier(s, k)
    ensures !NoOccurrence(Redact(v, s, m), s)
  {
    var p := s[..k];
    var q := if |m| <= |s| - k then s[k + |m|..] else [];
    v := p + (s + q);
    forall j | 0 <= j < |p| ensures !(s <= p[j..] + (s + q)) {
      Assoc(p[j..], s, q);
      assert !(s <= s[..k][j..] + s);
    }
    CleanTextKept(p, s + q, s, m);
    SecretThen(s, q, m);
    hide *;
    FrontOfMarker(s, k, m, q);
  }

  lemma {:induction false} FrontOfMarker(s: Bytes, k: nat, m: Bytes, q: Bytes)
    requires k < |s| && Compatible(s[k..], m) && q == if |m| <= |s| - k then s[k + |m|..] else []
    ensures !NoOccurrence(s[..k] + (m + q), s)
  {
    var w := s[..k] + (m + q);
    assert s[k..] <= m + q by {
      if |m| <= |s| - k {
        assert s[k..][|m|..] == q;
      }
    }
    assert s == s[..k] + s[k..];
    assert s <= w && w[0..] == w;
    OccursAt(w, 0, s);
  }

  /** A pass over text with an `s` in it changes the text. */
  lemma {:induction false} PassChanges(w: Bytes, s: Bytes, m: Bytes)
    requires s != [] && s != m && !NoOccurrence(w, s)
    ensures Redact(w, s, m) != w
    decreases |w|
  {
    if s <= w {
      var rest := w[|s|..];
      LengthMoves(rest, s, m);
      assert w == s + rest;
      assert (m + Redact(rest, s, m))[..|m|] == m && (s + rest)[..|s|] == s;
    } else {
      var k :| 0 <= k < |w| && s <= w[k..];
      assert w[0..] == w && w[1..][k - 1..] == w[k..];
      PassChanges(w[1..], s, m);
      assert Redact(w, s, m)[1..] == Redact(w[1..], s, m);
    }
  }

  /** A longer marker never shortens a text, a shorter one never lengthens it. */
  lemma {:induction false} LengthMoves(v: Bytes, s: Bytes, m: Bytes)
    requires s != []
    ensures |m| >= |s| ==> |Redact(v, s, m)| >= |v|
    ensures |m| <= |s| ==> |Redact(v, s, m)| <= |v|
    decreases |v|
  {
    if v != [] {
      LengthMoves(if s <= v then v[|s|..] else v[1..], s, m);
    }
  }

  lemma {:induction false} ClashFails(s: Bytes, m: Bytes) returns (v: Bytes)
    requires s != [] && s != m && !Clear(s, m)
    ensures !AgreesOn([s], [Read(v)], m)
  {
    v := ClashText(s, m);
    var w := Redact(v, s, m);
    PassChanges(w, s, m);
    SingleSecret(v, s, m);
    SingleSecret(w, s, m);
    ReplayMore([s], [], Read(v), m);
    hide Redact, RedactAll, Clear, NoOccurrence;
    assert [] + [Read(v)] == [Read(v)] && [] + v == v;
    assert [] + Redact(w, s, m) == Redact(w, s, m);
  }

  /**
   Any one secret and any marker: all runs are right exactly when the secret is the marker itself, or no
   newline is inside it and no text that the redaction leaves can hold it.
   */
  lemma {:induction false} SingleSecretIff(s: Bytes, m: Bytes)
    requires s != []
    ensures (forall steps :: AgreesOn([s], steps, m)) <==> s == m || (OneLine(s) && Clear(s, m))
  {
    if s == m {
      forall steps ensures AgreesOn([s], steps, m) {
        MarkerAgrees(steps, m);
      }
    } else if OneLine(s) && Clear(s, m) {
      forall steps ensures AgreesOn([s], steps, m) {
        ClearStreams(s, steps, m);
      }
    } else if !OneLine(s) {
      InnerNewlineLeaks(s, m);
    } else {
      var v := ClashFails(s, m);
    }
  }

  lemma {:induction false} MarkerAgrees(steps: seq<Step>, m: Bytes)
    requires m != []
    ensures AgreesOn([m], steps, m)
  {
    var st := Replay([m], steps, m);
    MarkerStreams(steps, m);
    SingleSecret(st.buffer, m, m);
    SingleSecret(st.read, m, m);
    MarkerForItself(st.buffer, m);
    MarkerForItself(st.read, m);
  }

  /** What a pass leaves never holds a clear secret, and can hold any other one but the marker itself. */
  lemma {:induction false} ClearIff(s: Bytes, m: Bytes)
    requires s != []
    ensures (forall v :: NoOccurrence(Redact(v, s, m), s)) <==> Clear(s, m)
  {
    if Clear(s, m) {
      forall v ensures NoOccurrence(Redact(v, s, m), s) {
        PassLeavesNone(v, s, m);
      }
    } else {
      var v := ClashText(s, m);
    }
  }
}
