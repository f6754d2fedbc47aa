/**
 One output stream of a redacting process, as a run of three kinds of step: bytes read from the
 process are appended and the buffer redacted again, a whole line is handed on, or a bounded chunk
 is handed on while the longest secret less one byte stays behind. At exit the buffer is flushed.
 */
module RedactingStream {
  import opened Redaction

  datatype Step = Read(bytes: Bytes) | Line | Chunk

  /** What was read, what was handed on, and what is buffered. */
  datatype Stream = Stream(read: Bytes, gave: Bytes, buffer: Bytes)

  /** Length of the first line with its newline, 0 when there is none. */
  function LineLength(b: Bytes): (n: nat)
    ensures n <= |b|
    ensures n == 0 ==> NEWLINE !in b
    ensures n > 0 ==> b[n - 1] == NEWLINE && NEWLINE !in b[..n - 1]
  {
    if NEWLINE in b then FirstNewline(b) + 1 else 0
  }

  /** Length of the longest secret. */
  function Longest(secrets: seq<Bytes>): (n: nat)
    ensures forall i | 0 <= i < |secrets| :: |secrets[i]| <= n
    ensures n == 0 || exists i :: 0 <= i < |secrets| && |secrets[i]| == n
  {
    if secrets == [] then 0
    else
      var n := Longest(secrets[1..]);
      if |secrets[0]| >= n then |secrets[0]| else
        assert forall i | 0 <= i < |secrets[1..]| :: secrets[1..][i] == secrets[i + 1];
        n
  }

  function Retained(secrets: seq<Bytes>): nat {
    var n := Longest(secrets);
    if n == 0 then 0 else n - 1
  }

  /** How much of an over-full buffer goes out. */
  function ChunkLength(b: Bytes, secrets: seq<Bytes>): (n: nat)
    ensures n <= |b|
    ensures |b| > CHUNK_BYTES ==> (n == 0 <==> |b| <= Retained(secrets))
  {
    if |b| <= CHUNK_BYTES || |b| <= Retained(secrets) then 0 else |b| - Retained(secrets)
  }

  function Apply(secrets: seq<Bytes>, st: Stream, step: Step, m: Bytes): Stream {
    match step
    case Read(x) => Stream(st.read + x, st.gave, RedactAll(st.buffer + x, secrets, m))
    case Line =>
      var n := LineLength(st.buffer);
      if n == 0 then st
      else Stream(st.read, st.gave + RedactAll(st.buffer[..n], secrets, m), st.buffer[n..])
    case Chunk =>
      var n := ChunkLength(st.buffer, secrets);
      Stream(st.read, st.gave + st.buffer[..n], st.buffer[n..])
  }

  function Replay(secrets: seq<Bytes>, steps: seq<Step>, m: Bytes): Stream {
    if steps == [] then Stream([], [], [])
    else Apply(secrets, Replay(secrets, steps[..|steps| - 1], m), steps[|steps| - 1], m)
  }

  /** Everything handed on once the buffer is flushed at exit. */
  function Flushed(secrets: seq<Bytes>, st: Stream, m: Bytes): Bytes {
    st.gave + RedactAll(st.buffer, secrets, m)
  }

  /** A newline may only end a secret. */
  predicate OneLine(s: Bytes) {
    forall k | 0 <= k < |s| - 1 :: s[k] != NEWLINE
  }

  predicate Redactable(secrets: seq<Bytes>, m: Bytes) {
    AllMarkerFree(secrets, m) && forall i | 0 <= i < |secrets| :: OneLine(secrets[i])
  }

  /** No secret is in the buffer, and none can start in what was handed on. */
  predicate Safe(secrets: seq<Bytes>, st: Stream) {
    forall i | 0 <= i < |secrets| && secrets[i] != [] ::
      NoOccurrence(st.buffer, secrets[i]) && Sealed(st.gave, st.buffer, secrets[i])
  }

  // ---------------------------------------------------------------- what a hand-on keeps

  lemma {:induction false} LineSealed(b: Bytes, s: Bytes)
    requires s != [] && OneLine(s) && NoOccurrence(b, s) && LineLength(b) > 0
    ensures var n := LineLength(b); Sealed(b[..n], b[n..], s)
  {
    var n := LineLength(b);
    forall p | 0 <= p < |b[..n]| ensures !Compatible(s, b[..n][p..] + b[n..]) {
      assert b[..n][p..] + b[n..] == b[p..];
      assert !(s <= b[p..]);
      assert b[p..][n - 1 - p] == NEWLINE;
    }
  }

  lemma {:induction false} ChunkSealed(b: Bytes, s: Bytes, n: nat)
    requires s != [] && NoOccurrence(b, s) && n <= |b|
    requires n == 0 || |s| - 1 <= |b| - n
    ensures Sealed(b[..n], b[n..], s)
  {
    forall p | 0 <= p < |b[..n]| ensures !Compatible(s, b[..n][p..] + b[n..]) {
      assert b[..n][p..] + b[n..] == b[p..];
      assert !(s <= b[p..]);
    }
  }

  /** Moving a sealed front from the buffer to the delivered text keeps every seal. */
  lemma {:induction false} SealMoves(g: Bytes, b: Bytes, n: nat, s: Bytes)
    requires n <= |b| && NoOccurrence(b, s)
    requires Sealed(g, b, s) && Sealed(b[..n], b[n..], s)
    ensures Sealed(g + b[..n], b[n..], s) && NoOccurrence(b[n..], s)
  {
    OccurrencesInSuffix(b, s, n);
    var h := g + b[..n];
    forall p | 0 <= p < |h| ensures !Compatible(s, h[p..] + b[n..]) {
      if p < |g| {
        assert h[p..] + b[n..] == g[p..] + b;
      } else {
        assert h[p..] == b[..n][p - |g|..];
      }
    }
  }

  /** A hand-on step, as the split of the buffer it makes. */
  function HandOn(st: Stream, secrets: seq<Bytes>, step: Step): (n: nat)
    ensures n <= |st.buffer|
  {
    match step
    case Read(_) => 0
    case Line => LineLength(st.buffer)
    case Chunk => ChunkLength(st.buffer, secrets)
  }

  lemma {:induction false} HandOnSealed(secrets: seq<Bytes>, st: Stream, step: Step)
    requires Safe(secrets, st) && forall i | 0 <= i < |secrets| :: OneLine(secrets[i])
    ensures var n := HandOn(st, secrets, step);
            forall i | 0 <= i < |secrets| && secrets[i] != [] :: Sealed(st.buffer[..n], st.buffer[n..], secrets[i])
  {
    var n := HandOn(st, secrets, step);
    forall i | 0 <= i < |secrets| && secrets[i] != []
      ensures Sealed(st.buffer[..n], st.buffer[n..], secrets[i])
    {
      if step.Line? && n > 0 {
        LineSealed(st.buffer, secrets[i]);
      } else {
        ChunkSealed(st.buffer, secrets[i], n);
      }
    }
  }

  /** A line that goes out is redacted once more, which changes nothing. */
  lemma {:induction false} HandOnIsCopy(secrets: seq<Bytes>, st: Stream, step: Step, m: Bytes)
    requires !step.Read? && Safe(secrets, st)
    ensures var n := HandOn(st, secrets, step);
            Apply(secrets, st, step, m) == Stream(st.read, st.gave + st.buffer[..n], st.buffer[n..])
  {
    var n := HandOn(st, secrets, step);
    if step.Line? && n > 0 {
      forall i | 0 <= i < |secrets| && secrets[i] != [] ensures NoOccurrence(st.buffer[..n], secrets[i]) {
        forall k | 0 <= k < n ensures !(secrets[i] <= st.buffer[..n][k..]) {
          assert st.buffer[..n][k..] <= st.buffer[k..];
        }
      }
      NoneToRedact(st.buffer[..n], secrets, m);
    }
  }

  // ---------------------------------------------------------------- whole runs

  lemma {:induction false} RunIsSafe(secrets: seq<Bytes>, steps: seq<Step>, m: Bytes)
    requires Redactable(secrets, m)
    ensures Safe(secrets, Replay(secrets, steps, m))
    decreases |steps|
  {
    if steps != [] {
      var st, step := Replay(secrets, steps[..|steps| - 1], m), steps[|steps| - 1];
      RunIsSafe(secrets, steps[..|steps| - 1], m);
      HandOnSealed(secrets, st, step);
      forall i | 0 <= i < |secrets| && secrets[i] != []
        ensures NoOccurrence(Apply(secrets, st, step, m).buffer, secrets[i])
        ensures Sealed(Apply(secrets, st, step, m).gave, Apply(secrets, st, step, m).buffer, secrets[i])
      {
        if step.Read? {
          AllPassesLeaveNone(st.buffer + step.bytes, secrets, secrets[i], m);
          SealedBeforeMore(st.gave, st.buffer, step.bytes, secrets[i]);
          SealedThroughAll(st.gave, st.buffer + step.bytes, secrets, secrets[i], m);
        } else {
          HandOnIsCopy(secrets, st, step, m);
          SealMoves(st.gave, st.buffer, HandOn(st, secrets, step), secrets[i]);
        }
      }
    }
  }

  /**
   No secret is ever handed on, in any run: not inside one event, not across the boundary of two
   events, and not across the flush at exit.
   */
  lemma {:induction false} NoSecretDelivered(secrets: seq<Bytes>, steps: seq<Step>, s: Bytes, m: Bytes)
    requires Redactable(secrets, m) && s in secrets && s != []
    ensures NoOccurrence(Replay(secrets, steps, m).gave, s)
    ensures NoOccurrence(Flushed(secrets, Replay(secrets, steps, m), m), s)
  {
    var st := Replay(secrets, steps, m);
    RunIsSafe(secrets, steps, m);
    NoneToRedact(st.buffer, secrets, m);
    var i :| 0 <= i < |secrets| && secrets[i] == s;
    NoOccurrenceAcross(st.gave, st.buffer, s);
  }

  lemma {:induction false} NoOccurrenceAcross(g: Bytes, b: Bytes, s: Bytes)
    requires Sealed(g, b, s) && NoOccurrence(b, s)
    ensures NoOccurrence(g, s) && NoOccurrence(g + b, s)
  {
    forall k | 0 <= k < |g + b| ensures !(s <= (g + b)[k..]) {
      if k < |g| {
        assert (g + b)[k..] == g[k..] + b;
        assert !Compatible(s, g[k..] + b);
      } else {
        assert (g + b)[k..] == b[k - |g|..];
      }
    }
    forall k | 0 <= k < |g| ensures !(s <= g[k..]) {
      assert g[k..] <= g[k..] + b;
      assert !Compatible(s, g[k..] + b);
    }
  }

  /** Redacting a redacted text with more behind it is redacting everything once, for these two texts. */
  predicate AppendsAt(secrets: seq<Bytes>, b: Bytes, y: Bytes, m: Bytes) {
    RedactAll(RedactAll(b, secrets, m) + y, secrets, m) == RedactAll(b + y, secrets, m)
  }

  ghost predicate Appending(secrets: seq<Bytes>, m: Bytes) {
    forall b, y :: AppendsAt(secrets, b, y, m)
  }

  /** At every point of every run, what is delivered plus the future of the buffer is the future of the input. */
  lemma {:induction false} RunAgrees(secrets: seq<Bytes>, steps: seq<Step>, y: Bytes, m: Bytes)
    requires Redactable(secrets, m) && Appending(secrets, m)
    ensures var st := Replay(secrets, steps, m);
            st.gave + RedactAll(st.buffer + y, secrets, m) == RedactAll(st.read + y, secrets, m)
    decreases |steps|
  {
    if steps == [] {
      assert [] + y == y;
      assert [] + RedactAll(y, secrets, m) == RedactAll(y, secrets, m);
    } else {
      var st, step := Replay(secrets, steps[..|steps| - 1], m), steps[|steps| - 1];
      if step.Read? {
        RunAgrees(secrets, steps[..|steps| - 1], step.bytes + y, m);
        assert AppendsAt(secrets, st.buffer + step.bytes, y, m);
        Assoc(st.buffer, step.bytes, y);
        Assoc(st.read, step.bytes, y);
      } else {
        RunAgrees(secrets, steps[..|steps| - 1], y, m);
        RunIsSafe(secrets, steps[..|steps| - 1], m);
        HandOnAgrees(secrets, st, step, y, m);
      }
    }
  }

  lemma {:induction false} HandOnAgrees(secrets: seq<Bytes>, st: Stream, step: Step, y: Bytes, m: Bytes)
    requires Redactable(secrets, m) && Safe(secrets, st) && !step.Read?
    ensures var st' := Apply(secrets, st, step, m);
            st'.gave + RedactAll(st'.buffer + y, secrets, m) == st.gave + RedactAll(st.buffer + y, secrets, m)
            && st'.read == st.read
  {
    HandOnIsCopy(secrets, st, step, m);
    HandOnSealed(secrets, st, step);
    var n := HandOn(st, secrets, step);
    var l, rest := st.buffer[..n], st.buffer[n..];
    assert l + rest == st.buffer;
    forall i | 0 <= i < |secrets| ensures secrets[i] == [] || Sealed(l, rest + y, secrets[i]) {
      if secrets[i] != [] {
        SealedBeforeMore(l, rest, y, secrets[i]);
      }
    }
    SealedKept(l, rest + y, secrets, m);
    Assoc(l, rest, y);
    Assoc(st.gave, l, RedactAll(rest + y, secrets, m));
  }

  /** The delivered stream is the one-shot redaction of what was read. */
  predicate AgreesOn(secrets: seq<Bytes>, steps: seq<Step>, m: Bytes) {
    Flushed(secrets, Replay(secrets, steps, m), m) == RedactAll(Replay(secrets, steps, m).read, secrets, m)
  }

  /**
   However the input is cut into reads and whichever hand-ons happen in between, the stream is the
   one-shot redaction.
   */
  lemma {:induction false} StreamingIsOneShot(secrets: seq<Bytes>, steps: seq<Step>, m: Bytes)
    requires Redactable(secrets, m) && Independent(secrets)
    ensures AgreesOn(secrets, steps, m)
  {
    IndependentAppends(secrets, m);
    AppendingStreams(secrets, steps, m);
  }

  lemma {:induction false} AppendingStreams(secrets: seq<Bytes>, steps: seq<Step>, m: Bytes)
    requires Redactable(secrets, m) && Appending(secrets, m)
    ensures AgreesOn(secrets, steps, m)
  {
    RunAgrees(secrets, steps, [], m);
    var st := Replay(secrets, steps, m);
    assert st.buffer + [] == st.buffer && st.read + [] == st.read;
  }

  lemma {:induction false} IndependentAppends(secrets: seq<Bytes>, m: Bytes)
    requires Redactable(secrets, m) && Independent(secrets)
    ensures Appending(secrets, m)
  {
    forall b, y ensures AppendsAt(secrets, b, y, m) {
      RedactAllAppend(b, y, secrets, m);
    }
  }

  /** All runs of any list agree exactly when all runs of two reads do. */
  lemma {:induction false} StreamingIff(secrets: seq<Bytes>, m: Bytes)
    requires Redactable(secrets, m)
    ensures (forall steps :: AgreesOn(secrets, steps, m)) <==> Appending(secrets, m)
  {
    if Appending(secrets, m) {
      forall steps ensures AgreesOn(secrets, steps, m) {
        AppendingStreams(secrets, steps, m);
      }
    }
    if forall steps :: AgreesOn(secrets, steps, m) {
      forall b, y ensures AppendsAt(secrets, b, y, m) {
        assert AgreesOn(secrets, [Read(b), Read(y)], m);
        TwoReads(secrets, b, y, m);
      }
    }
  }

  lemma {:induction false} TwoReads(secrets: seq<Bytes>, b: Bytes, y: Bytes, m: Bytes)
    requires Redactable(secrets, m)
    ensures AgreesOn(secrets, [Read(b), Read(y)], m) <==> AppendsAt(secrets, b, y, m)
  {
    hide RedactAll, Redactable, Safe;
    var steps := [Read(b), Read(y)];
    var st := Replay(secrets, steps, m);
    ReplayTwo(secrets, Read(b), Read(y), m);
    hide Replay;
    assert [] + b == b;
    assert st == Stream(b + y, [], RedactAll(RedactAll(b, secrets, m) + y, secrets, m));
    FlushIsCopy(secrets, steps, m);
    assert [] + st.buffer == st.buffer;
  }

  lemma {:induction false} FlushIsCopy(secrets: seq<Bytes>, steps: seq<Step>, m: Bytes)
    requires Redactable(secrets, m)
    ensures var st := Replay(secrets, steps, m); RedactAll(st.buffer, secrets, m) == st.buffer
  {
    RunIsSafe(secrets, steps, m);
    NoneToRedact(Replay(secrets, steps, m).buffer, secrets, m);
  }

  // ---------------------------------------------------------------- exact side conditions

  /** A run in which a secret with an inner newline is handed on in the clear. */
  function LeakRun(s: Bytes): seq<Step> {
    var n := LineLength(s);
    [Read(s[..n]), Line, Read(s[n..])]
  }

  lemma {:induction false} ReplayMore(secrets: seq<Bytes>, steps: seq<Step>, step: Step, m: Bytes)
    ensures Replay(secrets, steps + [step], m) == Apply(secrets, Replay(secrets, steps, m), step, m)
  {
    assert (steps + [step])[..|steps|] == steps;
  }

  lemma {:induction false} LineOut(s: Bytes, l: Bytes, m: Bytes)
    requires |l| < |s| && LineLength(l) == |l| > 0
    ensures Apply([s], Stream(l, [], l), Line, m) == Stream(l, l, [])
  {
    ShortPiece(l, s, m);
    assert l[..|l|] == l && l[|l|..] == [] && [] + l == l;
  }

  lemma {:induction false} ReadIntoEmpty(s: Bytes, read: Bytes, gave: Bytes, x: Bytes, m: Bytes)
    requires |x| < |s|
    ensures Apply([s], Stream(read, gave, []), Read(x), m) == Stream(read + x, gave, x)
  {
    ShortPiece(x, s, m);
  }

  lemma {:induction false} LeakState(s: Bytes, n: nat, m: Bytes)
    requires n == LineLength(s) && 0 < n < |s|
    ensures Replay([s], LeakRun(s), m) == Stream(s, s[..n], s[n..])
  {
    var l, rest := s[..n], s[n..];
    assert l + rest == s && [] + l == l;
    FirstLine(s, n);
    ReplayThree([s], Read(l), Line, Read(rest), m);
    calc {
      Replay([s], LeakRun(s), m);
      Apply([s], Apply([s], Apply([s], Stream([], [], []), Read(l), m), Line, m), Read(rest), m);
      { ReadIntoEmpty(s, [], [], l, m); }
      Apply([s], Apply([s], Stream(l, [], l), Line, m), Read(rest), m);
      { LineOut(s, l, m); }
      Apply([s], Stream(l, l, []), Read(rest), m);
      { ReadIntoEmpty(s, l, l, rest, m); }
      Stream(s, l, rest);
    }
  }

  lemma {:induction false} ReplayThree(secrets: seq<Bytes>, a: Step, b: Step, c: Step, m: Bytes)
    ensures Replay(secrets, [a, b, c], m)
            == Apply(secrets, Apply(secrets, Apply(secrets, Stream([], [], []), a, m), b, m), c, m)
  {
    assert [a, b, c] == [a, b] + [c];
    ReplayMore(secrets, [a, b], c, m);
    ReplayTwo(secrets, a, b, m);
  }

  lemma {:induction false} InnerNewlineLeaks(s: Bytes, m: Bytes)
    requires s != m && !OneLine(s)
    ensures Replay([s], LeakRun(s), m).read == s
    ensures Flushed([s], Replay([s], LeakRun(s), m), m) == s
    ensures !AgreesOn([s], LeakRun(s), m)
  {
    var n := LineLength(s);
    assert 0 < n < |s|;
    LeakState(s, n, m);
    ShortPiece(s[n..], s, m);
    assert s[..n] + s[n..] == s;
    SingleSecret(s, s, m);
    WholeSecret(s, m);
  }

  lemma {:induction false} WholeSecret(s: Bytes, m: Bytes)
    requires s != []
    ensures Redact(s, s, m) == m
  {
    assert s[|s|..] == [];
    assert m + [] == m;
  }

  lemma {:induction false} ShortPiece(v: Bytes, s: Bytes, m: Bytes)
    requires |v| < |s|
    ensures RedactAll(v, [s], m) == v && RedactAll([] + v, [s], m) == v
  {
    SingleSecret(v, s, m);
    ShortTextKept(v, s, m);
    assert [] + v == v;
  }

  lemma {:induction false} SingleSecret(v: Bytes, s: Bytes, m: Bytes)
    requires s != []
    ensures RedactAll(v, [s], m) == Redact(v, s, m)
  {
    assert [s][1..] == [];
  }

  lemma {:induction false} FirstLine(s: Bytes, n: nat)
    requires n == LineLength(s) && n > 0
    ensures LineLength(s[..n]) == n
  {
    assert s[..n][n - 1] == NEWLINE;
    assert forall k | 0 <= k < n - 1 :: s[..n][k] == s[..n - 1][k] != NEWLINE;
  }

  /**
   For a secret that avoids the marker, the incremental form is right in all runs exactly when no
   newline is inside it.
   */
  lemma {:induction false} ExactNewlineCondition(s: Bytes, m: Bytes)
    requires MarkerFree(s, m)
    ensures (forall steps :: AgreesOn([s], steps, m)) <==> OneLine(s)
  {
    if OneLine(s) {
      forall steps ensures AgreesOn([s], steps, m) {
        StreamingIsOneShot([s], steps, m);
      }
    } else {
      assert m[0..] == m && (m == [] || !Compatible(m[0..], s));
      InnerNewlineLeaks(s, m);
    }
  }

  lemma {:induction false} ReplayTwo(secrets: seq<Bytes>, a: Step, b: Step, m: Bytes)
    ensures Replay(secrets, [a, b], m) == Apply(secrets, Apply(secrets, Stream([], [], []), a, m), b, m)
  {
    assert [a, b] == [a] + [b] && [a] == [] + [a];
    ReplayMore(secrets, [a], b, m);
    ReplayMore(secrets, [], a, m);
  }

  lemma {:induction false} TwoSecrets(v: Bytes, a: Bytes, b: Bytes, m: Bytes)
    requires a != [] && b != []
    ensures RedactAll(v, [a, b], m) == Redact(Redact(v, a, m), b, m)
  {
    assert [a, b][1..] == [b];
    SingleSecret(Redact(v, a, m), b, m);
  }

  // ---------------------------------------------------------------- parts of the marker

  /** A pass never shortens the text, and where it finds a part of the marker it leaves that part and more text. */
  lemma {:induction false} PassGrows(v: Bytes, s: Bytes, m: Bytes)
    requires s != [] && |s| < |m| && !NoOccurrence(m, s)
    ensures |Redact(v, s, m)| >= |v|
    ensures !NoOccurrence(v, s) ==> |Redact(v, s, m)| > |v| && !NoOccurrence(Redact(v, s, m), s)
    decreases |v|
  {
    if v == [] {
    } else if s <= v {
      PassGrows(v[|s|..], s, m);
      OccursInFront(m, Redact(v[|s|..], s, m), s);
    } else {
      PassGrows(v[1..], s, m);
      if !NoOccurrence(v, s) {
        var k :| 0 <= k < |v| && s <= v[k..];
        assert v[0..] == v && v[1..][k - 1..] == v[k..];
        OccursBehind(v[0], Redact(v[1..], s, m), s);
      }
    }
  }

  lemma {:induction false} OccursInFront(a: Bytes, b: Bytes, s: Bytes)
    requires !NoOccurrence(a, s)
    ensures !NoOccurrence(a + b, s)
  {
    var k :| 0 <= k < |a| && s <= a[k..];
    assert (a + b)[k..] == a[k..] + b && s <= (a + b)[k..];
  }

  lemma {:induction false} OccursBehind(c: Byte, b: Bytes, s: Bytes)
    requires !NoOccurrence(b, s)
    ensures !NoOccurrence([c] + b, s)
  {
    var k :| 0 <= k < |b| && s <= b[k..];
    assert ([c] + b)[k + 1..] == b[k..];
  }

  /** The secret is read, then nothing `n` times. */
  function EmptyReads(s: Bytes, n: nat): (steps: seq<Step>)
    ensures |steps| == n + 1
  {
    if n == 0 then [Read(s)] else EmptyReads(s, n - 1) + [Read([])]
  }

  /** Every read wraps the marker again, even one that brings nothing. */
  lemma {:induction false} MarkerPartGrows(s: Bytes, m: Bytes, n: nat)
    requires s != [] && |s| < |m| && !NoOccurrence(m, s)
    ensures var b := Replay([s], EmptyReads(s, n), m).buffer; |b| >= |m| + n && !NoOccurrence(b, s)
  {
    hide *;
    if n == 0 {
      FirstEmptyRead(s, m);
    } else {
      var b := Replay([s], EmptyReads(s, n - 1), m).buffer;
      MarkerPartGrows(s, m, n - 1);
      NextEmptyRead(s, n, m);
      PassGrows(b, s, m);
    }
  }

  lemma {:induction false} FirstEmptyRead(s: Bytes, m: Bytes)
    requires s != []
    ensures Replay([s], EmptyReads(s, 0), m).buffer == m
  {
    ReadBuffers(s, [], s, m);
    WholeSecret(s, m);
    hide Redact, Replay;
    assert [] + [Read(s)] == [Read(s)] && [] + s == s;
  }

  lemma {:induction false} NextEmptyRead(s: Bytes, n: nat, m: Bytes)
    requires s != [] && n > 0
    ensures Replay([s], EmptyReads(s, n), m).buffer == Redact(Replay([s], EmptyReads(s, n - 1), m).buffer, s, m)
  {
    var b := Replay([s], EmptyReads(s, n - 1), m).buffer;
    ReadBuffers(s, EmptyReads(s, n - 1), [], m);
    assert b + [] == b;
    hide Redact, Replay;
  }

  lemma {:induction false} ReadBuffers(s: Bytes, steps: seq<Step>, x: Bytes, m: Bytes)
    requires s != []
    ensures Replay([s], steps + [Read(x)], m).buffer == Redact(Replay([s], steps, m).buffer + x, s, m)
    ensures Replay([s], [], m).buffer == []
  {
    ReplayMore([s], steps, Read(x), m);
    SingleSecret(Replay([s], steps, m).buffer + x, s, m);
    hide Redact, RedactAll;
  }

  // ---------------------------------------------------------------- several lives

  /** No secret occurs in the text. */
  ghost predicate Withheld(secrets: seq<Bytes>, text: Bytes) {
    forall s | s in secrets && s != [] :: NoOccurrence(text, s)
  }

  /** No byte of the text is a secret by itself. */
  predicate Bare(secrets: seq<Bytes>, text: Bytes) {
    forall i | 0 <= i < |text| :: [text[i]] !in secrets
  }

  /** Every secret holds a byte that is a secret by itself. */
  predicate AllCovered(secrets: seq<Bytes>) {
    forall s | s in secrets && s != [] :: !Bare(secrets, s)
  }

  /** What a process hands on that writes again after each exit: every life is flushed at its end. */
  function FlushedLives(secrets: seq<Bytes>, lives: seq<seq<Step>>, m: Bytes): Bytes {
    if lives == [] then []
    else
      FlushedLives(secrets, lives[..|lives| - 1], m)
      + Flushed(secrets, Replay(secrets, lives[|lives| - 1], m), m)
  }

  lemma {:induction false} WithheldIsBare(secrets: seq<Bytes>, text: Bytes)
    requires Withheld(secrets, text)
    ensures Bare(secrets, text)
  {
    forall i | 0 <= i < |text| ensures [text[i]] !in secrets {
      assert [text[i]] <= text[i..];
      assert [text[i]] in secrets ==> !NoOccurrence(text, [text[i]]);
    }
  }

  lemma {:induction false} BareJoins(secrets: seq<Bytes>, a: Bytes, b: Bytes)
    requires Bare(secrets, a) && Bare(secrets, b)
    ensures Bare(secrets, a + b)
  {
  }

  lemma {:induction false} BareIsWithheld(secrets: seq<Bytes>, text: Bytes)
    requires Bare(secrets, text) && AllCovered(secrets)
    ensures Withheld(secrets, text)
  {
    forall s | s in secrets && s != [] ensures NoOccurrence(text, s) {
      var i :| 0 <= i < |s| && [s[i]] in secrets;
      forall k | 0 <= k < |text| ensures !(s <= text[k..]) {
        if k + i < |text| {
          assert text[k..][i] == text[k + i];
        }
      }
    }
  }

  lemma {:induction false} LivesAreBare(secrets: seq<Bytes>, lives: seq<seq<Step>>, m: Bytes)
    requires Redactable(secrets, m)
    ensures Bare(secrets, FlushedLives(secrets, lives, m))
    decreases |lives|
  {
    if lives != [] {
      var n := |lives| - 1;
      LivesAreBare(secrets, lives[..n], m);
      var last := Flushed(secrets, Replay(secrets, lives[n], m), m);
      forall s | s in secrets && s != [] ensures NoOccurrence(last, s) {
        NoSecretDelivered(secrets, lives[n], s, m);
      }
      WithheldIsBare(secrets, last);
      BareJoins(secrets, FlushedLives(secrets, lives[..n], m), last);
    }
  }

  /** One life for every byte. */
  function ByteLives(s: Bytes): (lives: seq<seq<Step>>)
    ensures |lives| == |s|
  {
    if s == [] then [] else ByteLives(s[..|s| - 1]) + [[Read([s[|s| - 1]])]]
  }

  lemma {:induction false} OneByteRead(secrets: seq<Bytes>, b: Byte, m: Bytes)
    requires [b] !in secrets
    ensures Flushed(secrets, Replay(secrets, [Read([b])], m), m) == [b]
  {
    forall i | 0 <= i < |secrets| ensures secrets[i] == [] || NoOccurrence([b], secrets[i]) {
      assert [b][0..] == [b] && secrets[i] != [b];
    }
    NoneToRedact([b], secrets, m);
    ReplayMore(secrets, [], Read([b]), m);
    hide RedactAll;
    assert [] + [Read([b])] == [Read([b])] && [] + [b] == [b];
  }

  lemma {:induction false} ByteLivesLeak(secrets: seq<Bytes>, s: Bytes, m: Bytes)
    requires Bare(secrets, s)
    ensures FlushedLives(secrets, ByteLives(s), m) == s
    decreases |s|
  {
    if s != [] {
      var n := |s| - 1;
      assert Bare(secrets, s[..n]);
      ByteLivesLeak(secrets, s[..n], m);
      OneByteRead(secrets, s[n], m);
      hide Flushed, Replay;
      assert ByteLives(s)[..n] == ByteLives(s[..n]) && s == s[..n] + [s[n]];
    }
  }

  /**
   No secret is handed on over any number of lives exactly when every secret holds a byte that is a
   secret by itself; any other one comes out in the clear if each of its bytes is a life of its own.
   */
  lemma {:induction false} LivesWithholdIff(secrets: seq<Bytes>, m: Bytes)
    requires Redactable(secrets, m)
    ensures (forall lives :: Withheld(secrets, FlushedLives(secrets, lives, m))) <==> AllCovered(secrets)
  {
    if AllCovered(secrets) {
      forall lives ensures Withheld(secrets, FlushedLives(secrets, lives, m)) {
        LivesAreBare(secrets, lives, m);
        BareIsWithheld(secrets, FlushedLives(secrets, lives, m));
      }
    } else {
      var s :| s in secrets && s != [] && Bare(secrets, s);
      ByteLivesLeak(secrets, s, m);
      assert s[0..] == s && !NoOccurrence(s, s);
      assert !Withheld(secrets, FlushedLives(secrets, ByteLives(s), m));
    }
  }

  /** For one secret that is: exactly when it has one byte. */
  lemma {:induction false} OneSecretWithheldIff(s: Bytes, m: Bytes)
    requires MarkerFree(s, m) && OneLine(s)
    ensures (forall lives :: NoOccurrence(FlushedLives([s], lives, m), s)) <==> |s| == 1
  {
    LivesWithholdIff([s], m);
    assert forall text :: Withheld([s], text) <==> NoOccurrence(text, s);
    assert !Bare([s], s) <==> |s| == 1 by {
      if |s| == 1 {
        assert [s[0]] == s;
      }
    }
    assert AllCovered([s]) <==> !Bare([s], s);
  }

  // ---------------------------------------------------------------- progress

  /** Over-full, without a line to hand on, and yet all of it is held back. */
  predicate Stuck(secrets: seq<Bytes>, buffer: Bytes) {
    NEWLINE !in buffer && |buffer| > CHUNK_BYTES && ChunkLength(buffer, secrets) == 0
  }

  /** Every hand-on leaves a stuck stream as it is. */
  lemma {:induction false} StuckStays(secrets: seq<Bytes>, st: Stream, step: Step, m: Bytes)
    requires Stuck(secrets, st.buffer) && !step.Read?
    ensures Apply(secrets, st, step, m) == st
  {
    assert st.gave + [] == st.gave && st.buffer[0..] == st.buffer;
  }

  /** Nothing but the first byte of the marker. */
  function Fill(n: nat, m: Bytes): (v: Bytes)
    requires m != []
    ensures |v| == n && forall i | 0 <= i < n :: v[i] == m[0]
  {
    seq(n, _ => m[0])
  }

  lemma {:induction false} NoneInFill(v: Bytes, s: Bytes, m: Bytes)
    requires MarkerFree(s, m) && m != [] && forall i | 0 <= i < |v| :: v[i] == m[0]
    ensures NoOccurrence(v, s)
  {
    var n := |s| - 1;
    assert s[n] != m[0] by {
      assert !Compatible(s[n..], m) && s[n..] == [s[n]];
    }
    forall k | 0 <= k < |v| ensures !(s <= v[k..]) {
      if n < |v| - k {
        assert v[k..][n] == v[k + n] == m[0];
      }
    }
  }

  lemma {:induction false} FillKept(n: nat, secrets: seq<Bytes>, m: Bytes)
    requires AllMarkerFree(secrets, m) && m != []
    ensures RedactAll(Fill(n, m), secrets, m) == Fill(n, m)
  {
    hide Fill;
    forall i | 0 <= i < |secrets| ensures secrets[i] == [] || NoOccurrence(Fill(n, m), secrets[i]) {
      if secrets[i] != [] {
        NoneInFill(Fill(n, m), secrets[i], m);
      }
    }
    NoneToRedact(Fill(n, m), secrets, m);
  }

  lemma {:induction false} OneCleanRead(secrets: seq<Bytes>, v: Bytes, m: Bytes)
    requires RedactAll(v, secrets, m) == v
    ensures Replay(secrets, [Read(v)], m) == Stream(v, [], v)
  {
    ReplayMore(secrets, [], Read(v), m);
    hide RedactAll;
    assert [] + [Read(v)] == [Read(v)] && [] + v == v;
  }

  lemma {:induction false} FillHasNoNewline(n: nat, m: Bytes)
    requires m != [] && NEWLINE !in m
    ensures NEWLINE !in Fill(n, m)
  {
    hide Fill;
    assert m[0] != NEWLINE;
  }

  lemma {:induction false} TooMuchSticks(secrets: seq<Bytes>, m: Bytes)
    requires AllMarkerFree(secrets, m) && m != [] && NEWLINE !in m && Longest(secrets) > CHUNK_BYTES + 1
    ensures var v := Fill(CHUNK_BYTES + 1, m); Stuck(secrets, v) && Replay(secrets, [Read(v)], m) == Stream(v, [], v)
  {
    var v := Fill(CHUNK_BYTES + 1, m);
    FillKept(CHUNK_BYTES + 1, secrets, m);
    FillHasNoNewline(CHUNK_BYTES + 1, m);
    hide RedactAll, Fill, AllMarkerFree, Replay;
    OneCleanRead(secrets, v, m);
  }

  /**
   No run gets stuck exactly when the longest secret has at most 16385 bytes; beyond that one read is
   enough.
   */
  lemma {:induction false} ExactProgressCondition(secrets: seq<Bytes>, m: Bytes)
    requires AllMarkerFree(secrets, m) && NEWLINE !in m
    ensures (forall steps :: !Stuck(secrets, Replay(secrets, steps, m).buffer))
            <==> Longest(secrets) <= 16385
  {
    if Longest(secrets) > CHUNK_BYTES + 1 {
      assert m != [] by {
        var i :| 0 <= i < |secrets| && |secrets[i]| == Longest(secrets);
        assert !Compatible(secrets[i][0..], m);
      }
      TooMuchSticks(secrets, m);
      hide Stuck, Fill, Replay;
      assert Stuck(secrets, Replay(secrets, [Read(Fill(CHUNK_BYTES + 1, m))], m).buffer);
    } else {
      hide Replay;
    }
  }
}
