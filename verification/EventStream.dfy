/**
 Draining server-sent events out of a growing text, as the UTF-8 bytes the text consists of. What
 one complete event block means (its data lines joined, parsed and re-encoded) is a parameter: no
 data, one frame, or malformed data. So is the check that a chunk is UTF-8.
 */
module EventStream {
  import opened Redaction
  import opened Process
  import opened Spelling

  datatype Block = Silent | Frame(text: Bytes) | Malformed

  type Decode = Bytes -> Block

  const CARRIAGE_RETURN: Byte := 13

  /** A blank line starts at `k`: LF-LF, or CRLF-CRLF. */
  predicate At(s: Bytes, k: nat, crlf: bool) {
    if crlf then
      && k + 4 <= |s| && s[k] == CARRIAGE_RETURN && s[k + 1] == NEWLINE
      && s[k + 2] == CARRIAGE_RETURN && s[k + 3] == NEWLINE
    else
      k + 2 <= |s| && s[k] == NEWLINE && s[k + 1] == NEWLINE
  }

  /** The two blank lines as they are written. */
  lemma {:induction false} BlankLines(s: Bytes, k: nat)
    ensures At(s, k, false) <==> k + 2 <= |s| && s[k..k + 2] == Ascii("\n\n")
    ensures At(s, k, true) <==> k + 4 <= |s| && s[k..k + 4] == Ascii("\r\n\r\n")
  {
    if k + 2 <= |s| && s[k..k + 2] == Ascii("\n\n") {
      assert s[k] == s[k..k + 2][0] && s[k + 1] == s[k..k + 2][1];
    }
    if k + 4 <= |s| && s[k..k + 4] == Ascii("\r\n\r\n") {
      var blank := s[k..k + 4];
      assert s[k] == blank[0] && s[k + 1] == blank[1] && s[k + 2] == blank[2] && s[k + 3] == blank[3];
    }
  }

  /** The first place from `i` on. */
  function Find(s: Bytes, crlf: bool, i: nat): (r: Option<nat>)
    requires i <= |s|
    ensures r.Some? ==> At(s, r.value, crlf) && forall k: nat | i <= k < r.value :: !At(s, k, crlf)
    ensures r.None? ==> forall k: nat | i <= k :: !At(s, k, crlf)
    decreases |s| - i
  {
    if At(s, i, crlf) then Some(i)
    else if i == |s| then None
    else Find(s, crlf, i + 1)
  }

  datatype Boundary = Boundary(end: nat, delimiter: nat)

  predicate IsBoundary(s: Bytes, b: Boundary) {
    && ((b.delimiter == 2 && At(s, b.end, false)) || (b.delimiter == 4 && At(s, b.end, true)))
    && forall k: nat | k < b.end :: !At(s, k, false) && !At(s, k, true)
  }

  /** The earlier of the first LF-LF and the first CRLF-CRLF. */
  function NextEventBoundary(s: Bytes): (r: Option<Boundary>)
    ensures r.Some? ==> IsBoundary(s, r.value) && 0 < r.value.end + r.value.delimiter <= |s|
    ensures r.None? ==> forall k: nat :: !At(s, k, false) && !At(s, k, true)
  {
    match (Find(s, false, 0), Find(s, true, 0))
    case (Some(a), Some(b)) => if a <= b then Some(Boundary(a, 2)) else Some(Boundary(b, 4))
    case (Some(a), None) => Some(Boundary(a, 2))
    case (None, Some(b)) => Some(Boundary(b, 4))
    case (None, None) => None
  }

  datatype Drained = Drained(frames: seq<Bytes>, rest: Bytes) | Failed(good: seq<Bytes>)

  /** The meaning of draining: block after block until no boundary is left or a block is malformed. */
  function Drain(decode: Decode, s: Bytes): Drained
    decreases |s|
  {
    match NextEventBoundary(s)
    case None => Drained([], s)
    case Some(b) =>
      var cut := b.end + b.delimiter;
      Behind(decode(s[..cut]), Drain(decode, s[cut..]))
  }

  function Prefixed(frames: seq<Bytes>, d: Drained): Drained {
    match d
    case Failed(good) => Failed(frames + good)
    case Drained(more, rest) => Drained(frames + more, rest)
  }

  function Behind(block: Block, d: Drained): Drained {
    match block
    case Malformed => Failed([])
    case Silent => d
    case Frame(text) => Prefixed([text], d)
  }

  function Frames(d: Drained): seq<Bytes> {
    if d.Failed? then d.good else d.frames
  }

  method DrainSseEvents(decode: Decode, pending: Bytes) returns (r: Drained)
    ensures r == Drain(decode, pending)
  {
    hide Drain, NextEventBoundary, Prefixed, IsBoundary;
    var rest, events := pending, [];
    PrefixedEmpty(Drain(decode, pending));
    var boundary := NextEventBoundary(rest);
    while boundary.Some?
      invariant boundary == NextEventBoundary(rest)
      invariant Drain(decode, pending) == Prefixed(events, Drain(decode, rest))
      decreases |rest|
    {
      var cut := boundary.value.end + boundary.value.delimiter;
      DrainStep(decode, rest, cut);
      var event, tail := rest[..cut], rest[cut..];
      match decode(event) {
        case Malformed =>
          PrefixedNothing(events, Failed([]));
          return Failed(events);
        case Silent => rest := tail;
        case Frame(text) =>
          PrefixedTwice(events, [text], Drain(decode, tail));
          events, rest := events + [text], tail;
      }
      boundary := NextEventBoundary(rest);
    }
    DrainNone(decode, rest);
    PrefixedNothing(events, Drained([], rest));
    r := Drained(events, rest);
  }

  lemma {:induction false} DrainNone(decode: Decode, s: Bytes)
    requires NextEventBoundary(s).None?
    ensures Drain(decode, s) == Drained([], s)
  {
  }

  lemma {:induction false} PrefixedNothing(frames: seq<Bytes>, d: Drained)
    requires Frames(d) == []
    ensures Prefixed(frames, d) == if d.Failed? then Failed(frames) else Drained(frames, d.rest)
  {
    assert frames + [] == frames;
  }

  lemma {:induction false} PrefixedEmpty(d: Drained)
    ensures Prefixed([], d) == d
  {
    assert [] + Frames(d) == Frames(d);
  }

  lemma {:induction false} PrefixedTwice(a: seq<Bytes>, b: seq<Bytes>, d: Drained)
    ensures Prefixed(a, Prefixed(b, d)) == Prefixed(a + b, d)
  {
    assert a + (b + Frames(d)) == (a + b) + Frames(d);
  }

  // ---------------------------------------------------------------- the first boundary is stable

  lemma {:induction false} BoundaryUnique(s: Bytes, b: Boundary, c: Boundary)
    requires IsBoundary(s, b) && IsBoundary(s, c)
    ensures b == c
  {
  }

  /** What is no blank line within a text that holds a whole one further on stays none in every extension. */
  lemma {:induction false} NotCompleted(s: Bytes, t: Bytes, b: Boundary, k: nat)
    requires IsBoundary(s, b) && k < b.end
    ensures !At(s + t, k, false) && !At(s + t, k, true)
  {
    assert !At(s, k, false) && !At(s, k, true);
  }

  /** The first boundary of a text stays the first boundary of every extension. */
  lemma {:induction false} BoundaryStable(s: Bytes, t: Bytes)
    requires NextEventBoundary(s).Some?
    ensures NextEventBoundary(s + t) == NextEventBoundary(s)
  {
    var b := NextEventBoundary(s).value;
    forall k: nat | k < b.end ensures !At(s + t, k, false) && !At(s + t, k, true) {
      NotCompleted(s, t, b, k);
    }
    hide NextEventBoundary, Find;
    assert At(s + t, b.end, b.delimiter == 4);
    assert IsBoundary(s + t, b);
    BoundaryUnique(s + t, b, NextEventBoundary(s + t).value);
  }

  // ---------------------------------------------------------------- chunking

  /** One step of draining, with the boundary named. */
  lemma {:induction false} DrainStep(decode: Decode, s: Bytes, cut: nat)
    requires NextEventBoundary(s).Some? && cut == NextEventBoundary(s).value.end + NextEventBoundary(s).value.delimiter
    ensures 0 < cut <= |s|
    ensures Drain(decode, s) == Behind(decode(s[..cut]), Drain(decode, s[cut..]))
  {
  }

  /** Draining an extension is draining first, then draining what was left with the new text behind it. */
  predicate Resumes(decode: Decode, s: Bytes, t: Bytes) {
    match Drain(decode, s)
    case Failed(good) => Drain(decode, s + t) == Failed(good)
    case Drained(frames, rest) => Drain(decode, s + t) == Prefixed(frames, Drain(decode, rest + t))
  }

  lemma {:induction false} DrainAppend(decode: Decode, s: Bytes, t: Bytes)
    ensures Resumes(decode, s, t)
    decreases |s|
  {
    if NextEventBoundary(s).None? {
      PrefixedEmpty(Drain(decode, s + t));
    } else {
      var cut := NextEventBoundary(s).value.end + NextEventBoundary(s).value.delimiter;
      DrainAppend(decode, s[cut..], t);
      hide *;
      ResumesStep(decode, s, t, cut);
    }
  }

  lemma {:induction false} ResumesStep(decode: Decode, s: Bytes, t: Bytes, cut: nat)
    requires NextEventBoundary(s).Some? && cut == NextEventBoundary(s).value.end + NextEventBoundary(s).value.delimiter
    requires Resumes(decode, s[cut..], t)
    ensures Resumes(decode, s, t)
  {
    hide *;
    BoundaryStable(s, t);
    DrainStep(decode, s, cut);
    DrainStep(decode, s + t, cut);
    SplitAppend(s, t, cut);
    ResumesBehind(decode, s, s[cut..], decode(s[..cut]), t);
  }

  lemma {:induction false} SplitAppend(s: Bytes, t: Bytes, cut: nat)
    requires cut <= |s|
    ensures (s + t)[..cut] == s[..cut] && (s + t)[cut..] == s[cut..] + t
  {
  }

  lemma {:induction false} ResumesBehind(decode: Decode, s: Bytes, tail: Bytes, block: Block, t: Bytes)
    requires Resumes(decode, tail, t)
    requires Drain(decode, s) == Behind(block, Drain(decode, tail))
    requires Drain(decode, s + t) == Behind(block, Drain(decode, tail + t))
    ensures Resumes(decode, s, t)
  {
    hide Drain;
    if block.Frame? && Drain(decode, tail).Drained? {
      PrefixedTwice([block.text], Drain(decode, tail).frames, Drain(decode, Drain(decode, tail).rest + t));
    }
  }

  lemma {:induction false} RestIsShorter(decode: Decode, s: Bytes)
    ensures Drain(decode, s).Drained? ==>
      |Drain(decode, s).rest| <= |s| && NextEventBoundary(Drain(decode, s).rest).None?
    decreases |s|
  {
    if NextEventBoundary(s).Some? {
      var cut := NextEventBoundary(s).value.end + NextEventBoundary(s).value.delimiter;
      DrainStep(decode, s, cut);
      hide Drain, NextEventBoundary;
      RestIsShorter(decode, s[cut..]);
    }
  }

  datatype End = Open(pending: Bytes) | BadData | TooLarge | NotText

  /** Frames forwarded, and how the stream stands. */
  datatype Forwarded = Forwarded(sent: seq<Bytes>, end: End)

  /** One chunk: checked, appended, bounded, drained. A failing drain forwards none of its own frames. */
  function OnChunk(decode: Decode, utf8: Bytes -> bool, limit: nat, f: Forwarded, chunk: Bytes): Forwarded {
    if !f.end.Open? then f
    else if !utf8(chunk) then f.(end := NotText)
    else if |f.end.pending + chunk| > limit then f.(end := TooLarge)
    else match Drain(decode, f.end.pending + chunk)
      case Failed(_) => f.(end := BadData)
      case Drained(more, rest) => Forwarded(f.sent + more, Open(rest))
  }

  function Forward(decode: Decode, utf8: Bytes -> bool, limit: nat, chunks: seq<Bytes>): Forwarded {
    if chunks == [] then Forwarded([], Open([]))
    else OnChunk(decode, utf8, limit, Forward(decode, utf8, limit, chunks[..|chunks| - 1]), chunks[|chunks| - 1])
  }

  method ForwardSse(decode: Decode, utf8: Bytes -> bool, limit: nat, chunks: seq<Bytes>) returns (r: Forwarded)
    ensures r == Forward(decode, utf8, limit, chunks)
  {
    var sent, pending: Bytes := [], [];
    for i := 0 to |chunks|
      invariant Forwarded(sent, Open(pending)) == Forward(decode, utf8, limit, chunks[..i])
    {
      var chunk := chunks[i];
      assert chunks[..i + 1][..i] == chunks[..i];
      ghost var next := OnChunk(decode, utf8, limit, Forwarded(sent, Open(pending)), chunk);
      assert Forward(decode, utf8, limit, chunks[..i + 1]) == next;
      if !next.end.Open? {
        ClosedForGood(decode, utf8, limit, chunks, i + 1);
      }
      if !utf8(chunk) {
        return Forwarded(sent, NotText);
      }
      pending := pending + chunk;
      if |pending| > limit {
        return Forwarded(sent, TooLarge);
      }
      var drained := DrainSseEvents(decode, pending);
      if drained.Failed? {
        return Forwarded(sent, BadData);
      }
      sent, pending := sent + drained.frames, drained.rest;
    }
    assert chunks[..|chunks|] == chunks;
    r := Forwarded(sent, Open(pending));
  }

  /** Once the stream ended, later chunks change nothing. */
  lemma {:induction false} ClosedForGood(decode: Decode, utf8: Bytes -> bool, limit: nat, chunks: seq<Bytes>, i: nat)
    requires i <= |chunks| && !Forward(decode, utf8, limit, chunks[..i]).end.Open?
    ensures Forward(decode, utf8, limit, chunks) == Forward(decode, utf8, limit, chunks[..i])
    decreases |chunks|
  {
    if i == |chunks| {
      assert chunks[..i] == chunks;
    } else {
      var n := |chunks| - 1;
      assert chunks[..n][..i] == chunks[..i];
      ClosedForGood(decode, utf8, limit, chunks[..n], i);
    }
  }

  function Concat(chunks: seq<Bytes>): Bytes {
    if chunks == [] then [] else Concat(chunks[..|chunks| - 1]) + chunks[|chunks| - 1]
  }

  /**
   What was forwarded, against draining the whole text: a prefix of its frames, and all of them while
   the stream is open.
   */
  predicate Agrees(decode: Decode, f: Forwarded, text: Bytes) {
    var d := Drain(decode, text);
    && f.sent <= Frames(d)
    && (f.end.Open? ==> d == Drained(f.sent, f.end.pending) && |f.end.pending| <= |text|)
    && (f.end.BadData? ==> d.Failed?)
  }

  lemma {:induction false} AgreesMore(decode: Decode, utf8: Bytes -> bool, limit: nat, f: Forwarded, text: Bytes,
                                      chunk: Bytes)
    requires Agrees(decode, f, text)
    ensures Agrees(decode, OnChunk(decode, utf8, limit, f, chunk), text + chunk)
  {
    hide Drain;
    DrainAppend(decode, text, chunk);
    FramesGrow(decode, text, chunk);
    if f.end.Open? {
      RestIsShorter(decode, f.end.pending + chunk);
    }
  }

  /** More text only adds frames. */
  lemma {:induction false} FramesGrow(decode: Decode, s: Bytes, t: Bytes)
    ensures Frames(Drain(decode, s)) <= Frames(Drain(decode, s + t))
    ensures Drain(decode, s).Failed? ==> Drain(decode, s + t).Failed?
  {
    hide Drain;
    DrainAppend(decode, s, t);
  }

  /** Whatever happens, the frames forwarded are the first frames of the whole text; an open stream has them all. */
  lemma {:induction false} ForwardedIsPrefix(decode: Decode, utf8: Bytes -> bool, limit: nat, chunks: seq<Bytes>)
    ensures Agrees(decode, Forward(decode, utf8, limit, chunks), Concat(chunks))
    decreases |chunks|
  {
    if chunks == [] {
      assert NextEventBoundary([]).None?;
    } else {
      hide Drain, Agrees, OnChunk;
      var n := |chunks| - 1;
      ForwardedIsPrefix(decode, utf8, limit, chunks[..n]);
      AgreesMore(decode, utf8, limit, Forward(decode, utf8, limit, chunks[..n]), Concat(chunks[..n]), chunks[n]);
    }
  }

  /** What ends the stream when `chunk` arrives behind the text `before`, however `before` was cut. */
  function Stop(decode: Decode, utf8: Bytes -> bool, limit: nat, before: Bytes, chunk: Bytes): Option<End> {
    var d := Drain(decode, before);
    if !utf8(chunk) then Some(NotText)
    else if d.Drained? && |d.rest + chunk| > limit then Some(TooLarge)
    else if Drain(decode, before + chunk).Failed? then Some(BadData)
    else None
  }

  /** The first `k` chunks pass, and `f` is what follows from that. */
  predicate ForwardedUpTo(decode: Decode, utf8: Bytes -> bool, limit: nat, chunks: seq<Bytes>, k: nat, f: Forwarded) {
    && k <= |chunks|
    && (forall i | 0 <= i < k :: Stop(decode, utf8, limit, Concat(chunks[..i]), chunks[i]).None?)
    && var d := Drain(decode, Concat(chunks[..k]));
       && d.Drained? && f.sent == d.frames
       && (if k == |chunks| then f.end == Open(d.rest)
           else Stop(decode, utf8, limit, Concat(chunks[..k]), chunks[k]) == Some(f.end))
  }

  /** A chunk that passes extends the forwarded text, any other one ends the stream as `Stop` says. */
  lemma {:induction false} ChunkStops(decode: Decode, utf8: Bytes -> bool, limit: nat, before: Bytes, chunk: Bytes)
    requires Drain(decode, before).Drained?
    ensures var d := Drain(decode, before);
            var f := OnChunk(decode, utf8, limit, Forwarded(d.frames, Open(d.rest)), chunk);
            match Stop(decode, utf8, limit, before, chunk)
            case Some(end) => f == Forwarded(d.frames, end)
            case None =>
              var d' := Drain(decode, before + chunk); d'.Drained? && f == Forwarded(d'.frames, Open(d'.rest))
  {
    hide Drain;
    DrainAppend(decode, before, chunk);
  }

  /**
   Every chunking of every text: the chunks pass one by one up to the first that is no text, makes the
   pending block too large, or completes a malformed block, and what was forwarded is exactly the
   frames of the text in front of that chunk.
   */
  lemma {:induction false} ForwardedExactly(decode: Decode, utf8: Bytes -> bool, limit: nat, chunks: seq<Bytes>)
    returns (k: nat)
    ensures k <= |chunks| && ForwardedUpTo(decode, utf8, limit, chunks, k, Forward(decode, utf8, limit, chunks))
    decreases |chunks|
  {
    hide *;
    if chunks == [] {
      NothingForwarded(decode, utf8, limit);
      k := 0;
    } else {
      var n := |chunks| - 1;
      k := ForwardedExactly(decode, utf8, limit, chunks[..n]);
      var stop := Stop(decode, utf8, limit, Concat(chunks[..k]), chunks[k]);
      if k < n {
        StoppedStays(decode, utf8, limit, chunks, k);
      } else {
        LastChunk(decode, utf8, limit, chunks);
        k := if stop.None? then n + 1 else n;
      }
    }
  }

  lemma {:induction false} NothingForwarded(decode: Decode, utf8: Bytes -> bool, limit: nat)
    ensures ForwardedUpTo(decode, utf8, limit, [], 0, Forward(decode, utf8, limit, []))
  {
    EmptyDrained(decode);
    hide Drain;
  }

  lemma {:induction false} StoppedStays(decode: Decode, utf8: Bytes -> bool, limit: nat, chunks: seq<Bytes>, k: nat)
    requires chunks != [] && k < |chunks| - 1
    requires var init := chunks[..|chunks| - 1];
             ForwardedUpTo(decode, utf8, limit, init, k, Forward(decode, utf8, limit, init))
    ensures ForwardedUpTo(decode, utf8, limit, chunks, k, Forward(decode, utf8, limit, chunks))
  {
    hide Drain, Concat;
    PrefixTexts(chunks, k);
    assert !Forward(decode, utf8, limit, chunks[..|chunks| - 1]).end.Open?;
    ClosedForGood(decode, utf8, limit, chunks, |chunks| - 1);
  }

  lemma {:induction false} LastChunk(decode: Decode, utf8: Bytes -> bool, limit: nat, chunks: seq<Bytes>)
    requires chunks != []
    requires var init := chunks[..|chunks| - 1];
             ForwardedUpTo(decode, utf8, limit, init, |init|, Forward(decode, utf8, limit, init))
    ensures var n := |chunks| - 1;
            var stop := Stop(decode, utf8, limit, Concat(chunks[..n]), chunks[n]);
            ForwardedUpTo(decode, utf8, limit, chunks, if stop.None? then n + 1 else n,
                          Forward(decode, utf8, limit, chunks))
  {
    hide Drain, Stop, OnChunk;
    var n := |chunks| - 1;
    var init := chunks[..n];
    PrefixTexts(chunks, n);
    assert init[..n] == init && chunks[..n + 1] == chunks;
    assert Concat(chunks) == Concat(init) + chunks[n];
    ChunkStops(decode, utf8, limit, Concat(init), chunks[n]);
  }

  lemma {:induction false} PrefixTexts(chunks: seq<Bytes>, k: nat)
    requires chunks != [] && k < |chunks|
    ensures var init := chunks[..|chunks| - 1]; forall i | 0 <= i <= k :: init[..i] == chunks[..i]
  {
  }

  lemma {:induction false} ConcatSplit(chunks: seq<Bytes>, k: nat)
    requires k <= |chunks|
    ensures Concat(chunks[..k]) <= Concat(chunks)
    ensures k < |chunks| ==> Concat(chunks[..k + 1]) == Concat(chunks[..k]) + chunks[k]
    decreases |chunks|
  {
    var n := |chunks| - 1;
    if k == |chunks| {
      assert chunks[..k] == chunks;
    } else {
      assert chunks[..n][..k] == chunks[..k] && chunks[..k + 1][..k] == chunks[..k];
      ConcatSplit(chunks[..n], k);
    }
  }

  /**
   A malformed block costs the good frames that its own chunk completed in front of it, and nothing
   else: all good frames are forwarded exactly when that chunk completed none.
   */
  lemma {:induction false} LostFrames(decode: Decode, utf8: Bytes -> bool, limit: nat, chunks: seq<Bytes>)
    returns (k: nat)
    requires Forward(decode, utf8, limit, chunks).end == BadData
    ensures ForwardedUpTo(decode, utf8, limit, chunks, k, Forward(decode, utf8, limit, chunks)) && k < |chunks|
    ensures var sent := Forward(decode, utf8, limit, chunks).sent;
            var lost := Frames(Drain(decode, Drain(decode, Concat(chunks[..k])).rest + chunks[k]));
            && Drain(decode, Concat(chunks)) == Failed(sent + lost)
            && (sent == Frames(Drain(decode, Concat(chunks))) <==> lost == [])
  {
    hide Drain;
    k := ForwardedExactly(decode, utf8, limit, chunks);
    var before, through := Concat(chunks[..k]), Concat(chunks[..k + 1]);
    ConcatSplit(chunks, k);
    ConcatSplit(chunks, k + 1);
    DrainAppend(decode, before, chunks[k]);
    var rest := Concat(chunks)[|through|..];
    assert Concat(chunks) == through + rest;
    DrainAppend(decode, through, rest);
  }

  /** A text within the bound, cut anywhere between characters. */
  predicate FitsCut(utf8: Bytes -> bool, limit: nat, chunks: seq<Bytes>, text: Bytes) {
    Concat(chunks) == text && |text| <= limit && forall i | 0 <= i < |chunks| :: utf8(chunks[i])
  }

  /** Every chunking forwards the frames, the rest and the failure of draining the whole text at once. */
  lemma {:induction false} ChunkingIrrelevant(decode: Decode, utf8: Bytes -> bool, limit: nat, chunks: seq<Bytes>)
    requires FitsCut(utf8, limit, chunks, Concat(chunks))
    ensures match Drain(decode, Concat(chunks))
            case Drained(frames, rest) => Forward(decode, utf8, limit, chunks) == Forwarded(frames, Open(rest))
            case Failed(good) =>
              var f := Forward(decode, utf8, limit, chunks); f.end == BadData && f.sent <= good
  {
    hide Drain;
    var k := ForwardedExactly(decode, utf8, limit, chunks);
    ForwardedIsPrefix(decode, utf8, limit, chunks);
    ConcatSplit(chunks, k);
    if k < |chunks| {
      ConcatSplit(chunks, k + 1);
      RestIsShorter(decode, Concat(chunks[..k]));
    } else {
      assert chunks[..k] == chunks;
    }
  }

  // ---------------------------------------------------------------- draining in plain terms

  /** One whole event: it ends with its first blank line. */
  predicate IsBlock(x: Bytes) {
    && ((|x| >= 2 && At(x, |x| - 2, false) && NoneBefore(x, |x| - 2))
        || (|x| >= 4 && At(x, |x| - 4, true) && NoneBefore(x, |x| - 4)))
  }

  predicate NoneBefore(x: Bytes, n: nat) {
    forall k: nat | k < n :: !At(x, k, false) && !At(x, k, true)
  }

  /** Whole events, then a rest without a blank line. */
  ghost predicate Blocks(blocks: seq<Bytes>, rest: Bytes) {
    && (forall i | 0 <= i < |blocks| :: IsBlock(blocks[i]))
    && forall k: nat :: !At(rest, k, false) && !At(rest, k, true)
  }

  /** A silent event stands for nothing, a frame for its text. */
  function Texts(decode: Decode, blocks: seq<Bytes>): seq<Bytes> {
    if blocks == [] then []
    else
      var front := Texts(decode, blocks[..|blocks| - 1]);
      match decode(blocks[|blocks| - 1])
      case Frame(text) => front + [text]
      case _ => front
  }

  /** The first block that is malformed, or the end. */
  predicate GoodUpTo(decode: Decode, blocks: seq<Bytes>, k: nat) {
    && k <= |blocks|
    && (forall i | 0 <= i < k :: !decode(blocks[i]).Malformed?)
    && (k < |blocks| ==> decode(blocks[k]).Malformed?)
  }

  lemma {:induction false} BlockEnds(x: Bytes, t: Bytes)
    requires IsBlock(x)
    ensures NextEventBoundary(x + t).Some?
    ensures var b := NextEventBoundary(x + t).value; b.end + b.delimiter == |x|
  {
    var b := if |x| >= 2 && At(x, |x| - 2, false) && NoneBefore(x, |x| - 2) then Boundary(|x| - 2, 2)
             else Boundary(|x| - 4, 4);
    assert IsBoundary(x, b);
    hide Find;
    BoundaryUnique(x, b, NextEventBoundary(x).value);
    BoundaryStable(x, t);
  }

  lemma {:induction false} TextsFront(decode: Decode, block: Bytes, more: seq<Bytes>)
    ensures Texts(decode, [block] + more)
            == (match decode(block) case Frame(text) => [text] case _ => []) + Texts(decode, more)
    decreases |more|
  {
    var all := [block] + more;
    if more == [] {
      assert all == [block] && all[..0] == [];
    } else {
      var n := |more| - 1;
      assert all[..|all| - 1] == [block] + more[..n] && all[|all| - 1] == more[n];
      TextsFront(decode, block, more[..n]);
    }
  }

  lemma {:induction false} ConcatFront(chunk: Bytes, more: seq<Bytes>)
    ensures Concat([chunk] + more) == chunk + Concat(more)
    decreases |more|
  {
    var all := [chunk] + more;
    if more == [] {
      assert all == [chunk] && all[..0] == [];
      assert [] + chunk == chunk && chunk + [] == chunk;
    } else {
      var n := |more| - 1;
      assert all[..|all| - 1] == [chunk] + more[..n] && all[|all| - 1] == more[n];
      ConcatFront(chunk, more[..n]);
      assert Concat(all) == Concat([chunk] + more[..n]) + more[n];
      hide Concat;
    }
  }

  /** Every text is whole events and a rest. */
  lemma {:induction false} TextIsBlocks(s: Bytes) returns (blocks: seq<Bytes>, rest: Bytes)
    ensures Blocks(blocks, rest) && Concat(blocks) + rest == s
    decreases |s|
  {
    if NextEventBoundary(s).None? {
      blocks, rest := [], s;
    } else {
      var b := NextEventBoundary(s).value;
      var cut := b.end + b.delimiter;
      FrontIsBlock(s, cut);
      hide NextEventBoundary, Find, At, IsBlock;
      var more;
      more, rest := TextIsBlocks(s[cut..]);
      blocks := [s[..cut]] + more;
      ConcatFront(s[..cut], more);
    }
  }

  lemma {:induction false} FrontIsBlock(s: Bytes, cut: nat)
    requires NextEventBoundary(s).Some?
    requires cut == NextEventBoundary(s).value.end + NextEventBoundary(s).value.delimiter
    ensures 0 < cut <= |s| && IsBlock(s[..cut])
  {
    BoundaryCut(s, cut);
    hide NextEventBoundary, Find;
  }

  lemma {:induction false} DrainBlock(decode: Decode, block: Bytes, tail: Bytes)
    requires IsBlock(block)
    ensures Drain(decode, block + tail) == Behind(decode(block), Drain(decode, tail))
  {
    hide *;
    BlockEnds(block, tail);
    DrainStep(decode, block + tail, |block|);
    SplitAppend(block, tail, |block|);
    assert block[..|block|] == block && block[|block|..] + tail == tail;
  }

  /**
   Draining in terms of the events of a text: every frame in order and the rest, silent events adding
   nothing; or, up to the first malformed event, the frames in front of it.
   */
  lemma {:induction false} DrainIsBlockwise(decode: Decode, blocks: seq<Bytes>, rest: Bytes, k: nat)
    requires Blocks(blocks, rest) && GoodUpTo(decode, blocks, k)
    ensures Drain(decode, Concat(blocks) + rest) ==
      if k == |blocks| then Drained(Texts(decode, blocks), rest) else Failed(Texts(decode, blocks[..k]))
    decreases |blocks|
  {
    hide Drain, At, IsBlock, NextEventBoundary, Concat, Texts, Behind;
    if blocks == [] {
      NothingToDrain(decode, rest);
    } else {
      var block, more := blocks[0], blocks[1..];
      ConcatFront(block, more);
      assert blocks == [block] + more;
      assert Concat(blocks) + rest == block + (Concat(more) + rest);
      DrainBlock(decode, block, Concat(more) + rest);
      if k > 0 {
        assert forall i | 0 <= i < |more| :: more[i] == blocks[i + 1];
        DrainIsBlockwise(decode, more, rest, k - 1);
        assert blocks[..k] == [block] + more[..k - 1];
        BehindBlock(decode, block, more, rest);
        BehindBlock(decode, block, more[..k - 1], rest);
      } else {
        BehindMalformed(decode, block, Drain(decode, Concat(more) + rest));
        assert blocks[..0] == [];
      }
    }
  }

  lemma {:induction false} NothingToDrain(decode: Decode, rest: Bytes)
    requires Blocks([], rest)
    ensures Drain(decode, Concat([]) + rest) == Drained(Texts(decode, []), rest)
  {
    assert Concat([]) + rest == rest;
    DrainNone(decode, rest);
  }

  lemma {:induction false} BehindMalformed(decode: Decode, block: Bytes, d: Drained)
    requires decode(block).Malformed?
    ensures Behind(decode(block), d) == Failed(Texts(decode, []))
  {
  }

  lemma {:induction false} BehindBlock(decode: Decode, block: Bytes, more: seq<Bytes>, rest: Bytes)
    requires !decode(block).Malformed?
    ensures Behind(decode(block), Drained(Texts(decode, more), rest)) == Drained(Texts(decode, [block] + more), rest)
    ensures Behind(decode(block), Failed(Texts(decode, more))) == Failed(Texts(decode, [block] + more))
  {
    TextsFront(decode, block, more);
    hide Texts;
    assert [] + Texts(decode, more) == Texts(decode, more);
  }

  // ---------------------------------------------------------------- when the cuts decide

  lemma {:induction false} BoundaryCut(s: Bytes, n: nat)
    requires NextEventBoundary(s).Some?
    requires NextEventBoundary(s).value.end + NextEventBoundary(s).value.delimiter <= n <= |s|
    ensures NextEventBoundary(s[..n]) == NextEventBoundary(s)
  {
    var b := NextEventBoundary(s).value;
    hide NextEventBoundary, Find;
    assert At(s[..n], b.end, b.delimiter == 4);
    forall k: nat | k < b.end ensures !At(s[..n], k, false) && !At(s[..n], k, true) {
      assert !At(s, k, false) && !At(s, k, true);
    }
    assert IsBoundary(s[..n], b);
    BoundaryUnique(s[..n], b, NextEventBoundary(s[..n]).value);
  }

  /** A text cut behind its first block is drained block by block as before. */
  lemma {:induction false} DrainCut(decode: Decode, s: Bytes, cut: nat, n: nat)
    requires NextEventBoundary(s).Some? && cut == NextEventBoundary(s).value.end + NextEventBoundary(s).value.delimiter
    requires cut <= n <= |s|
    ensures 0 < cut && s[cut - 1] == NEWLINE
    ensures Drain(decode, s[..n]) == Behind(decode(s[..cut]), Drain(decode, s[cut..n]))
  {
    hide Drain;
    BoundaryCut(s, n);
    DrainStep(decode, s[..n], cut);
    assert s[..n][..cut] == s[..cut] && s[..n][cut..] == s[cut..n];
  }

  /** The end of the first block that is a frame. */
  lemma {:induction false} FirstFrame(decode: Decode, s: Bytes) returns (n: nat)
    requires Frames(Drain(decode, s)) != []
    ensures 0 < n <= |s| && s[n - 1] == NEWLINE
    ensures Drain(decode, s[..n]).Drained? && Drain(decode, s[..n]).frames != []
    decreases |s|
  {
    hide *;
    var cut := FirstBlock(decode, s);
    n := cut;
    if decode(s[..cut]).Silent? {
      var tail := s[cut..];
      var more := FirstFrame(decode, tail);
      n := cut + more;
      assert tail[..more] == s[cut..n];
      assert s[n - 1] == tail[more - 1];
      BlockFrames(decode, decode(s[..cut]), s[cut..n]);
    } else {
      BlockFrames(decode, decode(s[..cut]), s[cut..n]);
    }
    DrainCut(decode, s, cut, n);
  }

  lemma {:induction false} FirstBlock(decode: Decode, s: Bytes) returns (cut: nat)
    requires Frames(Drain(decode, s)) != []
    ensures NextEventBoundary(s).Some? && cut == NextEventBoundary(s).value.end + NextEventBoundary(s).value.delimiter
    ensures 0 < cut <= |s| && !decode(s[..cut]).Malformed?
    ensures decode(s[..cut]).Silent? ==> Frames(Drain(decode, s[cut..])) != []
  {
    if NextEventBoundary(s).None? {
      DrainNone(decode, s);
    }
    hide Drain, NextEventBoundary;
    cut := NextEventBoundary(s).value.end + NextEventBoundary(s).value.delimiter;
    DrainStep(decode, s, cut);
  }

  /** A frame with nothing behind it, or silence in front of frames. */
  lemma {:induction false} BlockFrames(decode: Decode, block: Block, tail: Bytes)
    requires if block.Frame? then tail == []
             else block.Silent? && Drain(decode, tail).Drained? && Drain(decode, tail).frames != []
    ensures var d := Behind(block, Drain(decode, tail)); d.Drained? && d.frames != []
  {
    EmptyDrained(decode);
    hide Drain;
  }

  lemma {:induction false} EmptyDrained(decode: Decode)
    ensures Drain(decode, []) == Drained([], [])
  {
    assert NextEventBoundary([]).None?;
  }

  /** Cutting behind a newline cuts between characters. */
  predicate CutsAtNewlines(utf8: Bytes -> bool, text: Bytes) {
    utf8(text) && forall n | 0 < n <= |text| && text[n - 1] == NEWLINE :: utf8(text[..n]) && utf8(text[n..])
  }

  /**
   The frames forwarded from a text with a malformed block are the same for all its chunkings exactly
   when no good frame stands in front of that block; otherwise the whole text in one chunk forwards
   nothing, and a cut behind the first frame forwards that frame.
   */
  lemma {:induction false} CutsDecideIff(decode: Decode, utf8: Bytes -> bool, limit: nat, text: Bytes)
    requires |text| <= limit && CutsAtNewlines(utf8, text) && Drain(decode, text).Failed?
    ensures (forall c, d | FitsCut(utf8, limit, c, text) && FitsCut(utf8, limit, d, text) ::
               Forward(decode, utf8, limit, c) == Forward(decode, utf8, limit, d))
            <==> Drain(decode, text).good == []
  {
    hide Drain;
    if Drain(decode, text).good == [] {
      forall c | FitsCut(utf8, limit, c, text) ensures Forward(decode, utf8, limit, c) == Forwarded([], BadData) {
        ChunkingIrrelevant(decode, utf8, limit, c);
      }
    } else {
      var n := FirstFrame(decode, text);
      OneChunk(decode, utf8, limit, text);
      TwoChunks(decode, utf8, limit, text[..n], text[n..], text);
      assert Forward(decode, utf8, limit, [text]) != Forward(decode, utf8, limit, [text[..n], text[n..]]);
    }
  }

  lemma {:induction false} OneChunk(decode: Decode, utf8: Bytes -> bool, limit: nat, text: Bytes)
    requires |text| <= limit && utf8(text) && Drain(decode, text).Failed?
    ensures FitsCut(utf8, limit, [text], text) && Forward(decode, utf8, limit, [text]) == Forwarded([], BadData)
  {
    hide Drain;
    assert [text][..0] == [] && [] + text == text;
    assert Concat([text]) == text;
  }

  lemma {:induction false} TwoChunks(decode: Decode, utf8: Bytes -> bool, limit: nat, a: Bytes, b: Bytes, text: Bytes)
    requires text == a + b && |text| <= limit && utf8(a) && utf8(b)
    requires Drain(decode, a).Drained? && Drain(decode, text).Failed?
    ensures FitsCut(utf8, limit, [a, b], text)
    ensures Forward(decode, utf8, limit, [a, b]) == Forwarded(Drain(decode, a).frames, BadData)
  {
    hide Drain;
    assert [a, b][..1] == [a] && [a][..0] == [] && [] + a == a;
    assert Concat([a]) == a;
    assert Forward(decode, utf8, limit, [a]) == Forwarded(Drain(decode, a).frames, Open(Drain(decode, a).rest));
    RestIsShorter(decode, a);
    DrainAppend(decode, a, b);
  }

  // ---------------------------------------------------------------- a complete body

  /** A finished response: a last event may lack its blank line. `blank` is the whitespace test. */
  method ParseSse(decode: Decode, blank: Bytes -> bool, text: Bytes) returns (r: Result<seq<Bytes>, ()>)
    ensures var d := Drain(decode, if Drain(decode, text).Drained? && !blank(Drain(decode, text).rest)
                                   then text + [NEWLINE, NEWLINE] else text);
            r == if d.Failed? then Err(()) else Ok(d.frames)
  {
    var first := DrainSseEvents(decode, text);
    if first.Failed? {
      return Err(());
    }
    var events := first.frames;
    if !blank(first.rest) {
      DrainAppend(decode, text, [NEWLINE, NEWLINE]);
      hide Drain;
      var last := DrainSseEvents(decode, first.rest + [NEWLINE, NEWLINE]);
      if last.Failed? {
        return Err(());
      }
      events := events + last.frames;
    }
    r := Ok(events);
  }
}
