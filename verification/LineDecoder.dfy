/** The newline framing of the turn protocol. */
module LineDecoder {
  import opened Redaction
  import opened Process

  const MAX_FRAME_BYTES: nat := 1048576
  const CARRIAGE_RETURN: Byte := 13

  datatype FrameError = FrameTooLarge | InvalidFrame

  // ---------------------------------------------------------------- the newline split

  /** The complete lines of a text, without their newlines, and what follows the last newline. */
  datatype Split = Split(lines: seq<Bytes>, rest: Bytes)

  function Cons(line: Bytes, t: Split): Split {
    Split([line] + t.lines, t.rest)
  }

  function SplitLines(s: Bytes): Split
    decreases |s|
  {
    if NEWLINE !in s then Split([], s)
    else
      var i := FirstNewline(s);
      Cons(s[..i], SplitLines(s[i + 1..]))
  }

  /** Puts a split back together. */
  function Unsplit(lines: seq<Bytes>, rest: Bytes): Bytes {
    if lines == [] then rest else lines[0] + [NEWLINE] + Unsplit(lines[1..], rest)
  }

  lemma {:induction false} UnsplitCons(line: Bytes, t: Split)
    ensures Unsplit(Cons(line, t).lines, t.rest) == line + [NEWLINE] + Unsplit(t.lines, t.rest)
  {
    assert Cons(line, t).lines[1..] == t.lines;
  }

  lemma {:induction false} AroundNewline(s: Bytes, i: nat)
    requires i < |s| && s[i] == NEWLINE
    ensures s == s[..i] + [NEWLINE] + s[i + 1..]
  {
  }

  /** No newline is inside a line or in the rest. */
  predicate Clean(t: Split) {
    NEWLINE !in t.rest && forall i | 0 <= i < |t.lines| :: NEWLINE !in t.lines[i]
  }

  /** The split loses nothing and leaves no newline behind. */
  lemma {:induction false} SplitInverse(s: Bytes)
    ensures Unsplit(SplitLines(s).lines, SplitLines(s).rest) == s && Clean(SplitLines(s))
    decreases |s|
  {
    if NEWLINE in s {
      var i := FirstNewline(s);
      var t := SplitLines(s[i + 1..]);
      SplitInverse(s[i + 1..]);
      UnsplitCons(s[..i], t);
      AroundNewline(s, i);
      assert Clean(Cons(s[..i], t));
      hide Cons, Unsplit, Clean;
    }
  }

  /** The first newline stays first however the text goes on. */
  lemma {:induction false} NewlineStable(s: Bytes, x: Bytes)
    requires NEWLINE in s
    ensures NEWLINE in s + x && FirstNewline(s + x) == FirstNewline(s)
    ensures (s + x)[..FirstNewline(s)] == s[..FirstNewline(s)]
    ensures (s + x)[FirstNewline(s) + 1..] == s[FirstNewline(s) + 1..] + x
  {
    assert (s + x)[FirstNewline(s)] == NEWLINE;
  }

  /** One split behind another. */
  function Then(t: Split, u: Split): Split {
    Split(t.lines + u.lines, u.rest)
  }

  lemma {:induction false} ThenCons(line: Bytes, t: Split, u: Split)
    ensures Then(Cons(line, t), u) == Cons(line, Then(t, u))
  {
    assert ([line] + t.lines) + u.lines == [line] + (t.lines + u.lines);
  }

  lemma {:induction false} NothingThen(rest: Bytes, u: Split)
    ensures Then(Split([], rest), u) == u
  {
    assert [] + u.lines == u.lines;
  }

  /** Splitting an extension is splitting the old rest with the new text behind it. */
  lemma {:induction false} SplitAppend(s: Bytes, x: Bytes)
    ensures SplitLines(s + x) == Then(SplitLines(s), SplitLines(SplitLines(s).rest + x))
    decreases |s|
  {
    if NEWLINE !in s {
      NothingThen(s, SplitLines(s + x));
    } else {
      NewlineStable(s, x);
      var i := FirstNewline(s);
      var t := SplitLines(s[i + 1..]);
      SplitAppend(s[i + 1..], x);
      ThenCons(s[..i], t, SplitLines(t.rest + x));
      assert Cons(s[..i], t).rest == t.rest;
      hide Cons, Then;
    }
  }

  /** Without its first lines. */
  function Dropped(t: Split, n: nat): Split
    requires n <= |t.lines|
  {
    Split(t.lines[n..], t.rest)
  }

  lemma {:induction false} DropOne(t: Split, n: nat, line: Bytes, u: Split)
    requires n <= |t.lines| && Dropped(t, n) == Cons(line, u)
    ensures n < |t.lines| && t.lines[n] == line && u == Dropped(t, n + 1)
  {
    assert ([line] + u.lines)[1..] == u.lines && t.lines[n..][0] == line && t.lines[n..][1..] == t.lines[n + 1..];
  }

  /** A line without one trailing carriage return. */
  function Trimmed(line: Bytes): Bytes {
    if line != [] && line[|line| - 1] == CARRIAGE_RETURN then line[..|line| - 1] else line
  }

  function Frames(lines: seq<Bytes>): (r: seq<Bytes>)
    ensures |r| == |lines|
    ensures forall i | 0 <= i < |lines| :: r[i] == Trimmed(lines[i])
  {
    seq(|lines|, i requires 0 <= i < |lines| => Trimmed(lines[i]))
  }

  lemma {:induction false} FramesConcat(a: seq<Bytes>, b: seq<Bytes>)
    ensures Frames(a + b) == Frames(a) + Frames(b)
    ensures AllFramed(a) && AllFramed(b) <==> AllFramed(a + b)
  {
    assert forall i | 0 <= i < |a| :: (a + b)[i] == a[i];
    assert forall i | 0 <= i < |b| :: (a + b)[|a| + i] == b[i];
  }

  predicate AllFramed(lines: seq<Bytes>) {
    forall i | 0 <= i < |lines| :: Trimmed(lines[i]) != []
  }

  /** A frame is never empty and never holds a newline. */
  lemma {:induction false} FramesClean(t: Split)
    requires Clean(t) && AllFramed(t.lines)
    ensures forall i | 0 <= i < |Frames(t.lines)| :: Frames(t.lines)[i] != [] && NEWLINE !in Frames(t.lines)[i]
  {
    forall i | 0 <= i < |t.lines| ensures NEWLINE !in Trimmed(t.lines[i]) {
      assert NEWLINE !in t.lines[i];
    }
  }

  // ---------------------------------------------------------------- the decoder

  /** The drain loop: line after line out of the buffer, until an empty frame or no newline is left. */
  method DrainLines(b: Bytes) returns (r: Result<seq<Bytes>, FrameError>, rest: Bytes)
    ensures r.Ok? <==> AllFramed(SplitLines(b).lines)
    ensures r.Ok? ==> r.value == Frames(SplitLines(b).lines) && rest == SplitLines(b).rest
    ensures r.Err? ==> r.error == InvalidFrame
  {
    hide *;
    var frames := [];
    rest := b;
    DrainStart(b);
    while NEWLINE in rest
      invariant Draining(b, frames, rest)
      decreases |rest|
    {
      var newline := FirstNewline(rest);
      var frame := Trimmed(rest[..newline]);
      DrainStep(b, frames, rest);
      rest := rest[newline + 1..];
      if frame == [] {
        return Err(InvalidFrame), rest;
      }
      frames := frames + [frame];
    }
    DrainEnd(b, frames, rest);
    r := Ok(frames);
  }

  /** The frames are the first lines of the text, trimmed and not empty; the rest holds the other lines. */
  ghost predicate Draining(b: Bytes, frames: seq<Bytes>, rest: Bytes) {
    DrainedTo(SplitLines(b), frames, SplitLines(rest))
  }

  ghost predicate DrainedTo(whole: Split, frames: seq<Bytes>, rest: Split) {
    && |frames| <= |whole.lines|
    && rest == Dropped(whole, |frames|)
    && forall i | 0 <= i < |frames| :: Trimmed(whole.lines[i]) == frames[i] != []
  }

  lemma {:induction false} DrainStart(b: Bytes)
    ensures Draining(b, [], b)
  {
    assert SplitLines(b).lines[0..] == SplitLines(b).lines;
  }

  lemma {:induction false} DrainStep(b: Bytes, frames: seq<Bytes>, rest: Bytes)
    requires Draining(b, frames, rest) && NEWLINE in rest
    ensures var frame := Trimmed(rest[..FirstNewline(rest)]);
            if frame == [] then !AllFramed(SplitLines(b).lines)
            else Draining(b, frames + [frame], rest[FirstNewline(rest) + 1..])
  {
    var line, tail := rest[..FirstNewline(rest)], rest[FirstNewline(rest) + 1..];
    assert SplitLines(rest) == Cons(line, SplitLines(tail));
    hide *;
    DrainedMore(SplitLines(b), frames, line, SplitLines(tail));
  }

  lemma {:induction false} DrainedMore(whole: Split, frames: seq<Bytes>, line: Bytes, rest: Split)
    requires DrainedTo(whole, frames, Cons(line, rest))
    ensures if Trimmed(line) == [] then !AllFramed(whole.lines) else DrainedTo(whole, frames + [Trimmed(line)], rest)
  {
    DropOne(whole, |frames|, line, rest);
    hide Trimmed, Dropped, Cons;
    assert Trimmed(whole.lines[|frames|]) == Trimmed(line);
  }

  lemma {:induction false} DrainEnd(b: Bytes, frames: seq<Bytes>, rest: Bytes)
    requires Draining(b, frames, rest) && NEWLINE !in rest
    ensures AllFramed(SplitLines(b).lines) && frames == Frames(SplitLines(b).lines) && rest == SplitLines(b).rest
  {
    assert SplitLines(rest) == Split([], rest);
    hide SplitLines;
    assert |frames| == |SplitLines(b).lines|;
  }

  class JsonLineDecoder {
    var buffer: Bytes
    // everything pushed, and every frame returned, since the decoder was last cleared
    ghost var pushed: Bytes
    ghost var given: seq<Bytes>

    /** The frames so far and the buffer are the newline split of the input so far. */
    ghost predicate Valid()
      reads this
    {
      |buffer| <= MAX_FRAME_BYTES && Decodes(pushed, given, buffer)
    }

    constructor ()
      ensures Valid() && buffer == [] && pushed == [] && given == []
    {
      buffer, pushed, given := [], [], [];
    }

    /** On success the frames are the lines completed by `bytes`; a refused size changes nothing. */
    method Push(bytes: Bytes) returns (r: Result<seq<Bytes>, FrameError>)
      requires Valid()
      modifies this
      ensures r == Err(FrameTooLarge) <==> |old(buffer)| + |bytes| > MAX_FRAME_BYTES
      ensures r == Err(FrameTooLarge) ==> unchanged(this)
      ensures r == Err(InvalidFrame) <==>
        |old(buffer)| + |bytes| <= MAX_FRAME_BYTES && !AllFramed(SplitLines(old(buffer) + bytes).lines)
      ensures r.Ok? ==> Valid() && pushed == old(pushed) + bytes && given == old(given) + r.value
      ensures r.Ok? ==> var t := SplitLines(old(buffer) + bytes); r.value == Frames(t.lines) && buffer == t.rest
      ensures r.Ok? ==> forall i | 0 <= i < |r.value| :: r.value[i] != [] && NEWLINE !in r.value[i]
    {
      hide SplitLines, Decodes, AllFramed;
      if |buffer| + |bytes| > MAX_FRAME_BYTES {
        return Err(FrameTooLarge);
      }
      SplitInverse(buffer + bytes);
      RestFits(buffer + bytes);
      var whole := buffer + bytes;
      r, buffer := DrainLines(whole);
      if r.Ok? {
        DecodesMore(pushed, given, old(buffer), bytes);
        FramesClean(SplitLines(whole));
        pushed, given := pushed + bytes, given + r.value;
      }
    }

    method Clear()
      modifies this
      ensures Valid() && buffer == [] && pushed == [] && given == []
    {
      buffer, pushed, given := [], [], [];
    }
  }

  /** `frames` and `rest` are the newline split of `text`, and no frame is empty. */
  ghost predicate Decodes(text: Bytes, frames: seq<Bytes>, rest: Bytes) {
    var t := SplitLines(text);
    t.rest == rest && Frames(t.lines) == frames && AllFramed(t.lines)
  }

  lemma {:induction false} DecodesMore(text: Bytes, frames: seq<Bytes>, rest: Bytes, bytes: Bytes)
    requires Decodes(text, frames, rest) && AllFramed(SplitLines(rest + bytes).lines)
    ensures var u := SplitLines(rest + bytes); Decodes(text + bytes, frames + Frames(u.lines), u.rest)
  {
    SplitAppend(text, bytes);
    FramesConcat(SplitLines(text).lines, SplitLines(rest + bytes).lines);
    hide SplitLines, Frames, AllFramed;
  }

  lemma {:induction false} RestFits(s: Bytes)
    ensures |SplitLines(s).rest| <= |s|
    decreases |s|
  {
    if NEWLINE in s {
      RestFits(s[FirstNewline(s) + 1..]);
    }
  }
}
