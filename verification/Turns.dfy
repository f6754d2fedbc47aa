/**
 What one turn of a driver means: how the process is listened to for the answer, what the turn then
 replies and leaves on record for every way its awaits can end, and the same in plain terms. What
 serde makes of a frame is the parameter `parse`.
 */
module Turns {
  import opened Redaction
  import opened Process
  import opened LineDecoder
  import opened Lifecycle
  import opened DriverTelemetry
  import Archive = TelemetryArchive

  type Handle = string
  datatype TurnRequest = TurnRequest(turnId: string, input: string)
  datatype TurnOutput = TurnOutput(schema: nat, turnId: string, visible: string, calls: seq<Archive.ToolCall>)

  type Parse = Bytes -> Option<TurnOutput>
  type Read = Await<Result<ProcessEvent, ProcessError>>

  // ---------------------------------------------------------------- listening for the answer

  /** How listening for the answer ends. */
  datatype Ending =
    | Answer(output: TurnOutput)
    | Broken(error: DriverError)
    | Gone(exit: ExitStatus)
    | Stopped
    | Abandoned

  datatype Heard = Heard(stderr: seq<Bytes>, end: Ending)

  /** The verdict on everything the process wrote up to and including the read with a newline in it. */
  function Judge(text: Bytes, id: string, parse: Parse): Ending {
    var n := |text| - 1;
    if text == [] || text[n] != NEWLINE || NEWLINE in text[..n] || Trimmed(text[..n]) == [] then Broken(BadFrame)
    else match parse(Trimmed(text[..n]))
      case None => Broken(BadFrame)
      case Some(output) =>
        if output.schema != SCHEMA_VERSION then Broken(BadFrame)
        else if output.turnId != id then Broken(TurnMismatch)
        else Answer(output)
  }

  /** Standard output is collected until a newline arrives, and must then be exactly one line. */
  function Listen(events: seq<Read>, text: Bytes, id: string, parse: Parse): Heard
    decreases |events|
  {
    if events == [] then Heard([], Abandoned)
    else match events[0]
      case Dropped => Heard([], Abandoned)
      case Interrupted => Heard([], Stopped)
      case Done(Err(error)) => Heard([], Broken(ProcessFailed(error)))
      case Done(Ok(Exited(exit))) => Heard([], Gone(exit))
      case Done(Ok(Stderr(bytes))) => Behind([bytes], Listen(events[1..], text, id, parse))
      case Done(Ok(Stdout(bytes))) =>
        if |text| + |bytes| > MAX_FRAME_BYTES then Heard([], Broken(OversizedFrame))
        else if NEWLINE in text + bytes then Heard([], Judge(text + bytes, id, parse))
        else Listen(events[1..], text + bytes, id, parse)
  }

  function Behind(stderr: seq<Bytes>, h: Heard): Heard {
    Heard(stderr + h.stderr, h.end)
  }

  function StderrNoted(t: Telemetry, stderr: seq<Bytes>): Telemetry {
    if stderr == [] then t
    else Noted(StderrNoted(t, stderr[..|stderr| - 1]), StderrSource, "process_stderr", stderr[|stderr| - 1])
  }

  lemma {:induction false} NothingNoted(t: Telemetry)
    ensures StderrNoted(t, []) == t
  {
  }

  lemma {:induction false} StderrNotedMore(t: Telemetry, stderr: seq<Bytes>, bytes: Bytes)
    ensures StderrNoted(t, stderr + [bytes]) == Noted(StderrNoted(t, stderr), StderrSource, "process_stderr", bytes)
  {
    assert (stderr + [bytes])[..|stderr|] == stderr;
  }

  lemma {:induction false} SoundStderr(saved: Telemetry, t: Telemetry, runId: string, manifest: string,
                                       stderr: seq<Bytes>)
    requires Sound(Generic, saved, t, runId, manifest)
    ensures var u := StderrNoted(t, stderr);
            && Sound(Generic, saved, u, runId, manifest) && Current(u) == Current(t)
            && forall next :: CanLog(Generic, saved, u, next) <==> CanLog(Generic, saved, t, next)
    decreases |stderr|
  {
    if stderr != [] {
      var n := |stderr| - 1;
      SoundStderr(saved, t, runId, manifest, stderr[..n]);
      SoundNoted(Generic, saved, StderrNoted(t, stderr[..n]), runId, manifest, StderrSource, "process_stderr",
                 stderr[n]);
    }
  }

  /** What the newline decoder returns for a text that had no newline before the last read. */
  lemma {:induction false} OneLineOnly(s: Bytes)
    ensures NEWLINE !in s ==> SplitLines(s) == Split([], s)
    ensures NEWLINE in s ==>
      var t := SplitLines(s);
      && t.lines != []
      && (|t.lines| == 1 && t.rest == [] <==> s[|s| - 1] == NEWLINE && NEWLINE !in s[..|s| - 1])
      && (|t.lines| == 1 && t.rest == [] ==> t.lines[0] == s[..|s| - 1])
  {
    if NEWLINE in s {
      var i := FirstNewline(s);
      var tail := s[i + 1..];
      assert SplitLines(s) == Cons(s[..i], SplitLines(tail));
      if NEWLINE in tail {
        assert tail[FirstNewline(tail)] == NEWLINE;
      }
    }
  }

  /** A successful answer was the only thing written: one line, its newline, and nothing else. */
  lemma {:induction false} AnswerIsOneLine(events: seq<Read>, text: Bytes, id: string, parse: Parse)
    returns (n: nat, line: Bytes)
    requires NEWLINE !in text && Listen(events, text, id, parse).end.Answer?
    ensures n <= |events| && text + StdoutText(events[..n]) == line + [NEWLINE] && NEWLINE !in line
    ensures parse(Trimmed(line)) == Some(Listen(events, text, id, parse).end.output)
    ensures Listen(events, text, id, parse).end.output.turnId == id
    decreases |events|
  {
    var first, rest := events[0], events[1..];
    var bytes := StdoutOf(first);
    var more := Listen(rest, text + bytes, id, parse);
    assert text + [] == text;
    if NEWLINE in text + bytes {
      n, line := 1, (text + bytes)[..|text + bytes| - 1];
      assert Judge(text + bytes, id, parse) == Listen(events, text, id, parse).end;
      StdoutSplit(events, 0);
      assert rest[..0] == [] && bytes + [] == bytes;
      assert text + bytes == line + [NEWLINE];
    } else {
      assert more.end == Listen(events, text, id, parse).end;
      hide Listen, StdoutText, StdoutOf;
      var m;
      m, line := AnswerIsOneLine(rest, text + bytes, id, parse);
      n := m + 1;
      StdoutSplit(events, m);
      Assoc(text, bytes, StdoutText(rest[..m]));
    }
  }

  /** What one read brought from standard output. */
  function StdoutOf(r: Read): Bytes {
    if r.Done? && r.value.Ok? && r.value.value.Stdout? then r.value.value.bytes else []
  }

  /** Everything read from standard output. */
  function StdoutText(events: seq<Read>): Bytes {
    if events == [] then [] else StdoutOf(events[0]) + StdoutText(events[1..])
  }

  lemma {:induction false} StdoutSplit(events: seq<Read>, m: nat)
    requires m < |events|
    ensures StdoutText(events[..m + 1]) == StdoutOf(events[0]) + StdoutText(events[1..][..m])
  {
    assert events[..m + 1][1..] == events[1..][..m];
  }

  /** The operation ended cancelled, or was dropped while its process was being killed. */
  predicate Cancels(r: Reply<TurnOutput>, before: Telemetry, kill: Kill, after: Telemetry) {
    if kill.KillDropped? then r == Lost && after == before
    else r == Returned(Err(OperationCancelled)) && after == CancelledRecord(before, true, kill)
  }

  predicate Fails(r: Reply<TurnOutput>, before: Telemetry, kill: Kill, error: DriverError, after: Telemetry) {
    if kill.KillDropped? then r == Lost && after == before
    else r == Returned(Err(error)) && after == FailedRecord(before, kill)
  }

  /** How the part of a turn ends that listens for the answer. */
  ghost predicate HearingEnds(begun: Telemetry, request: TurnRequest, events: seq<Read>, kill: Kill, parse: Parse,
                              r: Reply<TurnOutput>, after: Telemetry)
  {
    var heard := Listen(events, [], request.turnId, parse);
    var now := StderrNoted(begun, heard.stderr);
    match heard.end
    case Abandoned => r == Lost && after == now
    case Stopped => Cancels(r, now, kill, after)
    case Broken(error) => Fails(r, now, kill, error, after)
    case Gone(exit) => r == Returned(Err(UnexpectedExit(exit))) && after == Logged(now, Crashed(exit))
    case Answer(output) =>
      r == Returned(Ok(output)) && after == Logged(Recorded(now, TurnOf(request, output)), Ready)
  }

  /**
   What a turn replies and leaves on record, for every way its awaits can end. `can` says whether the
   driver was ready and held its process.
   */
  ghost predicate TurnEnds(can: bool, before: Telemetry, request: TurnRequest, encodes: bool, cancelled: bool,
                           write: Await<Result<(), ProcessError>>, events: seq<Read>, kill: Kill, parse: Parse,
                           r: Reply<TurnOutput>, after: Telemetry)
  {
    && before.lifecycle != []
    && (can ==> Current(before).Ready?)
    && if !can then r == Returned(Err(InvalidTransition("request_turn", Current(before)))) && after == before
       else if !ValidRunId(request.turnId) then r == Returned(Err(BadFrame)) && after == before
       else if !encodes then r == Returned(Err(Serialization)) && after == before
       else if cancelled then Cancels(r, before, kill, after)
       else
         var begun := Logged(before, TurnRunning(request.turnId));
         match write
         case Dropped => r == Lost && after == begun
         case Interrupted => Cancels(r, begun, kill, after)
         case Done(Err(error)) => Fails(r, begun, kill, ProcessFailed(error), after)
         case Done(Ok(_)) => HearingEnds(begun, request, events, kill, parse, r, after)
  }

  /** A turn leaves on record that it began, at most once, and its output exactly when it returns one. */
  lemma {:induction false} TurnOnRecord(can: bool, before: Telemetry, request: TurnRequest, encodes: bool,
                                        cancelled: bool, write: Await<Result<(), ProcessError>>, events: seq<Read>,
                                        kill: Kill, parse: Parse, r: Reply<TurnOutput>, after: Telemetry)
    requires TurnEnds(can, before, request, encodes, cancelled, write, events, kill, parse, r, after)
    ensures Begun(after.lifecycle) <= Begun(before.lifecycle) + 1
    ensures r.Returned? && r.result.Ok? ==> RecordsTurn(before.turns, after.turns, request, r.result.value)
    ensures after.turns == before.turns + if r.Returned? && r.result.Ok? then [TurnOf(request, r.result.value)] else []
    ensures after.lifecycle != []
  {
    var begun := Logged(before, TurnRunning(request.turnId));
    BegunMore(before.lifecycle, Entry(|before.lifecycle|, TurnRunning(request.turnId)));
    EndKeepsRecord(before, kill);
    EndKeepsRecord(begun, kill);
    if can && ValidRunId(request.turnId) && encodes && !cancelled && write.Done? && write.value.Ok? {
      HearingOnRecord(begun, request, events, kill, parse, r, after);
    }
    hide HearingEnds, ValidRunId, CancelledRecord, FailedRecord, Begun, TurnOf, RecordsTurn;
    assert before.turns + [] == before.turns;
    if r.Returned? && r.result.Ok? {
      RecordedTurn(before.turns, request, r.result.value);
    }
  }

  lemma {:induction false} RecordedTurn(before: seq<TurnRecord>, request: TurnRequest, output: TurnOutput)
    ensures RecordsTurn(before, before + [TurnOf(request, output)], request, output)
  {
  }

  lemma {:induction false} HearingOnRecord(begun: Telemetry, request: TurnRequest, events: seq<Read>, kill: Kill,
                                           parse: Parse, r: Reply<TurnOutput>, after: Telemetry)
    requires begun.lifecycle != [] && HearingEnds(begun, request, events, kill, parse, r, after)
    ensures Begun(after.lifecycle) == Begun(begun.lifecycle) && after.lifecycle != []
    ensures after.turns == begun.turns + if r.Returned? && r.result.Ok? then [TurnOf(request, r.result.value)] else []
  {
    var heard := Listen(events, [], request.turnId, parse);
    var now := StderrNoted(begun, heard.stderr);
    StderrKeepsRecord(begun, heard.stderr);
    EndKeepsRecord(now, kill);
    var n := |now.lifecycle|;
    hide Listen, StderrNoted, CancelledRecord, FailedRecord, Begun, TurnOf;
    assert begun.turns + [] == begun.turns;
    match heard.end
    case Answer(output) =>
      BegunMore(now.lifecycle, Entry(n, Ready));
      assert Logged(Recorded(now, TurnOf(request, output)), Ready).lifecycle == now.lifecycle + [Entry(n, Ready)];
    case Gone(exit) => BegunMore(now.lifecycle, Entry(n, Crashed(exit)));
    case _ =>
  }

  /** Ending in a cancellation or a failure begins and records no turn. */
  lemma {:induction false} EndKeepsRecord(t: Telemetry, kill: Kill)
    ensures var c := CancelledRecord(t, true, kill);
            c.turns == t.turns && c.lifecycle != [] && Begun(c.lifecycle) == Begun(t.lifecycle)
    ensures var f := FailedRecord(t, kill);
            f.turns == t.turns && f.lifecycle != [] && Begun(f.lifecycle) == Begun(t.lifecycle)
  {
    var n := |t.lifecycle|;
    hide Begun;
    BegunMore(t.lifecycle, Entry(n, Terminated(Cancelled)));
    BegunMore(t.lifecycle, Entry(n, Crashed(SYNTHETIC_FAILURE)));
    assert CancelledRecord(t, true, kill).lifecycle == t.lifecycle + [Entry(n, Terminated(Cancelled))];
    assert FailedRecord(t, kill).lifecycle == t.lifecycle + [Entry(n, Crashed(SYNTHETIC_FAILURE))];
  }

  lemma {:induction false} StderrKeepsRecord(t: Telemetry, stderr: seq<Bytes>)
    ensures StderrNoted(t, stderr).turns == t.turns && StderrNoted(t, stderr).lifecycle == t.lifecycle
    decreases |stderr|
  {
    if stderr != [] {
      StderrKeepsRecord(t, stderr[..|stderr| - 1]);
    }
  }

  function TurnOf(request: TurnRequest, output: TurnOutput): TurnRecord {
    TurnRecord(request.turnId, request.input, output.visible, output.calls)
  }

  function FailedRecord(t: Telemetry, kill: Kill): Telemetry {
    Noted(Logged(KillNoted(t, true, kill, "protocol_termination_failed"), Crashed(SYNTHETIC_FAILURE)),
          DriverSource, "protocol_failure", [])
  }

  /** Where the reading loop stands: what was heard is what is noted plus what the other events will bring. */
  ghost predicate Listening(events: seq<Read>, i: nat, errs: seq<Bytes>, text: Bytes, id: string, parse: Parse) {
    i <= |events| && Listen(events, [], id, parse) == Behind(errs, Listen(events[i..], text, id, parse))
  }

  lemma {:induction false} ListeningStart(events: seq<Read>, id: string, parse: Parse)
    ensures Listening(events, 0, [], [], id, parse)
  {
    assert events[0..] == events;
    assert [] + Listen(events, [], id, parse).stderr == Listen(events, [], id, parse).stderr;
  }

  lemma {:induction false} ListeningStep(events: seq<Read>, i: nat, errs: seq<Bytes>, text: Bytes, id: string,
                                         parse: Parse)
    requires i < |events| && Listening(events, i, errs, text, id, parse)
    ensures var heard := Listen(events, [], id, parse);
            match events[i]
            case Dropped => heard == Heard(errs, Abandoned)
            case Interrupted => heard == Heard(errs, Stopped)
            case Done(Err(error)) => heard == Heard(errs, Broken(ProcessFailed(error)))
            case Done(Ok(Exited(exit))) => heard == Heard(errs, Gone(exit))
            case Done(Ok(Stderr(bytes))) => Listening(events, i + 1, errs + [bytes], text, id, parse)
            case Done(Ok(Stdout(bytes))) =>
              if |text| + |bytes| > MAX_FRAME_BYTES then heard == Heard(errs, Broken(OversizedFrame))
              else if NEWLINE in text + bytes then heard == Heard(errs, Judge(text + bytes, id, parse))
              else Listening(events, i + 1, errs, text + bytes, id, parse)
  {
    var rest := events[i..];
    assert rest[0] == events[i] && rest[1..] == events[i + 1..];
    assert errs + [] == errs;
    if events[i].Done? && events[i].value.Ok? && events[i].value.value.Stderr? {
      var bytes := events[i].value.value.bytes;
      var later := Listen(rest[1..], text, id, parse).stderr;
      assert errs + ([bytes] + later) == (errs + [bytes]) + later;
    }
  }

  lemma {:induction false} ListeningEnd(events: seq<Read>, errs: seq<Bytes>, text: Bytes, id: string, parse: Parse)
    requires Listening(events, |events|, errs, text, id, parse)
    ensures Listen(events, [], id, parse) == Heard(errs, Abandoned)
  {
    assert events[|events|..] == [] && errs + [] == errs;
  }

  // ---------------------------------------------------------------- in plain terms

  /** What one read brought from standard error. */
  function StderrTexts(events: seq<Read>): seq<Bytes> {
    if events == [] then []
    else
      var first := events[0];
      (if first.Done? && first.value.Ok? && first.value.value.Stderr? then [first.value.value.bytes] else [])
      + StderrTexts(events[1..])
  }

  /** Nothing but output, and no line of it complete within the bound. */
  predicate Quiet(events: seq<Read>, text: Bytes) {
    && (forall i | 0 <= i < |events| :: events[i].Done? && events[i].value.Ok? && !events[i].value.value.Exited?)
    && NEWLINE !in text + StdoutText(events)
    && |text| + |StdoutText(events)| <= 1048576
  }

  lemma {:induction false} QuietTail(events: seq<Read>, text: Bytes)
    requires events != [] && Quiet(events, text)
    ensures Quiet(events[1..], text + StdoutOf(events[0])) && NEWLINE !in text + StdoutOf(events[0])
    ensures |text| + |StdoutOf(events[0])| <= 1048576
  {
    Assoc(text, StdoutOf(events[0]), StdoutText(events[1..]));
    assert forall i | 0 <= i < |events[1..]| :: events[1..][i] == events[i + 1];
  }

  /** Quiet reads are only collected. */
  lemma {:induction false} ListenPastQuiet(events: seq<Read>, n: nat, text: Bytes, id: string, parse: Parse)
    requires n <= |events| && Quiet(events[..n], text)
    ensures Listen(events, text, id, parse)
            == Behind(StderrTexts(events[..n]), Listen(events[n..], text + StdoutText(events[..n]), id, parse))
    decreases n
  {
    if n == 0 {
      assert events[0..] == events && text + [] == text;
      var h := Listen(events, text, id, parse);
      assert [] + h.stderr == h.stderr;
    } else {
      var front, rest, next := events[..n], events[1..], text + StdoutOf(events[0]);
      assert front[0] == events[0] && front[1..] == rest[..n - 1] && rest[n - 1..] == events[n..];
      QuietTail(front, text);
      ListenPastQuiet(rest, n - 1, next, id, parse);
      QuietStep(events, text, id, parse);
      FrontTexts(front);
      hide Listen, StdoutText, StderrTexts, StdoutOf, Quiet;
      Assoc(text, StdoutOf(events[0]), StdoutText(rest[..n - 1]));
      BehindTwice(StderrTexts([events[0]]), StderrTexts(rest[..n - 1]),
                  Listen(events[n..], text + StdoutText(front), id, parse));
    }
  }

  lemma {:induction false} FrontTexts(events: seq<Read>)
    requires events != []
    ensures StdoutText(events) == StdoutOf(events[0]) + StdoutText(events[1..])
    ensures StderrTexts(events) == StderrTexts([events[0]]) + StderrTexts(events[1..])
  {
    assert [events[0]][1..] == [];
  }

  lemma {:induction false} BehindTwice(a: seq<Bytes>, b: seq<Bytes>, h: Heard)
    ensures Behind(a, Behind(b, h)) == Behind(a + b, h)
  {
    assert a + (b + h.stderr) == (a + b) + h.stderr;
  }

  lemma {:induction false} QuietStep(events: seq<Read>, text: Bytes, id: string, parse: Parse)
    requires events != [] && events[0].Done? && events[0].value.Ok? && !events[0].value.value.Exited?
    requires NEWLINE !in text + StdoutOf(events[0]) && |text| + |StdoutOf(events[0])| <= 1048576
    ensures Listen(events, text, id, parse)
            == Behind(StderrTexts([events[0]]), Listen(events[1..], text + StdoutOf(events[0]), id, parse))
  {
    assert text + [] == text;
    OneText(events[0]);
    var tail := events[1..];
    BehindNothing(Listen(tail, text + StdoutOf(events[0]), id, parse));
    hide StderrTexts, Behind, Judge;
  }

  lemma {:induction false} OneText(r: Read)
    ensures StderrTexts([r]) == if r.Done? && r.value.Ok? && r.value.value.Stderr? then [r.value.value.bytes] else []
  {
    assert [r][1..] == [];
  }

  lemma {:induction false} BehindNothing(h: Heard)
    ensures Behind([], h) == h
  {
    assert [] + h.stderr == h.stderr;
  }

  /**
   The first read that is not quiet decides: a drop, a cancellation, a failed read, an exit, output beyond
   the bound, or output that completes a line. The line must be all there is, hold a frame that parses,
   with the schema version, for this turn.
   */
  lemma {:induction false} FirstLoudReadDecides(events: seq<Read>, n: nat, id: string, parse: Parse)
    requires n < |events| && Quiet(events[..n], [])
    ensures var h, text := Listen(events, [], id, parse), StdoutText(events[..n]);
            match events[n]
            case Dropped => h == Heard(StderrTexts(events[..n]), Abandoned)
            case Interrupted => h == Heard(StderrTexts(events[..n]), Stopped)
            case Done(Err(error)) => h == Heard(StderrTexts(events[..n]), Broken(ProcessFailed(error)))
            case Done(Ok(Exited(exit))) => h == Heard(StderrTexts(events[..n]), Gone(exit))
            case Done(Ok(Stderr(_))) => true
            case Done(Ok(Stdout(bytes))) =>
              && (|text| + |bytes| > 1048576 ==> h == Heard(StderrTexts(events[..n]), Broken(OversizedFrame)))
              && (|text| + |bytes| <= 1048576 && NEWLINE in text + bytes ==>
                    h.stderr == StderrTexts(events[..n]) && Verdict(text + bytes, id, parse, h.end))
  {
    var text, err := StdoutText(events[..n]), StderrTexts(events[..n]);
    ListenPastQuiet(events, n, [], id, parse);
    LoudRead(events[n..], text, id, parse);
    hide Listen, StdoutText, StderrTexts, Verdict, Quiet;
    assert [] + text == text && events[n..][0] == events[n] && err + [] == err;
  }

  lemma {:induction false} LoudRead(events: seq<Read>, text: Bytes, id: string, parse: Parse)
    requires events != []
    ensures var h := Listen(events, text, id, parse);
            match events[0]
            case Dropped => h == Heard([], Abandoned)
            case Interrupted => h == Heard([], Stopped)
            case Done(Err(error)) => h == Heard([], Broken(ProcessFailed(error)))
            case Done(Ok(Exited(exit))) => h == Heard([], Gone(exit))
            case Done(Ok(Stderr(_))) => true
            case Done(Ok(Stdout(bytes))) =>
              && (|text| + |bytes| > 1048576 ==> h == Heard([], Broken(OversizedFrame)))
              && (|text| + |bytes| <= 1048576 && NEWLINE in text + bytes ==>
                    h.stderr == [] && Verdict(text + bytes, id, parse, h.end))
  {
    if events[0].Done? && events[0].value.Ok? && events[0].value.value.Stdout? {
      JudgeIsVerdict(text + events[0].value.value.bytes, id, parse);
    }
    hide Judge, Verdict;
  }

  lemma {:induction false} JudgeIsVerdict(all: Bytes, id: string, parse: Parse)
    ensures Verdict(all, id, parse, Judge(all, id, parse))
  {
    if all != [] {
      var line := all[..|all| - 1];
      assert line != [] ==> line[..|line| - 1] == all[..|all| - 2];
    }
  }

  /** What is made of everything written, once it holds a newline. */
  predicate Verdict(all: Bytes, id: string, parse: Parse, end: Ending) {
    var n := |all| - 1;
    if n < 0 || all[n] != 10 || 10 in all[..n] then end == Broken(BadFrame)
    else
      var frame := if n > 0 && all[n - 1] == 13 then all[..n - 1] else all[..n];
      if frame == [] || parse(frame).None? || parse(frame).value.schema != 1 then end == Broken(BadFrame)
      else if parse(frame).value.turnId != id then end == Broken(TurnMismatch)
      else end == Answer(parse(frame).value)
  }

  /** As long as it is quiet the turn is still listening. */
  lemma {:induction false} QuietGoesOn(events: seq<Read>, id: string, parse: Parse)
    requires Quiet(events, [])
    ensures Listen(events, [], id, parse) == Heard(StderrTexts(events), Abandoned)
  {
    assert events[..|events|] == events && events[|events|..] == [];
    ListenPastQuiet(events, |events|, [], id, parse);
    assert StderrTexts(events) + [] == StderrTexts(events);
  }

  /** Standard error becomes diagnostics, one by one and in order. */
  lemma {:induction false} StderrIsNoted(t: Telemetry, stderr: seq<Bytes>)
    ensures var u, n := StderrNoted(t, stderr), |t.diagnostics|;
            && u == t.(diagnostics := u.diagnostics)
            && |u.diagnostics| == n + |stderr| && t.diagnostics <= u.diagnostics
            && forall i | 0 <= i < |stderr| ::
                 u.diagnostics[n + i] == Diagnostic(n + i, StderrSource, "process_stderr", stderr[i])
    decreases |stderr|
  {
    if stderr != [] {
      StderrIsNoted(t, stderr[..|stderr| - 1]);
    }
  }

  /** What a failed or cancelled operation leaves: its last entry and its notes, and everything else as it was. */
  lemma {:induction false} EndsInPlainTerms(t: Telemetry, kill: Kill)
    ensures var n, d := |t.lifecycle|, |t.diagnostics|;
            var failed := if kill.KillFailed? then 1 else 0;
            var c, f := CancelledRecord(t, true, kill), FailedRecord(t, kill);
            && c == t.(lifecycle := t.lifecycle + [Entry(n, Terminated(Cancelled))], diagnostics := c.diagnostics)
            && t.diagnostics <= c.diagnostics && |c.diagnostics| == d + failed
            && (kill.KillFailed? ==> c.diagnostics[d].code == "cancellation_termination_failed")
            && f == t.(lifecycle := t.lifecycle + [Entry(n, Crashed(ExitStatus(false, None, None)))],
                       diagnostics := f.diagnostics)
            && t.diagnostics <= f.diagnostics && |f.diagnostics| == d + failed + 1
            && f.diagnostics[d + failed].code == "protocol_failure"
            && (kill.KillFailed? ==> f.diagnostics[d].code == "protocol_termination_failed")
  {
  }

  /** The driver is in the state that belongs to the reply. */
  predicate StateFits(request: TurnRequest, r: Reply<TurnOutput>, after: Telemetry)
    requires after.lifecycle != []
  {
    match r
    case Lost => Current(after) == Ready || Current(after) == TurnRunning(request.turnId)
    case Returned(Ok(_)) => Current(after) == Ready
    case Returned(Err(OperationCancelled)) => Current(after) == Terminated(Cancelled)
    case Returned(Err(UnexpectedExit(exit))) => Current(after) == Crashed(exit)
    case Returned(Err(_)) => Current(after) == Crashed(ExitStatus(false, None, None))
  }

  predicate HasControl(s: string) {
    exists i :: 0 <= i < |s| && (s[i] as int < 0x20 || 0x7f <= s[i] as int < 0xa0)
  }

  /** The record names the turn, its own input and what was answered. */
  predicate RecordsTurn(before: seq<TurnRecord>, after: seq<TurnRecord>, request: TurnRequest, output: TurnOutput) {
    && |after| == |before| + 1 && before <= after
    && var turn := after[|before|];
       && turn.turnId == request.turnId && turn.input == request.input
       && turn.output == output.visible && turn.calls == output.calls
  }

  /**
   A turn in plain terms: it is refused unless the driver is ready with a process, the identity is
   printable and the request encodes; any other one that is not cancelled at once is logged; an output is
   recorded with its own request; and the driver ends in the state that belongs to the reply.
   */
  lemma {:induction false} TurnInPlainTerms(can: bool, before: Telemetry, request: TurnRequest, encodes: bool,
                                            cancelled: bool, write: Await<Result<(), ProcessError>>,
                                            events: seq<Read>, kill: Kill, parse: Parse, r: Reply<TurnOutput>,
                                            after: Telemetry)
    requires TurnEnds(can, before, request, encodes, cancelled, write, events, kill, parse, r, after)
    ensures after.lifecycle != [] && before.lifecycle <= after.lifecycle && after.restarts == before.restarts
    ensures r.Returned? && r.result.Ok? ==> RecordsTurn(before.turns, after.turns, request, r.result.value)
    ensures !(r.Returned? && r.result.Ok?) ==> after.turns == before.turns
    ensures var refused := !can || request.turnId == "" || HasControl(request.turnId) || !encodes;
            if refused then
              && after == before
              && r == Returned(Err(if !can then InvalidTransition("request_turn", Current(before))
                                   else if request.turnId == "" || HasControl(request.turnId) then BadFrame
                                   else Serialization))
            else
              && StateFits(request, r, after)
              && (!cancelled ==>
                    && |after.lifecycle| > |before.lifecycle|
                    && after.lifecycle[|before.lifecycle|].state == TurnRunning(request.turnId))
  {
    var begun := Logged(before, TurnRunning(request.turnId));
    var heard := Listen(events, [], request.turnId, parse);
    var now := StderrNoted(begun, heard.stderr);
    StderrIsNoted(begun, heard.stderr);
    EndsInPlainTerms(before, kill);
    EndsInPlainTerms(begun, kill);
    EndsInPlainTerms(now, kill);
    ControlMeansInvalid(request.turnId);
    if can && ValidRunId(request.turnId) && encodes && !cancelled && write.Done? && write.value.Ok? {
      HearingInPlainTerms(begun, request, events, kill, parse, r, after);
    }
    hide Listen, StderrNoted, CancelledRecord, FailedRecord, ValidRunId, HearingEnds, HasControl;
  }

  lemma {:induction false} ControlMeansInvalid(id: string)
    ensures ValidRunId(id) <==> id != "" && !HasControl(id)
  {
  }

  lemma {:induction false} HearingInPlainTerms(begun: Telemetry, request: TurnRequest, events: seq<Read>, kill: Kill,
                                               parse: Parse, r: Reply<TurnOutput>, after: Telemetry)
    requires begun.lifecycle != [] && Current(begun) == TurnRunning(request.turnId)
    requires HearingEnds(begun, request, events, kill, parse, r, after)
    ensures after.lifecycle != [] && begun.lifecycle <= after.lifecycle && after.restarts == begun.restarts
    ensures r.Returned? && r.result.Ok? ==> RecordsTurn(begun.turns, after.turns, request, r.result.value)
    ensures !(r.Returned? && r.result.Ok?) ==> after.turns == begun.turns
    ensures StateFits(request, r, after)
  {
    var heard := Listen(events, [], request.turnId, parse);
    var now := StderrNoted(begun, heard.stderr);
    StderrIsNoted(begun, heard.stderr);
    EndsInPlainTerms(now, kill);
    BrokenErrors(events, [], request.turnId, parse);
    hide Listen, StderrNoted, CancelledRecord, FailedRecord;
  }

  /** A broken turn is never mistaken for a cancelled one or an exit. */
  lemma {:induction false} BrokenErrors(events: seq<Read>, text: Bytes, id: string, parse: Parse)
    ensures var end := Listen(events, text, id, parse).end;
            end.Broken? ==> end.error == BadFrame || end.error == OversizedFrame || end.error == TurnMismatch
                            || end.error.ProcessFailed?
    decreases |events|
  {
    if events != [] && events[0].Done? && events[0].value.Ok? && !events[0].value.value.Exited? {
      var bytes := events[0].value.value.bytes;
      BrokenErrors(events[1..], if events[0].value.value.Stdout? then text + bytes else text, id, parse);
    }
  }
}
