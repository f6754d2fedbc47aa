/**
 What one process run of the native harness means: how its output is collected, what a version probe
 and a turn make of it, and the same in plain terms. How every await ends is a parameter; what the
 harness binaries mean by their output is given by functions.
 */
module HarnessRuns {
  import opened Integers
  import opened Redaction
  import opened Process
  import opened Lifecycle
  import opened DriverTelemetry
  import opened Turns
  import Archive = TelemetryArchive

  const MAX_STDOUT_BYTES: nat := 1048576

  /** An await without a cancellation branch. */
  datatype Plain<+T> = Unfinished | Finished(value: T)

  /** The adapter and the process of one run. */
  datatype World = World(spawn: Await<Result<Handle, ProcessError>>, close: Plain<Result<(), ProcessError>>,
                         events: seq<Read>, kill: Kill)

  /** What a standard error text points to, from harmless to worst. */
  datatype Severity = Unclassified | McpInitializationFailed | AuthenticationFailed | TlsTrustFailed | SandboxDenied

  type Classify = Bytes -> Severity

  function SeverityRank(s: Severity): nat {
    match s
    case Unclassified => 0
    case McpInitializationFailed => 1
    case AuthenticationFailed => 2
    case TlsTrustFailed => 3
    case SandboxDenied => 4
  }

  function Worst(a: Severity, b: Severity): Severity {
    if SeverityRank(a) >= SeverityRank(b) then a else b
  }

  function FailureCode(s: Severity): string {
    match s
    case SandboxDenied => "harness_sandbox_denied"
    case TlsTrustFailed => "harness_tls_trust_failed"
    case AuthenticationFailed => "harness_authentication_failed"
    case McpInitializationFailed => "harness_mcp_initialization_failed"
    case Unclassified => "harness_stderr_redacted"
  }

  /** Everything a process wrote before it exited. */
  datatype Captured = Captured(stdout: Bytes, stderrBytes: U64, worst: Severity, exit: ExitStatus)

  datatype Run =
    | Exits(captured: Captured)
    | Failed(error: DriverError)
    | Oversized
    | RunStopped
    | RunAbandoned

  // ---------------------------------------------------------------- what a run means

  /** Reads until exit; standard output is bounded, standard error only counted. */
  function Collect(events: seq<Read>, stdout: Bytes, stderrBytes: U64, worst: Severity, classify: Classify): Run
    decreases |events|
  {
    if events == [] then RunAbandoned
    else match events[0]
      case Dropped => RunAbandoned
      case Interrupted => RunStopped
      case Done(Err(error)) => Failed(ProcessFailed(error))
      case Done(Ok(Exited(exit))) => Exits(Captured(stdout, stderrBytes, worst, exit))
      case Done(Ok(Stderr(bytes))) =>
        Collect(events[1..], stdout, SaturatingAdd(stderrBytes, |bytes|), Worst(worst, classify(bytes)), classify)
      case Done(Ok(Stdout(bytes))) =>
        if |stdout| + |bytes| > MAX_STDOUT_BYTES then Oversized
        else Collect(events[1..], stdout + bytes, stderrBytes, worst, classify)
  }

  function RunOf(w: World, classify: Classify): Run {
    match w.spawn
    case Dropped => RunAbandoned
    case Interrupted => RunStopped
    case Done(Err(error)) => Failed(ProcessFailed(error))
    case Done(Ok(_)) =>
      match w.close
      case Unfinished => RunAbandoned
      case Finished(Err(error)) => Failed(ProcessFailed(error))
      case Finished(Ok(_)) => Collect(w.events, [], 0, Unclassified, classify)
  }

  predicate Spawned(w: World) {
    w.spawn.Done? && w.spawn.value.Ok?
  }

  /** Everything read from standard error. */
  function StderrLength(events: seq<Read>): nat {
    if events == [] then 0
    else
      var first := events[0];
      (if first.Done? && first.value.Ok? && first.value.value.Stderr? then |first.value.value.bytes| else 0)
      + StderrLength(events[1..])
  }

  lemma {:induction false} StderrSplit(events: seq<Read>, m: nat)
    requires m < |events|
    ensures StderrLength(events[..m + 1]) == StderrLength(events[..1]) + StderrLength(events[1..][..m])
  {
    assert events[..m + 1][1..] == events[1..][..m] && events[..1][1..] == [];
  }

  /** A completed run captured all of the bounded standard output and the size of standard error. */
  lemma {:induction false} CollectedAll(events: seq<Read>, stdout: Bytes, stderrBytes: U64, worst: Severity,
                                        classify: Classify)
    returns (n: nat)
    requires Collect(events, stdout, stderrBytes, worst, classify).Exits? && |stdout| <= MAX_STDOUT_BYTES
    ensures var c := Collect(events, stdout, stderrBytes, worst, classify).captured;
            && n < |events| && events[n] == Done(Ok(Exited(c.exit)))
            && c.stdout == stdout + StdoutText(events[..n]) && |c.stdout| <= MAX_STDOUT_BYTES
            && c.stderrBytes == SaturatingAdd(stderrBytes, StderrLength(events[..n]))
            && SeverityRank(c.worst) >= SeverityRank(worst)
    decreases |events|
  {
    var first, rest := events[0], events[1..];
    var event := first.value.value;
    if event.Exited? {
      n := 0;
      assert stdout + [] == stdout;
    } else {
      var bytes := StdoutOf(first);
      var errs := if event.Stderr? then SaturatingAdd(stderrBytes, |event.bytes|) else stderrBytes;
      var seen := if event.Stderr? then Worst(worst, classify(event.bytes)) else worst;
      assert stdout + [] == stdout;
      assert Collect(events, stdout, stderrBytes, worst, classify)
             == Collect(rest, stdout + bytes, errs, seen, classify);
      assert errs == SaturatingAdd(stderrBytes, StderrLength(events[..1])) by { assert events[..1][1..] == []; }
      hide Collect, StdoutText;
      var m := CollectedAll(rest, stdout + bytes, errs, seen, classify);
      n := m + 1;
      StdoutSplit(events, m);
      StderrSplit(events, m);
      hide StdoutOf, StderrLength;
      Assoc(stdout, bytes, StdoutText(rest[..m]));
    }
  }

  // ---------------------------------------------------------------- what a probe means

  /** What a driver knows of its harness: the version it needs and how to read what the harness writes. */
  datatype Dialect = Dialect(expected: string, reported: Bytes -> Option<string>, belowMinimum: string -> bool,
                             classify: Classify)

  function VersionError(v: Dialect, stdout: Bytes): Option<DriverError> {
    match v.reported(stdout)
    case None => Some(VersionUnparseable)
    case Some(installed) =>
      if v.belowMinimum(installed) then Some(VersionUnsupported)
      else if installed != v.expected then Some(VersionMismatch)
      else None
  }

  /** The harness is installed, runs, and reports exactly the version the manifest asks for, which is not too old. */
  predicate ProbePasses(v: Dialect, run: Run) {
    && run.Exits? && run.captured.exit.success
    && v.reported(run.captured.stdout) == Some(v.expected) && !v.belowMinimum(v.expected)
  }

  /** The caller drops the future while the process is being killed. */
  predicate KillLost(w: World, run: Run) {
    w.kill.KillDropped? && (run.Oversized? || (run.RunStopped? && Spawned(w)))
  }

  /** How an operation around one run ends; None when its future was dropped. */
  function ProbeError(v: Dialect, run: Run): Option<DriverError> {
    match run
    case RunAbandoned => None
    case RunStopped => Some(OperationCancelled)
    case Oversized => Some(OversizedFrame)
    case Failed(error) => Some(if error == ProcessFailed(Spawn) then HarnessUnavailable else error)
    case Exits(c) => if !c.exit.success then Some(HarnessExit(c.exit)) else VersionError(v, c.stdout)
  }

  function FailureNoted(t: Telemetry, c: Captured): Telemetry {
    if c.stderrBytes > 0 then Noted(t, DriverSource, FailureCode(c.worst), []) else t
  }

  function StderrNotedAs(t: Telemetry, c: Captured, code: string): Telemetry {
    if c.stderrBytes > 0 then Noted(t, DriverSource, code, []) else t
  }

  /** What running one process returns; None when the future was dropped. */
  function RunResult(w: World, run: Run): Option<Result<Captured, DriverError>> {
    if run.RunAbandoned? || KillLost(w, run) then None
    else match run
      case Exits(c) => Some(Ok(c))
      case Failed(error) => Some(Err(error))
      case Oversized => Some(Err(OversizedFrame))
      case _ => Some(Err(OperationCancelled))
  }

  /** The record behind one run: only a cancellation that came through leaves a trace. */
  function RunRecord(t: Telemetry, w: World, run: Run): Telemetry {
    if run.RunStopped? && !KillLost(w, run) then CancelledRecord(t, Spawned(w), w.kill) else t
  }

  /** The record behind a run that did not complete. */
  function UnfinishedRecord(begun: Telemetry, w: World, run: Run): Telemetry {
    if run.RunAbandoned? || KillLost(w, run) then begun
    else if run.RunStopped? then CancelledRecord(begun, Spawned(w), w.kill)
    else Logged(begun, Crashed(SYNTHETIC_FAILURE))
  }

  function ProbeRecord(begun: Telemetry, v: Dialect, c: Captured): Telemetry {
    if !c.exit.success then Logged(FailureNoted(begun, c), Crashed(c.exit))
    else if VersionError(v, c.stdout).Some? then Logged(begun, Crashed(SYNTHETIC_FAILURE))
    else
      var noted := StderrNotedAs(begun, c, "version_probe_stderr_redacted");
      Logged(Noted(noted, DriverSource, "harness_ready", []), Ready)
  }

  datatype Normalized = Normalized(visible: string, calls: seq<Archive.ToolCall>)
  type Normalize = Bytes -> Option<Normalized>

  function TurnRecordOf(begun: Telemetry, request: TurnRequest, normalize: Normalize, c: Captured): Telemetry {
    if !c.exit.success then Logged(FailureNoted(begun, c), Crashed(c.exit))
    else match normalize(c.stdout)
      case None => Noted(Logged(begun, Crashed(SYNTHETIC_FAILURE)), DriverSource, "structured_output_rejected", [])
      case Some(answer) =>
        var turn := TurnOf(request, TurnOutput(SCHEMA_VERSION, request.turnId, answer.visible, answer.calls));
        Logged(Recorded(StderrNotedAs(begun, c, "harness_stderr_redacted"), turn), Ready)
  }

  function TurnResult(request: TurnRequest, normalize: Normalize, c: Captured): Result<TurnOutput, DriverError> {
    if !c.exit.success then Err(HarnessExit(c.exit))
    else match normalize(c.stdout)
      case None => Err(HarnessOutput)
      case Some(answer) => Ok(TurnOutput(SCHEMA_VERSION, request.turnId, answer.visible, answer.calls))
  }

  // ---------------------------------------------------------------- in plain terms

  predicate AllOutput(events: seq<Read>) {
    forall i | 0 <= i < |events| :: events[i].Done? && events[i].value.Ok? && !events[i].value.value.Exited?
  }

  /** Some standard error text was classified so. */
  predicate Saw(events: seq<Read>, classify: Classify, s: Severity) {
    exists i :: 0 <= i < |events| && events[i].Done? && events[i].value.Ok? && events[i].value.value.Stderr?
                && classify(events[i].value.value.bytes) == s
  }

  /** The gravest classification wins: sandbox, then trust, then authentication, then initialization. */
  function Gravest(events: seq<Read>, classify: Classify): Severity {
    if Saw(events, classify, SandboxDenied) then SandboxDenied
    else if Saw(events, classify, TlsTrustFailed) then TlsTrustFailed
    else if Saw(events, classify, AuthenticationFailed) then AuthenticationFailed
    else if Saw(events, classify, McpInitializationFailed) then McpInitializationFailed
    else Unclassified
  }

  lemma {:induction false} SawMore(events: seq<Read>, event: Read, classify: Classify, s: Severity)
    ensures Saw(events + [event], classify, s) <==> Saw(events, classify, s) || Saw([event], classify, s)
  {
    var all := events + [event];
    if Saw(events, classify, s) {
      var i :| 0 <= i < |events| && events[i].Done? && events[i].value.Ok? && events[i].value.value.Stderr?
               && classify(events[i].value.value.bytes) == s;
      assert all[i] == events[i];
    }
    assert all[|events|] == event && [event][0] == event;
  }

  lemma {:induction false} GravestMore(events: seq<Read>, event: Read, classify: Classify)
    ensures Gravest(events + [event], classify)
            == if event.Done? && event.value.Ok? && event.value.value.Stderr?
               then Worst(Gravest(events, classify), classify(event.value.value.bytes)) else Gravest(events, classify)
  {
    SawMore(events, event, classify, SandboxDenied);
    SawMore(events, event, classify, TlsTrustFailed);
    SawMore(events, event, classify, AuthenticationFailed);
    SawMore(events, event, classify, McpInitializationFailed);
    assert [event][0] == event;
    hide Saw;
    assert forall s :: Saw([event], classify, s) <==>
      event.Done? && event.value.Ok? && event.value.value.Stderr? && classify(event.value.value.bytes) == s by {
      OneSaw(event, classify);
    }
  }

  lemma {:induction false} OneSaw(event: Read, classify: Classify)
    ensures forall s :: Saw([event], classify, s) <==>
      event.Done? && event.value.Ok? && event.value.value.Stderr? && classify(event.value.value.bytes) == s
  {
    assert [event][0] == event;
  }

  /** Standard output and error collected so far. */
  lemma {:induction false} CollectPastOutput(events: seq<Read>, n: nat, classify: Classify)
    requires n <= |events| && AllOutput(events[..n]) && |StdoutText(events[..n])| <= 1048576
    ensures Collect(events, [], 0, Unclassified, classify)
            == Collect(events[n..], StdoutText(events[..n]), SaturatingAdd(0, StderrLength(events[..n])),
                       Gravest(events[..n], classify), classify)
    decreases n
  {
    hide Collect, StdoutText, StderrLength, Gravest, StdoutOf, Worst;
    if n == 0 {
      NothingCollected(events, classify);
    } else {
      var front, e := events[..n - 1], events[n - 1];
      assert events[..n] == front + [e] && events[..n][n - 1] == e;
      assert forall i | 0 <= i < n - 1 :: front[i] == events[..n][i];
      StdoutTextMore(front, e);
      StderrLengthMore(front, e);
      GravestMore(front, e, classify);
      CollectPastOutput(events, n - 1, classify);
      var rest := events[n - 1..];
      assert rest[0] == e && rest[1..] == events[n..] && rest[..1] == [e];
      CollectOne(rest, StdoutText(front), SaturatingAdd(0, StderrLength(front)), Gravest(front, classify), classify);
    }
  }

  lemma {:induction false} NothingCollected(events: seq<Read>, classify: Classify)
    ensures events[..0] == [] && events[0..] == events
    ensures StdoutText([]) == [] && StderrLength([]) == 0 && Gravest([], classify) == Unclassified
  {
  }

  lemma {:induction false} CollectOne(events: seq<Read>, stdout: Bytes, stderrBytes: U64, worst: Severity,
                                      classify: Classify)
    requires events != [] && AllOutput(events[..1]) && |stdout + StdoutOf(events[0])| <= 1048576
    ensures var e, next := events[0], events[1..];
            Collect(events, stdout, stderrBytes, worst, classify)
            == if e.value.value.Stderr?
               then Collect(next, stdout + StdoutOf(e), SaturatingAdd(stderrBytes, |e.value.value.bytes|),
                            Worst(worst, classify(e.value.value.bytes)), classify)
               else Collect(next, stdout + StdoutOf(e), stderrBytes, worst, classify)
  {
    assert events[..1][0] == events[0] && stdout + [] == stdout;
  }

  lemma {:induction false} StdoutTextMore(events: seq<Read>, e: Read)
    ensures StdoutText(events + [e]) == StdoutText(events) + StdoutOf(e)
  {
    if events == [] {
      assert ([] + [e])[1..] == [] && StdoutOf(e) + [] == StdoutOf(e);
    } else {
      StdoutTextMore(events[1..], e);
      assert (events + [e])[1..] == events[1..] + [e];
      Assoc(StdoutOf(events[0]), StdoutText(events[1..]), StdoutOf(e));
    }
  }

  lemma {:induction false} StderrLengthMore(events: seq<Read>, e: Read)
    ensures StderrLength(events + [e])
            == StderrLength(events)
               + if e.Done? && e.value.Ok? && e.value.value.Stderr? then |e.value.value.bytes| else 0
  {
    if events == [] {
      assert ([] + [e])[1..] == [];
    } else {
      StderrLengthMore(events[1..], e);
      assert (events + [e])[1..] == events[1..] + [e];
    }
  }

  /**
   The first read that is not output, or that goes beyond the bound, decides: a drop, a cancellation, a
   failed read, too much output, or the exit, which captures everything written before it.
   */
  lemma {:induction false} FirstEndDecides(events: seq<Read>, n: nat, classify: Classify)
    requires n < |events| && AllOutput(events[..n]) && |StdoutText(events[..n])| <= 1048576
    ensures var run, text := Collect(events, [], 0, Unclassified, classify), StdoutText(events[..n]);
            match events[n]
            case Dropped => run == RunAbandoned
            case Interrupted => run == RunStopped
            case Done(Err(error)) => run == Failed(ProcessFailed(error))
            case Done(Ok(Exited(exit))) =>
              var size := StderrLength(events[..n]);
              run == Exits(Captured(text, if size <= U64_MAX then size else U64_MAX, Gravest(events[..n], classify),
                                    exit))
            case Done(Ok(Stdout(bytes))) => |text| + |bytes| > 1048576 ==> run == Oversized
            case Done(Ok(Stderr(_))) => true
  {
    CollectPastOutput(events, n, classify);
    assert events[n..][0] == events[n];
    hide StdoutText, StderrLength, Gravest;
  }

  /** The process was started, its input closed, and it exited behind `n` reads of bounded output. */
  predicate RanToExit(w: World, n: nat, exit: ExitStatus) {
    && w.spawn.Done? && w.spawn.value.Ok? && w.close.Finished? && w.close.value.Ok?
    && n < |w.events| && AllOutput(w.events[..n]) && |StdoutText(w.events[..n])| <= 1048576
    && w.events[n] == Done(Ok(Exited(exit)))
  }

  /** A run exits exactly so, with everything captured. */
  lemma {:induction false} ExitsMeans(w: World, classify: Classify) returns (n: nat)
    requires RunOf(w, classify).Exits?
    ensures var c := RunOf(w, classify).captured;
            RanToExit(w, n, c.exit) && c.stdout == StdoutText(w.events[..n]) && c.worst == Gravest(w.events[..n],
                      classify)
  {
    n := ExitPosition(w.events, [], 0, Unclassified, classify);
    FirstEndDecides(w.events, n, classify);
    hide StdoutText, StderrLength, Gravest, Collect;
    assert [] + StdoutText(w.events[..n]) == StdoutText(w.events[..n]);
  }

  lemma {:induction false} RanToExitExits(w: World, n: nat, exit: ExitStatus, classify: Classify)
    requires RanToExit(w, n, exit)
    ensures RunOf(w, classify).Exits? && RunOf(w, classify).captured.exit == exit
    ensures RunOf(w, classify).captured.stdout == StdoutText(w.events[..n])
  {
    FirstEndDecides(w.events, n, classify);
    hide StdoutText, StderrLength, Gravest, Collect;
  }

  lemma {:induction false} ExitPosition(events: seq<Read>, stdout: Bytes, stderrBytes: U64, worst: Severity,
                                        classify: Classify)
    returns (n: nat)
    requires Collect(events, stdout, stderrBytes, worst, classify).Exits? && |stdout| <= 1048576
    ensures n < |events| && AllOutput(events[..n]) && |stdout + StdoutText(events[..n])| <= 1048576
    ensures events[n] == Done(Ok(Exited(Collect(events, stdout, stderrBytes, worst, classify).captured.exit)))
    decreases |events|
  {
    var first, rest := events[0], events[1..];
    var event := first.value.value;
    if event.Exited? {
      n := 0;
      assert stdout + [] == stdout;
    } else {
      var bytes := StdoutOf(first);
      var errs := if event.Stderr? then SaturatingAdd(stderrBytes, |event.bytes|) else stderrBytes;
      var seen := if event.Stderr? then Worst(worst, classify(event.bytes)) else worst;
      assert stdout + [] == stdout;
      assert Collect(events, stdout, stderrBytes, worst, classify)
             == Collect(rest, stdout + bytes, errs, seen, classify);
      var m := ExitPosition(rest, stdout + bytes, errs, seen, classify);
      hide Collect, StdoutText;
      n := m + 1;
      StdoutSplit(events, m);
      Assoc(stdout, bytes, StdoutText(rest[..m]));
      assert forall i | 0 <= i < n :: events[..n][i] == if i == 0 then first else rest[..m][i - 1];
    }
  }

  /** The diagnostic of a process that failed, by what its standard error pointed to. */
  predicate FailureNote(d: Diagnostic, worst: Severity) {
    d.source == DriverSource && match worst
    case SandboxDenied => d.code == "harness_sandbox_denied"
    case TlsTrustFailed => d.code == "harness_tls_trust_failed"
    case AuthenticationFailed => d.code == "harness_authentication_failed"
    case McpInitializationFailed => d.code == "harness_mcp_initialization_failed"
    case Unclassified => d.code == "harness_stderr_redacted"
  }

  /**
   A turn whose process exited, in plain terms: it answers exactly when the exit was a success and its
   output holds an answer, which is then returned and recorded under this turn; otherwise the driver has
   crashed and says why.
   */
  lemma {:induction false} ExitedTurnInPlainTerms(begun: Telemetry, request: TurnRequest, normalize: Normalize,
                                                  c: Captured)
    ensures var after, r := TurnRecordOf(begun, request, normalize, c), TurnResult(request, normalize, c);
            var answer, d := normalize(c.stdout), |begun.diagnostics|;
            && after.lifecycle != [] && begun.lifecycle == after.lifecycle[..|after.lifecycle| - 1]
            && after.restarts == begun.restarts && begun.diagnostics <= after.diagnostics
            && (if c.exit.success && answer.Some? then
                  && r == Ok(TurnOutput(1, request.turnId, answer.value.visible, answer.value.calls))
                  && Current(after) == Ready && RecordsTurn(begun.turns, after.turns, request, r.value)
                  && |after.diagnostics| == d + (if c.stderrBytes > 0 then 1 else 0)
                  && (c.stderrBytes > 0 ==> after.diagnostics[d].code == "harness_stderr_redacted")
                else if c.exit.success then
                  && r == Err(HarnessOutput) && Current(after) == Crashed(ExitStatus(false, None, None))
                  && after.turns == begun.turns
                  && |after.diagnostics| == d + 1 && after.diagnostics[d].code == "structured_output_rejected"
                else
                  && r == Err(HarnessExit(c.exit)) && Current(after) == Crashed(c.exit) && after.turns == begun.turns
                  && |after.diagnostics| == d + (if c.stderrBytes > 0 then 1 else 0)
                  && (c.stderrBytes > 0 ==> FailureNote(after.diagnostics[d], c.worst)))
  {
  }

  /** A probe whose process exited: ready exactly after a success that reports the expected, supported version. */
  lemma {:induction false} ExitedProbeInPlainTerms(begun: Telemetry, v: Dialect, c: Captured)
    ensures var after, d := ProbeRecord(begun, v, c), |begun.diagnostics|;
            var version := v.reported(c.stdout);
            && after.lifecycle != [] && begun.lifecycle == after.lifecycle[..|after.lifecycle| - 1]
            && after.restarts == begun.restarts && after.turns == begun.turns && begun.diagnostics <= after.diagnostics
            && (if c.exit.success && version == Some(v.expected) && !v.belowMinimum(v.expected) then
                  && Current(after) == Ready && ProbePasses(v, Exits(c))
                  && |after.diagnostics| == d + (if c.stderrBytes > 0 then 2 else 1)
                  && after.diagnostics[|after.diagnostics| - 1].code == "harness_ready"
                else
                  && !ProbePasses(v, Exits(c)) && Current(after).Crashed?
                  && Current(after).exit == (if c.exit.success then ExitStatus(false, None, None) else c.exit)
                  && ProbeError(v, Exits(c)) == Some(
                       if !c.exit.success then HarnessExit(c.exit)
                       else if version.None? then VersionUnparseable
                       else if v.belowMinimum(version.value) then VersionUnsupported
                       else VersionMismatch)
                  && |after.diagnostics| == d + (if !c.exit.success && c.stderrBytes > 0 then 1 else 0)
                  && (!c.exit.success && c.stderrBytes > 0 ==> FailureNote(after.diagnostics[d], c.worst)))
  {
  }

  /** A run that did not exit: dropped, cancelled, or crashed with its error. */
  lemma {:induction false} UnfinishedInPlainTerms(begun: Telemetry, w: World, classify: Classify)
    requires !RunOf(w, classify).Exits?
    ensures var run := RunOf(w, classify);
            var after := UnfinishedRecord(begun, w, run);
            && begun.lifecycle <= after.lifecycle && after.turns == begun.turns && after.restarts == begun.restarts
            && match RunResult(w, run)
               case None => after == begun
               case Some(Err(OperationCancelled)) => after.lifecycle != [] && Current(after) == Terminated(Cancelled)
               case Some(Err(_)) =>
                 && after.lifecycle
                    == begun.lifecycle + [Entry(|begun.lifecycle|, Crashed(ExitStatus(false, None, None)))]
                 && after.diagnostics == begun.diagnostics
               case Some(Ok(_)) => false
    ensures match w.spawn
            case Dropped => RunResult(w, RunOf(w, classify)) == None
            case Interrupted => RunResult(w, RunOf(w, classify)) == Some(Err(OperationCancelled))
            case Done(Err(error)) => RunResult(w, RunOf(w, classify)) == Some(Err(ProcessFailed(error)))
            case Done(Ok(_)) =>
              w.close.Finished? && w.close.value.Err? ==>
                RunResult(w, RunOf(w, classify)) == Some(Err(ProcessFailed(w.close.value.error)))
  {
    CollectErrors(w.events, [], 0, Unclassified, classify);
    hide Collect;
  }

  /**
   A run is answered for unless its future was dropped: while it was awaited, or in the kill of a process
   that wrote too much or was cancelled. A probe then fails with the error of the run, and a harness that
   could not be started is called unavailable.
   */
  lemma {:induction false} RunErrorsInPlainTerms(w: World, v: Dialect)
    ensures var run := RunOf(w, v.classify);
            && (RunResult(w, run) == None <==>
                  || run == RunAbandoned
                  || (w.kill.KillDropped?
                      && (run == Oversized || (run == RunStopped && w.spawn.Done? && w.spawn.value.Ok?))))
            && (!run.Exits? && RunResult(w, run).Some? ==>
                  && RunResult(w, run).value.Err?
                  && var error := RunResult(w, run).value.error;
                     ProbeError(v, run) == Some(if error == ProcessFailed(Spawn) then HarnessUnavailable else error))
            && (run.Oversized? && w.kill != KillDropped ==> RunResult(w, run) == Some(Err(OversizedFrame)))
            && (run.RunStopped? && w.kill != KillDropped ==> RunResult(w, run) == Some(Err(OperationCancelled)))
  {
    hide Collect;
  }

  lemma {:induction false} CollectErrors(events: seq<Read>, stdout: Bytes, stderrBytes: U64, worst: Severity,
                                         classify: Classify)
    ensures var run := Collect(events, stdout, stderrBytes, worst, classify); run.Failed? ==> run.error.ProcessFailed?
    decreases |events|
  {
    if events != [] && events[0].Done? && events[0].value.Ok? && !events[0].value.value.Exited? {
      var event := events[0].value.value;
      if event.Stderr? {
        CollectErrors(events[1..], stdout, SaturatingAdd(stderrBytes, |event.bytes|),
                      Worst(worst, classify(event.bytes)), classify);
      } else {
        CollectErrors(events[1..], stdout + event.bytes, stderrBytes, worst, classify);
      }
    }
  }
}
