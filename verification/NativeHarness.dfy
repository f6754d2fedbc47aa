/**
 The native harness driver: a version probe, then one process per turn. How every await ends is a
 parameter, as in the generic driver; what the harness binaries mean by their output is given by
 functions: `reported` finds the version in a probe's output, `normalize` the answer in a turn's.
 */
module NativeHarness {
  import opened Integers
  import opened Redaction
  import opened Process
  import opened Lifecycle
  import opened DriverTelemetry
  import opened Turns
  import opened GenericDriver
  import opened HarnessRuns

  // ---------------------------------------------------------------- checkpoints

  datatype NativeCheckpoint = NativeCheckpoint(
    schema: nat, runId: string, manifest: string, harness: string, state: State, telemetry: Telemetry)

  predicate NativeRestorable(manifest: string, harness: string, c: NativeCheckpoint) {
    && c.schema == SCHEMA_VERSION && c.manifest == manifest && c.harness == harness
    && Consistent(c.telemetry, c.runId, c.manifest)
    && Current(c.telemetry) == c.state
    && Stable(c.state)
  }

  // ---------------------------------------------------------------- the driver

  class NativeHarnessDriver {
    const manifest: string
    const harness: string
    const runId: string
    const dialect: Dialect
    var state: State
    var process: Option<Handle>
    var telemetry: Telemetry
    var needsProbe: bool
    ghost const saved: Telemetry

    ghost predicate Records()
      reads this
    {
      Sound(Native, saved, telemetry, runId, manifest) && Current(telemetry) == state
    }

    /** This driver object has logged something since it was created or restored. */
    ghost predicate Lived()
      reads this
    {
      |saved.lifecycle| < |telemetry.lifecycle|
    }

    /** Whenever no operation is under way: no process in a stable state, and readiness without a probe was earned. */
    ghost predicate Valid()
      reads this
    {
      && Records()
      && (Stable(state) ==> process.None?)
      && (state.Ready? && !needsProbe ==> Lived())
    }

    constructor (runId: string, manifest: string, harness: string, dialect: Dialect)
      requires ValidRunId(runId)
      ensures Valid() && state == Pending && saved == telemetry == NewRecord(runId, manifest)
    {
      this.runId, this.manifest, this.harness, this.dialect := runId, manifest, harness, dialect;
      state, process, needsProbe := Pending, None, true;
      telemetry, saved := NewRecord(runId, manifest), NewRecord(runId, manifest);
      new;
      SoundBegins(Native, telemetry, runId, manifest);
    }

    constructor Restore(manifest: string, harness: string, dialect: Dialect, c: NativeCheckpoint)
      requires NativeRestorable(manifest, harness, c)
      ensures Valid() && saved == telemetry == c.telemetry && state == c.state
      ensures this.manifest == manifest && this.harness == harness && this.runId == c.runId
      ensures TakeCheckpoint() == Ok(c)
      ensures state.Ready? ==> needsProbe
    {
      this.runId, this.manifest, this.harness, this.dialect := c.runId, manifest, harness, dialect;
      state, process, needsProbe := c.state, None, c.state.Ready?;
      telemetry, saved := c.telemetry, c.telemetry;
      new;
      SoundBegins(Native, telemetry, runId, manifest);
    }

    function TakeCheckpoint(): (r: Result<NativeCheckpoint, DriverError>)
      requires Valid()
      reads this
      ensures r.Ok? <==> state.Pending? || state.Ready? || state.Terminated? || state.Crashed?
      ensures r.Err? ==> r.error == InvalidCheckpoint
      ensures r.Ok? ==> NativeRestorable(manifest, harness, r.value) && r.value.telemetry == telemetry
      ensures r.Ok? ==> r.value.state == state && r.value.runId == runId
    {
      if !Stable(state) then Err(InvalidCheckpoint)
      else Ok(NativeCheckpoint(SCHEMA_VERSION, runId, manifest, harness, state, telemetry))
    }

    method Transition(next: State)
      requires Records() && CanLog(Native, saved, telemetry, next) && !(state.TurnRunning? && next.Ready?)
      modifies `state, `telemetry
      ensures Records() && state == next && telemetry == Logged(old(telemetry), next) && Lived()
      ensures forall s :: CanLog(Native, saved, telemetry, s) <==> Allowed(Native, Some(old(state)), next, s)
    {
      SoundLogged(Native, saved, telemetry, runId, manifest, next);
      state, telemetry := next, Logged(telemetry, next);
    }

    method Diagnostic(code: string)
      requires Records()
      modifies `telemetry
      ensures Records() && telemetry == Noted(old(telemetry), DriverSource, code, [])
      ensures forall s :: CanLog(Native, saved, telemetry, s) <==> CanLog(Native, saved, old(telemetry), s)
    {
      SoundNoted(Native, saved, telemetry, runId, manifest, DriverSource, code, []);
      telemetry := Noted(telemetry, DriverSource, code, []);
    }

    method MarkCrashed(exit: ExitStatus)
      requires Records() && CanLog(Native, saved, telemetry, Crashed(exit))
      modifies `state, `telemetry, `process
      ensures Records() && process == None && state == Crashed(exit)
      ensures telemetry == Logged(old(telemetry), Crashed(exit))
    {
      process := None;
      Transition(Crashed(exit));
    }

    method CancellationError(kill: Kill) returns (done: bool)
      requires Records() && CanLog(Native, saved, telemetry, Terminated(Cancelled))
      modifies `state, `telemetry, `process
      ensures Records()
      ensures done <==> !(old(process).Some? && kill.KillDropped?)
      ensures !done ==> unchanged(this)
      ensures done ==> process == None && state == Terminated(Cancelled)
      ensures done ==> telemetry == CancelledRecord(old(telemetry), old(process).Some?, kill)
    {
      hide Sound, CanLog;
      if process.Some? && kill.KillDropped? {
        return false;
      }
      SoundCancelled(Native, saved, telemetry, runId, manifest, process.Some?, kill);
      telemetry := CancelledRecord(telemetry, process.Some?, kill);
      state, process := Terminated(Cancelled), None;
      return true;
    }

    /** Runs one process to its end; None when the future was dropped. */
    method RunProcess(w: World) returns (r: Option<Result<Captured, DriverError>>)
      requires Records() && CanLog(Native, saved, telemetry, Terminated(Cancelled))
      requires process.None? && (state.Starting? || state.TurnRunning?)
      modifies `state, `telemetry, `process
      ensures Records()
      ensures r == RunResult(w, RunOf(w, dialect.classify))
      ensures telemetry == RunRecord(old(telemetry), w, RunOf(w, dialect.classify))
      ensures r.Some? && r.value.Ok? ==> process == None
      ensures r == Some(Err(OperationCancelled)) <==> state == Terminated(Cancelled)
      ensures state == Terminated(Cancelled) ==> process == None
    {
      hide Sound, CanLog;
      match w.spawn
      case Dropped => return None;
      case Interrupted =>
        var _ := CancellationError(w.kill);
        return Some(Err(OperationCancelled));
      case Done(Err(error)) => return Some(Err(ProcessFailed(error)));
      case Done(Ok(handle)) =>
        process := Some(handle);
        match w.close {
          case Unfinished => return None;
          case Finished(Err(error)) => return Some(Err(ProcessFailed(error)));
          case Finished(Ok(_)) => r := CollectOutput(w);
        }
    }

    method CollectOutput(w: World) returns (r: Option<Result<Captured, DriverError>>)
      requires Records() && CanLog(Native, saved, telemetry, Terminated(Cancelled))
      requires process.Some? && Spawned(w) && (state.Starting? || state.TurnRunning?)
      modifies `state, `telemetry, `process
      ensures Records()
      ensures r == RunResult(w, Collect(w.events, [], 0, Unclassified, dialect.classify))
      ensures telemetry == RunRecord(old(telemetry), w, Collect(w.events, [], 0, Unclassified, dialect.classify))
      ensures r.Some? && r.value.Ok? ==> process == None
      ensures r == Some(Err(OperationCancelled)) <==> state == Terminated(Cancelled)
      ensures state == Terminated(Cancelled) ==> process == None
    {
      hide Sound, CanLog;
      var stdout: Bytes, stderrBytes: U64, worst := [], 0, Unclassified;
      var i := 0;
      assert w.events[0..] == w.events;
      while i < |w.events|
        invariant i <= |w.events|
        invariant Collect(w.events, [], 0, Unclassified, dialect.classify)
                  == Collect(w.events[i..], stdout, stderrBytes, worst, dialect.classify)
      {
        assert w.events[i..][0] == w.events[i] && w.events[i..][1..] == w.events[i + 1..];
        match w.events[i] {
          case Dropped => return None;
          case Interrupted =>
            var done := CancellationError(w.kill);
            return if done then Some(Err(OperationCancelled)) else None;
          case Done(Err(error)) => return Some(Err(ProcessFailed(error)));
          case Done(Ok(Stdout(bytes))) =>
            if |stdout| + |bytes| > MAX_STDOUT_BYTES {
              if w.kill.KillDropped? {
                return None;
              }
              process := None;
              return Some(Err(OversizedFrame));
            }
            stdout := stdout + bytes;
          case Done(Ok(Stderr(bytes))) =>
            stderrBytes, worst := SaturatingAdd(stderrBytes, |bytes|), Worst(worst, dialect.classify(bytes));
          case Done(Ok(Exited(exit))) =>
            process := None;
            return Some(Ok(Captured(stdout, stderrBytes, worst, exit)));
        }
        i := i + 1;
      }
      return None;
    }

    /** A failed run crashes the driver; a cancelled one has terminated it already. */
    method AfterFailure(error: DriverError)
      requires Records() && if error.OperationCancelled? then state == Terminated(Cancelled) && process.None?
                            else CanLog(Native, saved, telemetry, Crashed(SYNTHETIC_FAILURE))
      modifies `state, `telemetry, `process
      ensures Valid()
      ensures error.OperationCancelled? ==> telemetry == old(telemetry)
      ensures !error.OperationCancelled? ==> telemetry == Logged(old(telemetry), Crashed(SYNTHETIC_FAILURE))
    {
      hide Sound, CanLog;
      if error != OperationCancelled {
        MarkCrashed(SYNTHETIC_FAILURE);
      }
    }

    /** Ready exactly after a probe that passes; a probe that ends any other way leaves no Ready behind. */
    method Probe(w: World) returns (r: Reply<()>)
      requires Records() && process.None? && (state.Pending? || state.Ready? || state.Crashed?)
      modifies this
      ensures Valid()
      ensures var run, begun := RunOf(w, dialect.classify), Logged(old(telemetry), Starting);
              && (if run.Exits? then telemetry == ProbeRecord(begun, dialect, run.captured)
                  else telemetry == UnfinishedRecord(begun, w, run))
              && r == if KillLost(w, run) || run.RunAbandoned? then Lost
                      else if ProbePasses(dialect, run) then Returned(Ok(()))
                      else Returned(Err(ProbeError(dialect, run).value))
      ensures r == Returned(Ok(())) <==> state == Ready
      ensures needsProbe == (old(needsProbe) && state != Ready)
    {
      hide Sound, RunOf, ProbeRecord, ValidRunId;
      Transition(Starting);
      var run := RunProcess(w);
      if run.None? {
        return Lost;
      }
      if run.value.Err? {
        var error := run.value.error;
        AfterFailure(error);
        return Returned(Err(if error == ProcessFailed(Spawn) then HarnessUnavailable else error));
      }
      r := ConcludeProbe(run.value.value);
    }

    /** The verdict on a probe whose process has exited. */
    method ConcludeProbe(captured: Captured) returns (r: Reply<()>)
      requires Records() && process.None? && Lived() && state.Starting?
      requires CanLog(Native, saved, telemetry, Ready)
      requires forall exit :: CanLog(Native, saved, telemetry, Crashed(exit))
      modifies `state, `telemetry, `process, `needsProbe
      ensures Records() && process.None? && Lived() && telemetry == ProbeRecord(old(telemetry), dialect, captured)
      ensures r == if ProbePasses(dialect, Exits(captured)) then Returned(Ok(()))
                   else Returned(Err(ProbeError(dialect, Exits(captured)).value))
      ensures if r == Returned(Ok(())) then state == Ready && !needsProbe
              else state.Crashed? && needsProbe == old(needsProbe)
    {
      hide Sound, CanLog;
      if !captured.exit.success {
        if captured.stderrBytes > 0 {
          Diagnostic(FailureCode(captured.worst));
        }
        MarkCrashed(captured.exit);
        return Returned(Err(HarnessExit(captured.exit)));
      }
      var problem := VersionError(dialect, captured.stdout);
      if problem.Some? {
        MarkCrashed(SYNTHETIC_FAILURE);
        return Returned(Err(problem.value));
      }
      if captured.stderrBytes > 0 {
        Diagnostic("version_probe_stderr_redacted");
      }
      needsProbe := false;
      Diagnostic("harness_ready");
      Transition(Ready);
      return Returned(Ok(()));
    }

    method Start(w: World) returns (r: Reply<()>)
      requires Valid()
      modifies this
      ensures Valid()
      ensures !old(state).Pending? ==> r == Returned(Err(InvalidTransition("start", old(state)))) && unchanged(this)
      ensures old(state).Pending? ==> (r == Returned(Ok(())) <==> ProbePasses(dialect, RunOf(w, dialect.classify)))
      ensures old(state).Pending? ==> (state == Ready <==> r == Returned(Ok(())))
      ensures old(state).Pending? ==> telemetry.restarts == old(telemetry).restarts
    {
      hide Sound;
      if state != Pending {
        return Returned(Err(InvalidTransition("start", state)));
      }
      r := Probe(w);
    }

    /** Ready without a pending probe needs nothing; otherwise only a passing probe makes it ready. */
    method Resume(w: World) returns (r: Reply<()>)
      requires Valid()
      modifies this
      ensures Valid()
      ensures old(state).Ready? && !old(needsProbe) ==> r == Returned(Ok(())) && unchanged(this)
      ensures (old(state).Ready? && old(needsProbe)) || old(state).Crashed? ==>
        && (r == Returned(Ok(())) <==> ProbePasses(dialect, RunOf(w, dialect.classify)))
        && (state == Ready <==> r == Returned(Ok(())))
        && Logged(old(telemetry), Starting).lifecycle <= telemetry.lifecycle && telemetry.turns == old(telemetry).turns
        && telemetry.restarts == (if old(state).Crashed? then Restarted(old(telemetry)) else old(telemetry)).restarts
      ensures !old(state).Ready? && !old(state).Crashed? ==>
        r == Returned(Err(InvalidTransition("resume", old(state)))) && unchanged(this)
    {
      hide Sound;
      match state
      case Ready =>
        if !needsProbe {
          return Returned(Ok(()));
        }
        r := Probe(w);
      case Crashed(_) =>
        SoundRestarted(Native, saved, telemetry, runId, manifest);
        telemetry := Restarted(telemetry);
        r := Probe(w);
      case _ => return Returned(Err(InvalidTransition("resume", state)));
    }

    /** A turn, and with it a turn process, only starts in Ready without a pending probe. */
    method RequestTurn(request: TurnRequest, cancelled: bool, w: World, normalize: Normalize)
      returns (r: Reply<TurnOutput>)
      requires Valid()
      modifies this
      ensures Valid()
      ensures !old(state).Ready? || old(needsProbe) ==>
        r == Returned(Err(InvalidTransition("request_turn", old(state)))) && unchanged(this)
      ensures old(state).Ready? && !old(needsProbe) && !ValidRunId(request.turnId) ==>
        r == Returned(Err(BadFrame)) && unchanged(this)
      ensures old(state).Ready? && !old(needsProbe) && ValidRunId(request.turnId) ==>
        var begun := Logged(old(telemetry), TurnRunning(request.turnId));
        if cancelled then
          r == Returned(Err(OperationCancelled)) && telemetry == Logged(old(telemetry), Terminated(Cancelled))
        else
          var run := RunOf(w, dialect.classify);
          if run.Exits? then
            r == Returned(TurnResult(request, normalize, run.captured))
            && telemetry == TurnRecordOf(begun, request, normalize, run.captured)
          else
            && telemetry == UnfinishedRecord(begun, w, run)
            && r == if KillLost(w, run) || run.RunAbandoned? then Lost
                    else if run.RunStopped? then Returned(Err(OperationCancelled))
                    else if run.Oversized? then Returned(Err(OversizedFrame))
                    else Returned(Err(run.error))
      ensures needsProbe == old(needsProbe)
      // an answer means a successful exit of this turn's process, and is recorded with its own request
      ensures r.Returned? && r.result.Ok? ==>
        && RunOf(w, dialect.classify).Exits? && RunOf(w, dialect.classify).captured.exit.success
        && state == Ready && RecordsTurn(old(telemetry).turns, telemetry.turns, request, r.result.value)
        && r.result.value.turnId == request.turnId && r.result.value.schema == 1
      ensures !(r.Returned? && r.result.Ok?) ==> telemetry.turns == old(telemetry).turns
      ensures telemetry.restarts == old(telemetry).restarts
    {
      var begun := Logged(telemetry, TurnRunning(request.turnId));
      var run := RunOf(w, dialect.classify);
      if run.Exits? {
        ExitedTurnInPlainTerms(begun, request, normalize, run.captured);
      } else {
        UnfinishedInPlainTerms(begun, w, dialect.classify);
      }
      hide RunOf, TurnRecordOf, TurnResult, UnfinishedRecord, RecordsTurn, CancelledRecord;
      r := PerformTurn(request, cancelled, w, normalize);
    }

    method PerformTurn(request: TurnRequest, cancelled: bool, w: World, normalize: Normalize)
      returns (r: Reply<TurnOutput>)
      requires Valid()
      modifies this
      ensures Valid()
      ensures !old(state).Ready? || old(needsProbe) ==>
        r == Returned(Err(InvalidTransition("request_turn", old(state)))) && unchanged(this)
      ensures old(state).Ready? && !old(needsProbe) && !ValidRunId(request.turnId) ==>
        r == Returned(Err(BadFrame)) && unchanged(this)
      ensures old(state).Ready? && !old(needsProbe) && ValidRunId(request.turnId) ==>
        var begun := Logged(old(telemetry), TurnRunning(request.turnId));
        if cancelled then
          r == Returned(Err(OperationCancelled)) && telemetry == Logged(old(telemetry), Terminated(Cancelled))
        else
          var run := RunOf(w, dialect.classify);
          if run.Exits? then
            r == Returned(TurnResult(request, normalize, run.captured))
            && telemetry == TurnRecordOf(begun, request, normalize, run.captured)
          else
            && telemetry == UnfinishedRecord(begun, w, run)
            && r == if KillLost(w, run) || run.RunAbandoned? then Lost
                    else if run.RunStopped? then Returned(Err(OperationCancelled))
                    else if run.Oversized? then Returned(Err(OversizedFrame))
                    else Returned(Err(run.error))
      ensures needsProbe == old(needsProbe)
    {
      hide Sound;
      if state != Ready || needsProbe {
        return Returned(Err(InvalidTransition("request_turn", state)));
      }
      if !ValidRunId(request.turnId) {
        return Returned(Err(BadFrame));
      }
      if cancelled {
        var _ := CancellationError(w.kill);
        return Returned(Err(OperationCancelled));
      }
      hide RunOf;
      Transition(TurnRunning(request.turnId));
      var run := RunProcess(w);
      if run.None? {
        return Lost;
      }
      if run.value.Err? {
        AfterFailure(run.value.error);
        return Returned(Err(run.value.error));
      }
      r := ConcludeTurn(request, run.value.value, normalize);
    }

    /** The end of a turn whose process has exited. */
    method ConcludeTurn(request: TurnRequest, captured: Captured, normalize: Normalize) returns (r: Reply<TurnOutput>)
      requires Records() && process.None? && Lived() && state == TurnRunning(request.turnId)
      requires CanLog(Native, saved, telemetry, Ready)
      requires forall exit :: CanLog(Native, saved, telemetry, Crashed(exit))
      modifies `state, `telemetry, `process
      ensures Records() && process.None? && Lived()
      ensures telemetry == TurnRecordOf(old(telemetry), request, normalize, captured)
      ensures r == Returned(TurnResult(request, normalize, captured))
    {
      hide Sound, CanLog;
      if !captured.exit.success {
        if captured.stderrBytes > 0 {
          Diagnostic(FailureCode(captured.worst));
        }
        MarkCrashed(captured.exit);
        return Returned(Err(HarnessExit(captured.exit)));
      }
      var normalized := normalize(captured.stdout);
      if normalized.None? {
        MarkCrashed(SYNTHETIC_FAILURE);
        Diagnostic("structured_output_rejected");
        return Returned(Err(HarnessOutput));
      }
      if captured.stderrBytes > 0 {
        Diagnostic("harness_stderr_redacted");
      }
      var output := TurnOutput(SCHEMA_VERSION, request.turnId, normalized.value.visible, normalized.value.calls);
      var turn := TurnOf(request, output);
      SoundTurn(Native, saved, telemetry, runId, manifest, turn);
      telemetry := Recorded(telemetry, turn);
      state, telemetry := Ready, Logged(telemetry, Ready);
      return Returned(Ok(output));
    }

    method Terminate(reason: Reason, kill: Kill) returns (r: Reply<()>)
      requires Valid()
      modifies this
      ensures Valid()
      ensures old(state).Terminated? ==> r == Returned(Ok(())) && unchanged(this)
      ensures !old(state).Terminated? ==>
        var begun := Logged(old(telemetry), Terminating);
        if old(process).None? || kill.Killed? then
          r == Returned(Ok(())) && telemetry == Logged(begun, Terminated(reason)) && process == None
        else if kill.KillDropped? then
          r == Lost && telemetry == begun
        else
          && r == Returned(Err(ProcessFailed(kill.error))) && process == old(process)
          && telemetry == Logged(Noted(begun, DriverSource, "termination_failed", []), old(state))
      ensures r == Returned(Ok(())) && !old(state).Terminated? ==> state == Terminated(reason) && process == None
      ensures r.Returned? && r.result.Err? ==> state == old(state) && process == old(process)
      ensures r == Lost ==> state == Terminating && process == old(process)
      ensures telemetry.turns == old(telemetry).turns && telemetry.restarts == old(telemetry).restarts
    {
      hide Sound;
      if state.Terminated? {
        return Returned(Ok(()));
      }
      var previous := state;
      Transition(Terminating);
      if process.Some? && kill.KillDropped? {
        return Lost;
      }
      if process.Some? && kill.KillFailed? {
        Diagnostic("termination_failed");
        Transition(previous);
        return Returned(Err(ProcessFailed(kill.error)));
      }
      process := None;
      Transition(Terminated(reason));
      return Returned(Ok(()));
    }
  }

  /**
   In every life of a native driver object, however it began and whatever was dropped, failed or
   crashed on the way: before each entry of a turn there is a probe of that same life that passed,
   and no crash lies between the two.
   */
  lemma {:induction false} TurnsAreProbed(saved: Telemetry, t: Telemetry, j: nat) returns (i: nat)
    requires History(Native, saved, t) && |saved.lifecycle| <= j < |t.lifecycle| && t.lifecycle[j].state.TurnRunning?
    ensures |saved.lifecycle| - 1 <= i && ProbedAt(t.lifecycle, i, j)
  {
    i := ProbedBeforeTurn(t.lifecycle, |saved.lifecycle| - 1, j);
  }

  // ---------------------------------------------------------------- dropped operations

  datatype NativeCall =
    | StartCall(world: World)
    | ResumeCall(world: World)
    | TerminateCall(reason: Reason, kill: Kill)
    | TurnCall(request: TurnRequest, cancelled: bool, world: World, normalize: Normalize)

  function NativeTurnCalls(calls: seq<NativeCall>): nat {
    if calls == [] then 0
    else NativeTurnCalls(calls[..|calls| - 1]) + if calls[|calls| - 1].TurnCall? then 1 else 0
  }

  predicate NoneTerminates(calls: seq<NativeCall>) {
    forall i | 0 <= i < |calls| :: !calls[i].TerminateCall?
  }

  /** One call on a driver whose operation was dropped: only a termination changes anything. */
  method NativeCallAfterDrop(d: NativeHarnessDriver, call: NativeCall, ghost dropped: State)
    returns (turn: Option<Reply<TurnOutput>>)
    requires d.Valid() && !Stable(dropped) && GivenUp(dropped, d.state)
    modifies d
    ensures d.Valid() && GivenUp(dropped, d.state)
    ensures call.TurnCall? <==> turn.Some?
    ensures turn.Some? ==> Refused(turn.value)
    ensures d.telemetry.turns == old(d.telemetry.turns)
    ensures !call.TerminateCall? ==> unchanged(d)
  {
    hide Sound, ValidRunId;
    turn := None;
    match call
    case StartCall(w) =>
      var _ := d.Start(w);
    case ResumeCall(w) =>
      var _ := d.Resume(w);
    case TerminateCall(reason, kill) =>
      var _ := d.Terminate(reason, kill);
    case TurnCall(request, cancelled, w, normalize) =>
      var r := d.RequestTurn(request, cancelled, w, normalize);
      turn := Some(r);
  }

  /**
   A native driver whose operation was dropped half-way refuses every turn, records none, changes only
   by being terminated, and gives a checkpoint exactly when terminated.
   */
  method NativeCallsAfterDrop(d: NativeHarnessDriver, calls: seq<NativeCall>) returns (turns: seq<Reply<TurnOutput>>)
    requires d.Valid() && !Stable(d.state)
    modifies d
    ensures d.Valid() && GivenUp(old(d.state), d.state)
    ensures |turns| == NativeTurnCalls(calls) && forall i | 0 <= i < |turns| :: Refused(turns[i])
    ensures d.telemetry.turns == old(d.telemetry.turns)
    ensures NoneTerminates(calls) ==> unchanged(d)
    ensures d.TakeCheckpoint().Ok? <==> d.state.Terminated?
  {
    turns := [];
    assert calls[..0] == [];
    for i := 0 to |calls|
      invariant d.Valid() && GivenUp(old(d.state), d.state)
      invariant |turns| == NativeTurnCalls(calls[..i]) && forall k | 0 <= k < |turns| :: Refused(turns[k])
      invariant d.telemetry.turns == old(d.telemetry.turns)
      invariant NoneTerminates(calls) ==> unchanged(d)
    {
      assert calls[..i + 1][..i] == calls[..i];
      var turn := NativeCallAfterDrop(d, calls[i], old(d.state));
      if turn.Some? {
        turns := turns + [turn.value];
      }
    }
    assert calls[..|calls|] == calls;
  }
}
