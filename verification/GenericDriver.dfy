/**
 The generic command driver: one long-running process that answers one JSON line per turn.

 What the process, the adapter and the cancellation token do is given by the caller: every await
 point of an operation has a parameter that says how the await ends, including that the caller drops
 the future there. What serde makes of a frame is the parameter `parse`.
 */
module GenericDriver {
  import opened Redaction
  import opened Process
  import opened LineDecoder
  import opened Lifecycle
  import opened DriverTelemetry
  import opened Turns

  datatype ProcessSpec = ProcessSpec(executable: string, arguments: seq<string>, directory: Option<string>)

  // ---------------------------------------------------------------- checkpoints

  datatype Checkpoint = Checkpoint(
    schema: nat, runId: string, manifest: string, state: State, process: Option<Handle>, spec: ProcessSpec,
    telemetry: Telemetry)

  /** The checks a restore makes. */
  predicate Restorable(manifest: string, spec: ProcessSpec, c: Checkpoint) {
    && c.schema == SCHEMA_VERSION && c.manifest == manifest
    && Consistent(c.telemetry, c.runId, c.manifest)
    && c.spec == spec
    && Current(c.telemetry) == c.state
    && Stable(c.state)
    && (c.state.Ready? <==> c.process.Some?)
  }

  /** What a driver holds between operations. */
  predicate Holds(state: State, process: Option<Handle>, resume: Option<Handle>) {
    match state
    case Ready => process.Some? != resume.Some?
    case TurnRunning(_) => process.Some? && resume.None?
    case Terminating => process.Some? && resume.None?
    case _ => process.None? && resume.None?
  }

  function HeldHandle(process: Option<Handle>, resume: Option<Handle>, reported: Handle): Option<Handle> {
    if process.Some? then Some(reported) else resume
  }

  /** Every sound driver at rest in a stable state yields a checkpoint that restore accepts. */
  lemma {:induction false} CheckpointsRestore(saved: Telemetry, t: Telemetry, runId: string, manifest: string,
                                              process: Option<Handle>, resume: Option<Handle>, spec: ProcessSpec,
                                              reported: Handle)
    requires Sound(Generic, saved, t, runId, manifest) && Holds(Current(t), process, resume) && Stable(Current(t))
    ensures Restorable(manifest, spec,
              Checkpoint(SCHEMA_VERSION, runId, manifest, Current(t), HeldHandle(process, resume, reported), spec, t))
  {
  }

  // ---------------------------------------------------------------- the driver

  class GenericCommandDriver {
    const manifest: string
    const spec: ProcessSpec
    const runId: string
    const decoder: JsonLineDecoder
    var state: State
    var process: Option<Handle>
    var resumeHandle: Option<Handle>
    var telemetry: Telemetry
    // the record this driver object was created or restored with
    ghost const saved: Telemetry

    ghost predicate Records()
      reads this
    {
      Sound(Generic, saved, telemetry, runId, manifest) && Current(telemetry) == state
    }

    lemma {:induction false} StateOnRecord()
      requires Records()
      ensures telemetry.lifecycle != [] && Current(telemetry) == state
    {
    }

    /** Whenever no operation is under way. */
    ghost predicate Valid()
      reads this, decoder
    {
      && Records()
      && Holds(state, process, resumeHandle)
      && (!state.TurnRunning? && !state.Terminating? ==> decoder.Valid() && decoder.buffer == [])
    }

    constructor (runId: string, manifest: string, spec: ProcessSpec)
      requires ValidRunId(runId)
      ensures Valid() && fresh(decoder) && state == Pending
      ensures saved == telemetry == NewRecord(runId, manifest)
      ensures telemetry.lifecycle == [Entry(0, Pending)] && telemetry.turns == [] && telemetry.diagnostics == []
      ensures telemetry.restarts == 0 && telemetry.runId == runId && telemetry.manifest == manifest
      ensures process == None && resumeHandle == None
      ensures this.runId == runId && this.manifest == manifest && this.spec == spec
    {
      this.runId, this.manifest, this.spec := runId, manifest, spec;
      state, process, resumeHandle := Pending, None, None;
      telemetry, saved := NewRecord(runId, manifest), NewRecord(runId, manifest);
      decoder := new JsonLineDecoder();
      new;
      SoundBegins(Generic, telemetry, runId, manifest);
    }

    /** A restored driver hands out the checkpoint it was restored from. */
    constructor Restore(manifest: string, spec: ProcessSpec, c: Checkpoint)
      requires Restorable(manifest, spec, c)
      ensures Valid() && fresh(decoder) && saved == telemetry == c.telemetry
      ensures state == c.state && process == None && resumeHandle == c.process
      ensures this.runId == c.runId && this.manifest == manifest && this.spec == spec
      ensures forall reported :: TakeCheckpoint(reported) == Ok(c)
    {
      this.runId, this.manifest, this.spec := c.runId, manifest, spec;
      state, process, resumeHandle := c.state, None, c.process;
      telemetry, saved := c.telemetry, c.telemetry;
      decoder := new JsonLineDecoder();
      new;
      SoundBegins(Generic, telemetry, runId, manifest);
    }

    /** `reported` is the handle the live process reports. */
    function TakeCheckpoint(reported: Handle): (r: Result<Checkpoint, DriverError>)
      requires Valid()
      reads this, decoder
      ensures r.Ok? <==> state.Pending? || state.Ready? || state.Terminated? || state.Crashed?
      ensures r.Err? ==> r.error == InvalidCheckpoint
      ensures r.Ok? ==> Restorable(manifest, spec, r.value) && r.value.telemetry == telemetry
      ensures r.Ok? ==> r.value.state == state && r.value.runId == runId
      ensures r.Ok? ==> r.value.process == if process.Some? then Some(reported) else resumeHandle
    {
      if !Stable(state) then Err(InvalidCheckpoint)
      else
        CheckpointsRestore(saved, telemetry, runId, manifest, process, resumeHandle, spec, reported);
        var held := HeldHandle(process, resumeHandle, reported);
        Ok(Checkpoint(SCHEMA_VERSION, runId, manifest, state, held, spec, telemetry))
    }

    method Transition(next: State)
      requires Records() && CanLog(Generic, saved, telemetry, next) && !(state.TurnRunning? && next.Ready?)
      modifies `state, `telemetry
      ensures Records() && state == next && telemetry == Logged(old(telemetry), next)
      ensures forall s :: CanLog(Generic, saved, telemetry, s) <==> Allowed(Generic, Some(old(state)), next, s)
    {
      SoundLogged(Generic, saved, telemetry, runId, manifest, next);
      state, telemetry := next, Logged(telemetry, next);
    }

    /** Drops whatever is held. */
    method Release()
      modifies `process, `resumeHandle, decoder
      ensures process == None && resumeHandle == None && decoder.Valid() && decoder.buffer == []
    {
      process, resumeHandle := None, None;
      decoder.Clear();
    }

    /** Ends a cancelled operation; false when its caller dropped it while the process was being killed. */
    method CancellationError(kill: Kill) returns (done: bool)
      requires Records() && CanLog(Generic, saved, telemetry, Terminated(Cancelled))
      modifies this, decoder
      ensures done <==> !(old(process).Some? && kill.KillDropped?)
      ensures !done ==> unchanged(this) && unchanged(decoder)
      ensures done ==> Valid() && state == Terminated(Cancelled)
      ensures done ==> telemetry == CancelledRecord(old(telemetry), old(process).Some?, kill)
    {
      hide Sound, CanLog;
      if process.Some? && kill.KillDropped? {
        return false;
      }
      SoundCancelled(Generic, saved, telemetry, runId, manifest, process.Some?, kill);
      telemetry := CancelledRecord(telemetry, process.Some?, kill);
      state := Terminated(Cancelled);
      Release();
      return true;
    }

    /** Ends a turn whose protocol was broken. */
    method ProtocolFailure(kill: Kill) returns (done: bool)
      requires Records() && CanLog(Generic, saved, telemetry, Crashed(SYNTHETIC_FAILURE)) && process.Some?
      modifies this, decoder
      ensures done <==> !kill.KillDropped?
      ensures !done ==> unchanged(this) && unchanged(decoder)
      ensures done ==> Valid() && state == Crashed(SYNTHETIC_FAILURE) && telemetry == FailedRecord(old(telemetry), kill)
    {
      hide Sound, CanLog;
      if kill.KillDropped? {
        return false;
      }
      SoundFailed(saved, telemetry, runId, manifest, kill);
      telemetry := FailedRecord(telemetry, kill);
      state := Crashed(SYNTHETIC_FAILURE);
      Release();
      return true;
    }

    method Start(cancelled: bool, spawn: Await<Result<Handle, ProcessError>>) returns (r: Reply<()>)
      requires Valid()
      modifies this, decoder
      ensures Valid()
      ensures !old(state).Pending? ==>
        r == Returned(Err(InvalidTransition("start", old(state)))) && unchanged(this) && unchanged(decoder)
      ensures old(state).Pending? ==>
        var begun := Logged(old(telemetry), Starting);
        if cancelled then
          r == Returned(Err(OperationCancelled)) && telemetry == Logged(old(telemetry), Terminated(Cancelled))
        else match spawn
          case Dropped => r == Lost && telemetry == begun
          case Interrupted =>
            r == Returned(Err(OperationCancelled)) && telemetry == Logged(begun, Terminated(Cancelled))
          case Done(Ok(handle)) => r == Returned(Ok(())) && process == Some(handle) && telemetry == Logged(begun, Ready)
          case Done(Err(error)) =>
            r == Returned(Err(ProcessFailed(error))) && telemetry == Logged(begun, Crashed(SYNTHETIC_FAILURE))
      ensures r == Returned(Ok(())) <==> old(state) == Pending && !cancelled && spawn.Done? && spawn.value.Ok?
      ensures r == Returned(Ok(())) ==> state == Ready && process == Some(spawn.value.value)
      ensures old(state) == Pending && r == Returned(Err(OperationCancelled)) ==> state == Terminated(Cancelled)
      ensures r.Returned? && r.result.Err? && r.result.error.ProcessFailed? ==>
        state == Crashed(ExitStatus(false, None, None)) && process == None
      ensures r == Lost ==> state == Starting
      ensures telemetry.turns == old(telemetry).turns && telemetry.restarts == old(telemetry).restarts
    {
      hide Sound;
      if state != Pending {
        return Returned(Err(InvalidTransition("start", state)));
      }
      if cancelled {
        var _ := CancellationError(Killed);
        return Returned(Err(OperationCancelled));
      }
      Transition(Starting);
      match spawn
      case Dropped => r := Lost;
      case Interrupted =>
        var _ := CancellationError(Killed);
        r := Returned(Err(OperationCancelled));
      case Done(Ok(handle)) =>
        process, resumeHandle := Some(handle), None;
        Transition(Ready);
        r := Returned(Ok(()));
      case Done(Err(error)) =>
        Transition(Crashed(SYNTHETIC_FAILURE));
        r := Returned(Err(ProcessFailed(error)));
    }

    /** One read of standard output, pushed through the decoder: None while the line is incomplete. */
    method OnStdout(bytes: Bytes, id: string, parse: Parse) returns (end: Option<Ending>)
      requires decoder.Valid() && NEWLINE !in decoder.buffer
      modifies decoder
      ensures var text := old(decoder.buffer) + bytes;
              end == if |text| > MAX_FRAME_BYTES then Some(Broken(OversizedFrame))
                     else if NEWLINE in text then Some(Judge(text, id, parse)) else None
      ensures end.None? ==> decoder.Valid() && decoder.buffer == old(decoder.buffer) + bytes
      ensures end.Some? && end.value.Answer? ==> decoder.Valid() && decoder.buffer == []
    {
      hide SplitLines, Frames;
      var text := decoder.buffer + bytes;
      OneLineOnly(text);
      var pushed := decoder.Push(bytes);
      if pushed.Err? {
        return Some(Broken(if pushed.error.FrameTooLarge? then OversizedFrame else BadFrame));
      }
      if |pushed.value| > 1 {
        return Some(Broken(BadFrame));
      }
      if |pushed.value| == 0 {
        return None;
      }
      if decoder.buffer != [] {
        return Some(Broken(BadFrame));
      }
      var output := parse(pushed.value[0]);
      if output.None? || output.value.schema != SCHEMA_VERSION {
        return Some(Broken(BadFrame));
      }
      if output.value.turnId != id {
        return Some(Broken(TurnMismatch));
      }
      return Some(Answer(output.value));
    }

    /** Reads until the turn is answered or ends otherwise; standard error becomes diagnostics. */
    method AwaitAnswer(events: seq<Read>, id: string, parse: Parse) returns (end: Ending)
      requires Records() && decoder.Valid() && decoder.buffer == []
      modifies `telemetry, decoder
      ensures Records()
      ensures var heard := Listen(events, [], id, parse);
              end == heard.end && telemetry == StderrNoted(old(telemetry), heard.stderr)
      ensures forall s :: CanLog(Generic, saved, telemetry, s) <==> CanLog(Generic, saved, old(telemetry), s)
      ensures end.Answer? ==> decoder.Valid() && decoder.buffer == []
    {
      hide Sound, CanLog, Listen, Listening, StderrNoted, Noted, Judge;
      ghost var errs: seq<Bytes> := [];
      ghost var begun := telemetry;
      SoundStderr(saved, begun, runId, manifest, Listen(events, [], id, parse).stderr);
      var i := 0;
      NothingNoted(begun);
      ListeningStart(events, id, parse);
      while i < |events|
        invariant i <= |events| && telemetry == StderrNoted(begun, errs)
        invariant Listening(events, i, errs, decoder.buffer, id, parse)
        invariant decoder.Valid() && NEWLINE !in decoder.buffer
      {
        ListeningStep(events, i, errs, decoder.buffer, id, parse);
        match events[i] {
          case Dropped => return Abandoned;
          case Interrupted => return Stopped;
          case Done(Err(error)) => return Broken(ProcessFailed(error));
          case Done(Ok(Exited(exit))) => return Gone(exit);
          case Done(Ok(Stderr(bytes))) =>
            StderrNotedMore(begun, errs, bytes);
            telemetry, errs := Noted(telemetry, StderrSource, "process_stderr", bytes), errs + [bytes];
          case Done(Ok(Stdout(bytes))) =>
            var verdict := OnStdout(bytes, id, parse);
            if verdict.Some? {
              return verdict.value;
            }
        }
        i := i + 1;
      }
      ListeningEnd(events, errs, decoder.buffer, id, parse);
      return Abandoned;
    }

    /** The turn is recorded, then the driver is ready again. */
    method CompleteTurn(turn: TurnRecord)
      requires Records() && CanLog(Generic, saved, telemetry, Ready) && state == TurnRunning(turn.turnId)
      modifies `state, `telemetry
      ensures Records() && state == Ready && telemetry == Logged(Recorded(old(telemetry), turn), Ready)
    {
      SoundTurn(Generic, saved, telemetry, runId, manifest, turn);
      telemetry := Recorded(telemetry, turn);
      state, telemetry := Ready, Logged(telemetry, Ready);
    }

    /** `encodes` says whether the request could be serialized. */
    method RequestTurn(request: TurnRequest, encodes: bool, cancelled: bool, write: Await<Result<(), ProcessError>>,
                       events: seq<Read>, kill: Kill, parse: Parse) returns (r: Reply<TurnOutput>)
      requires Valid()
      modifies this, decoder
      ensures Valid()
      ensures TurnEnds(CanTurn(old(state), old(process)), old(telemetry), request, encodes, cancelled, write, events,
                       kill, parse, r, telemetry)
      ensures !CanTurn(old(state), old(process)) || !ValidRunId(request.turnId) || !encodes ==>
        unchanged(this) && unchanged(decoder)
      ensures r.Returned? && r.result.Ok? ==>
        process == old(process) && RecordsTurn(old(telemetry).turns, telemetry.turns, request, r.result.value)
      ensures !(r.Returned? && r.result.Ok?) ==> telemetry.turns == old(telemetry).turns
      ensures telemetry.restarts == old(telemetry).restarts
      ensures old(state) == Ready && old(process).Some? && request.turnId != "" && !HasControl(request.turnId)
              && encodes ==>
        StateFits(request, r, telemetry)
      // a dropped turn still holds its process
      ensures r == Lost ==> process == old(process) && (state.TurnRunning? || state.Ready?)
    {
      StateOnRecord();
      r := PerformTurn(request, encodes, cancelled, write, events, kill, parse);
      TurnInPlainTerms(CanTurn(old(state), old(process)), old(telemetry), request, encodes, cancelled, write, events,
                       kill, parse, r, telemetry);
      hide TurnEnds, RecordsTurn, StateFits, Sound, HasControl;
      StateOnRecord();
    }

    method PerformTurn(request: TurnRequest, encodes: bool, cancelled: bool, write: Await<Result<(), ProcessError>>,
                       events: seq<Read>, kill: Kill, parse: Parse) returns (r: Reply<TurnOutput>)
      requires Valid()
      modifies this, decoder
      ensures Valid()
      ensures TurnEnds(CanTurn(old(state), old(process)), old(telemetry), request, encodes, cancelled, write, events,
                       kill, parse, r, telemetry)
      ensures !CanTurn(old(state), old(process)) || !ValidRunId(request.turnId) || !encodes ==>
        unchanged(this) && unchanged(decoder)
      ensures r.Returned? && r.result.Ok? ==> process == old(process)
      ensures r == Lost ==> process == old(process) && (state.TurnRunning? || state.Ready?)
    {
      hide Sound, HearingEnds, CancelledRecord, FailedRecord, ValidRunId;
      StateOnRecord();
      if !CanTurn(state, process) {
        return Returned(Err(InvalidTransition("request_turn", state)));
      }
      if !ValidRunId(request.turnId) {
        return Returned(Err(BadFrame));
      }
      if !encodes {
        return Returned(Err(Serialization));
      }
      if cancelled {
        r := Cancel(kill);
        return;
      }
      Transition(TurnRunning(request.turnId));
      match write
      case Dropped => r := Lost;
      case Interrupted => r := Cancel(kill);
      case Done(Err(error)) => r := Fail(kill, ProcessFailed(error));
      case Done(Ok(_)) =>
        r := HearOut(request, events, kill, parse);
    }

    /** Listens for the answer of a turn whose request is written. */
    method HearOut(request: TurnRequest, events: seq<Read>, kill: Kill, parse: Parse) returns (r: Reply<TurnOutput>)
      requires Records() && state == TurnRunning(request.turnId) && process.Some? && resumeHandle.None?
      requires decoder.Valid() && decoder.buffer == []
      requires forall s :: CanLog(Generic, saved, telemetry, s) <==> Allowed(Generic, Some(Ready), state, s)
      modifies this, decoder
      ensures Valid() && HearingEnds(old(telemetry), request, events, kill, parse, r, telemetry)
      ensures r.Returned? && r.result.Ok? ==> process == old(process)
      ensures r == Lost ==> process == old(process) && state == old(state)
    {
      hide Sound, Listen, StderrNoted, CancelledRecord, FailedRecord, CanLog;
      var end := AwaitAnswer(events, request.turnId, parse);
      match end
      case Abandoned => r := Lost;
      case Stopped => r := Cancel(kill);
      case Broken(error) => r := Fail(kill, error);
      case Gone(exit) =>
        Release();
        Transition(Crashed(exit));
        r := Returned(Err(UnexpectedExit(exit)));
      case Answer(output) =>
        CompleteTurn(TurnOf(request, output));
        r := Returned(Ok(output));
    }

    method Cancel(kill: Kill) returns (r: Reply<TurnOutput>)
      requires Records() && process.Some? && resumeHandle.None?
      requires CanLog(Generic, saved, telemetry, Terminated(Cancelled))
      requires state.TurnRunning? || (state.Ready? && decoder.Valid() && decoder.buffer == [])
      modifies this, decoder
      ensures Valid() && Cancels(r, old(telemetry), kill, telemetry)
      ensures r == Lost ==> state == old(state) && process == old(process)
    {
      hide Sound, CanLog;
      var done := CancellationError(kill);
      r := if done then Returned(Err(OperationCancelled)) else Lost;
    }

    method Fail(kill: Kill, error: DriverError) returns (r: Reply<TurnOutput>)
      requires Records() && process.Some? && resumeHandle.None? && state.TurnRunning?
      requires CanLog(Generic, saved, telemetry, Crashed(SYNTHETIC_FAILURE))
      modifies this, decoder
      ensures Valid() && Fails(r, old(telemetry), kill, error, telemetry)
      ensures r == Lost ==> state == old(state) && process == old(process)
    {
      hide Sound, CanLog;
      var done := ProtocolFailure(kill);
      r := if done then Returned(Err(error)) else Lost;
    }

    method Resume(cancelled: bool, reattach: Await<Result<Handle, ProcessError>>,
                  spawn: Await<Result<Handle, ProcessError>>)
      returns (r: Reply<()>)
      requires Valid()
      modifies this, decoder
      ensures Valid()
      ensures old(process).Some? ==> r == Returned(Ok(())) && unchanged(this) && unchanged(decoder)
      ensures old(process).None? && cancelled ==>
        r == Returned(Err(OperationCancelled)) && telemetry == Logged(old(telemetry), Terminated(Cancelled))
      ensures old(process).None? && !cancelled ==>
        match old(state)
        case Ready =>
          (match reattach
           case Dropped => r == Lost && unchanged(this)
           case Interrupted => Stops(r, old(telemetry))
           case Done(Ok(handle)) => Resumes(r, old(telemetry), handle)
           case Done(Err(error)) =>
             if error.ReattachUnsupported? || error.Missing? then
               Spawns(r, Noted(Restarted(old(telemetry)), DriverSource, "process_restart_after_restore", []), spawn)
             else r == Returned(Err(ProcessFailed(error))) && unchanged(this))
        case Crashed(_) => Spawns(r, Restarted(old(telemetry)), spawn)
        case _ => r == Returned(Err(InvalidTransition("resume", old(state)))) && unchanged(this)
      // an attempt at a replacement is counted, nothing else is
      ensures var replaced :=
                && old(process).None? && !cancelled
                && ( || old(state).Crashed?
                     || (old(state).Ready? && reattach.Done? && reattach.value.Err?
                         && (reattach.value.error.ReattachUnsupported? || reattach.value.error.Missing?)));
              telemetry.restarts == old(telemetry).restarts
                                    + if replaced && old(telemetry).restarts < 0xffff_ffff then 1 else 0
      ensures telemetry.turns == old(telemetry).turns
      ensures r == Returned(Ok(())) && old(process).None? ==> state == Ready && process.Some? && resumeHandle == None
      ensures old(process).None? && r == Returned(Err(OperationCancelled)) ==> state == Terminated(Cancelled)
      // success means that a turn can run, unless an operation was dropped half-way before
      ensures r == Returned(Ok(())) ==>
        (CanTurn(state, process) <==> !old(state).TurnRunning? && !old(state).Terminating?)
      ensures old(process).None? && r != Returned(Ok(())) && state == old(state) ==>
        process == None && resumeHandle == old(resumeHandle)
    {
      hide Sound;
      if process.Some? {
        return Returned(Ok(()));
      }
      if cancelled {
        var _ := CancellationError(Killed);
        return Returned(Err(OperationCancelled));
      }
      match state
      case Ready =>
        match reattach {
          case Dropped => r := Lost;
          case Interrupted =>
            var _ := CancellationError(Killed);
            r := Returned(Err(OperationCancelled));
          case Done(Ok(handle)) =>
            process, resumeHandle := Some(handle), None;
            Transition(Ready);
            r := Returned(Ok(()));
          case Done(Err(error)) =>
            if error.ReattachUnsupported? || error.Missing? {
              SoundRestarted(Generic, saved, telemetry, runId, manifest);
              telemetry := Restarted(telemetry);
              SoundNoted(Generic, saved, telemetry, runId, manifest, DriverSource, "process_restart_after_restore", []);
              telemetry := Noted(telemetry, DriverSource, "process_restart_after_restore", []);
              r := Respawn(spawn);
            } else {
              r := Returned(Err(ProcessFailed(error)));
            }
        }
      case Crashed(_) =>
        SoundRestarted(Generic, saved, telemetry, runId, manifest);
        telemetry := Restarted(telemetry);
        r := Respawn(spawn);
      case _ => r := Returned(Err(InvalidTransition("resume", state)));
    }

    ghost predicate Stops(r: Reply<()>, before: Telemetry)
      reads this
    {
      r == Returned(Err(OperationCancelled)) && telemetry == Logged(before, Terminated(Cancelled))
    }

    ghost predicate Resumes(r: Reply<()>, before: Telemetry, handle: Handle)
      reads this
    {
      r == Returned(Ok(())) && process == Some(handle) && telemetry == Logged(before, Ready)
    }

    ghost predicate Spawns(r: Reply<()>, before: Telemetry, spawn: Await<Result<Handle, ProcessError>>)
      reads this
    {
      match spawn
      case Dropped => r == Lost && telemetry == before
      case Interrupted => Stops(r, before)
      case Done(Ok(handle)) => Resumes(r, before, handle)
      case Done(Err(error)) => r == Returned(Err(ProcessFailed(error))) && telemetry == before
    }

    /** Starts a replacement process; a failure leaves everything as it is. */
    method Respawn(spawn: Await<Result<Handle, ProcessError>>) returns (r: Reply<()>)
      requires Valid() && process.None? && (state.Ready? || state.Crashed?)
      modifies this, decoder
      ensures Valid() && Spawns(r, old(telemetry), spawn)
      ensures spawn.Dropped? || (spawn.Done? && spawn.value.Err?) ==> unchanged(this)
      ensures state == old(state) ==> resumeHandle == old(resumeHandle) || r == Returned(Ok(()))
    {
      hide Sound;
      match spawn
      case Dropped => r := Lost;
      case Interrupted =>
        var _ := CancellationError(Killed);
        r := Returned(Err(OperationCancelled));
      case Done(Ok(handle)) =>
        process, resumeHandle := Some(handle), None;
        Transition(Ready);
        r := Returned(Ok(()));
      case Done(Err(error)) => r := Returned(Err(ProcessFailed(error)));
    }

    /**
     Terminated stays as it is; otherwise the process is killed first, and a failed kill goes back to
     the state before.
     */
    method Terminate(reason: Reason, kill: Kill) returns (r: Reply<()>)
      requires Valid()
      modifies this, decoder
      ensures Valid()
      ensures old(state).Terminated? ==> r == Returned(Ok(())) && unchanged(this) && unchanged(decoder)
      ensures !old(state).Terminated? ==>
        var begun := Logged(old(telemetry), Terminating);
        if old(process).None? || kill.Killed? then
          r == Returned(Ok(())) && telemetry == Logged(begun, Terminated(reason))
        else if kill.KillDropped? then
          r == Lost && telemetry == begun
        else
          && r == Returned(Err(ProcessFailed(kill.error))) && process == old(process)
          && telemetry == Logged(Noted(begun, DriverSource, "termination_failed", []), old(state))
      ensures r == Returned(Ok(())) ==>
        && state == (if old(state).Terminated? then old(state) else Terminated(reason))
        && process == None && resumeHandle == None
      ensures r.Returned? && r.result.Err? ==> state == old(state) && process == old(process)
      ensures r == Lost ==> state == Terminating && process == old(process)
      ensures telemetry.turns == old(telemetry).turns && telemetry.restarts == old(telemetry).restarts
    {
      hide Sound;
      if state.Terminated? {
        return Returned(Ok(()));
      }
      var previous := state;
      Transition(Terminating);
      if process.Some? && kill.KillDropped? {
        return Lost;
      }
      if process.Some? && kill.KillFailed? {
        SoundNoted(Generic, saved, telemetry, runId, manifest, DriverSource, "termination_failed", []);
        telemetry := Noted(telemetry, DriverSource, "termination_failed", []);
        Transition(previous);
        return Returned(Err(ProcessFailed(kill.error)));
      }
      Release();
      Transition(Terminated(reason));
      return Returned(Ok(()));
    }
  }

  // ---------------------------------------------------------------- dropped operations

  /** A call on a driver, with how its awaits end. */
  datatype Call =
    | StartCall(cancelled: bool, spawn: Await<Result<Handle, ProcessError>>)
    | ResumeCall(cancelled: bool, reattach: Await<Result<Handle, ProcessError>>,
                 spawn: Await<Result<Handle, ProcessError>>)
    | TerminateCall(reason: Reason, kill: Kill)
    | TurnCall(request: TurnRequest, encodes: bool, cancelled: bool, write: Await<Result<(), ProcessError>>,
               events: seq<Read>, kill: Kill, parse: Parse)

  /** The operation that left the driver in `dropped` is not taken up again. */
  predicate GivenUp(dropped: State, s: State) {
    s == dropped || s.Terminating? || s.Terminated?
  }

  predicate Refused(turn: Reply<TurnOutput>) {
    turn.Returned? && turn.result.Err? && turn.result.error.InvalidTransition?
  }

  /** One call on a driver whose operation was dropped; `turn` is the reply to a turn. */
  method CallAfterDrop(d: GenericCommandDriver, call: Call, ghost dropped: State)
    returns (turn: Option<Reply<TurnOutput>>)
    requires d.Valid() && !Stable(dropped) && GivenUp(dropped, d.state)
    modifies d, d.decoder
    ensures d.Valid() && GivenUp(dropped, d.state)
    ensures call.TurnCall? <==> turn.Some?
    ensures turn.Some? ==> Refused(turn.value)
    ensures d.telemetry.turns == old(d.telemetry.turns)
  {
    hide Sound, Listen, StderrNoted, ValidRunId, FailedRecord;
    turn := None;
    match call
    case StartCall(cancelled, spawn) =>
      var _ := d.Start(cancelled, spawn);
    case ResumeCall(cancelled, reattach, spawn) =>
      var _ := d.Resume(cancelled, reattach, spawn);
    case TerminateCall(reason, kill) =>
      var _ := d.Terminate(reason, kill);
    case TurnCall(request, encodes, cancelled, write, events, kill, parse) =>
      var r := d.RequestTurn(request, encodes, cancelled, write, events, kill, parse);
      turn := Some(r);
  }

  /**
   A driver at rest in a transient state had its operation dropped. Whatever is called on it from then
   on, it refuses every turn, records none, stays in that state until it is terminated, and gives no
   checkpoint before that.
   */
  method CallsAfterDrop(d: GenericCommandDriver, calls: seq<Call>) returns (turns: seq<Reply<TurnOutput>>)
    requires d.Valid() && !Stable(d.state)
    modifies d, d.decoder
    ensures d.Valid() && GivenUp(old(d.state), d.state)
    ensures |turns| == TurnCalls(calls) && forall i | 0 <= i < |turns| :: Refused(turns[i])
    ensures d.telemetry.turns == old(d.telemetry.turns)
    ensures forall reported :: d.TakeCheckpoint(reported).Ok? <==> d.state.Terminated?
  {
    turns := [];
    assert calls[..0] == [];
    for i := 0 to |calls|
      invariant d.Valid() && GivenUp(old(d.state), d.state)
      invariant |turns| == TurnCalls(calls[..i]) && forall k | 0 <= k < |turns| :: Refused(turns[k])
      invariant d.telemetry.turns == old(d.telemetry.turns)
    {
      assert calls[..i + 1][..i] == calls[..i];
      var turn := CallAfterDrop(d, calls[i], old(d.state));
      if turn.Some? {
        turns := turns + [turn.value];
      }
    }
    assert calls[..|calls|] == calls;
  }

  /** How many of the calls ask for a turn. */
  function TurnCalls(calls: seq<Call>): nat {
    if calls == [] then 0
    else TurnCalls(calls[..|calls| - 1]) + if calls[|calls| - 1].TurnCall? then 1 else 0
  }

  /** Restores exactly the checkpoints that pass the checks. */
  method RestoreWithProcessSpec(manifest: string, spec: ProcessSpec, c: Checkpoint)
    returns (r: Result<GenericCommandDriver, DriverError>)
    ensures r.Ok? <==> Restorable(manifest, spec, c)
    ensures r.Ok? ==> fresh(r.value) && fresh(r.value.decoder) && r.value.Valid() && r.value.saved == c.telemetry
    ensures r.Ok? ==> forall reported :: r.value.TakeCheckpoint(reported) == Ok(c)
    ensures r.Err? ==> r.error == InvalidCheckpoint
  {
    if !Restorable(manifest, spec, c) {
      return Err(InvalidCheckpoint);
    }
    var driver := new GenericCommandDriver.Restore(manifest, spec, c);
    return Ok(driver);
  }

  predicate CanTurn(state: State, process: Option<Handle>) {
    state.Ready? && process.Some?
  }

  lemma {:induction false} SoundFailed(saved: Telemetry, t: Telemetry, runId: string, manifest: string, kill: Kill)
    requires Sound(Generic, saved, t, runId, manifest) && CanLog(Generic, saved, t, Crashed(SYNTHETIC_FAILURE))
    ensures Sound(Generic, saved, FailedRecord(t, kill), runId, manifest)
    ensures Current(FailedRecord(t, kill)) == Crashed(SYNTHETIC_FAILURE)
  {
    hide Sound, CanLog;
    var noted := KillNoted(t, true, kill, "protocol_termination_failed");
    SoundKillNoted(Generic, saved, t, runId, manifest, true, kill, "protocol_termination_failed");
    SoundLogged(Generic, saved, noted, runId, manifest, Crashed(SYNTHETIC_FAILURE));
    SoundNoted(Generic, saved, Logged(noted, Crashed(SYNTHETIC_FAILURE)), runId, manifest, DriverSource,
               "protocol_failure", []);
  }

}
