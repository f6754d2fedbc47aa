/**
 What a driver records about itself, and what its record proves. `History` relates the record a
 driver was created or restored with to its record now; it is kept by every way the record grows,
 and it composes over any chain of checkpoints and restores.
 */
module DriverTelemetry {
  import opened Integers
  import opened Redaction
  import opened Process
  import opened Lifecycle
  import Archive = TelemetryArchive

  const SCHEMA_VERSION: nat := 1

  datatype Source = DriverSource | StderrSource
  datatype Diagnostic = Diagnostic(sequence: nat, source: Source, code: string, bytes: Bytes)
  datatype TurnRecord = TurnRecord(turnId: string, input: string, output: string, calls: seq<Archive.ToolCall>)

  datatype Telemetry = Telemetry(
    schema: nat, runId: string, manifest: string, restarts: nat,
    lifecycle: seq<Entry>, turns: seq<TurnRecord>, diagnostics: seq<Diagnostic>)

  datatype DriverError =
    | InvalidTransition(operation: string, state: State)
    | OperationCancelled
    | ProcessFailed(error: ProcessError)
    | UnexpectedExit(exit: ExitStatus)
    | BadFrame
    | OversizedFrame
    | TurnMismatch
    | InvalidCheckpoint
    | Serialization
    | HarnessUnavailable
    | VersionUnparseable
    | VersionUnsupported
    | VersionMismatch
    | HarnessExit(exit: ExitStatus)
    | HarnessOutput
    | OverBudget

  /** How an await ends: the cancellation wins, the caller drops the future, or the awaited operation is done. */
  datatype Await<+T> = Interrupted | Dropped | Done(value: T)

  /** How awaiting a process termination ends. */
  datatype Kill = KillDropped | Killed | KillFailed(error: ProcessError)

  /** What the caller sees of an operation; Lost when it dropped the future. */
  datatype Reply<+T> = Returned(result: Result<T, DriverError>) | Lost

  const SYNTHETIC_FAILURE: ExitStatus := ExitStatus(false, None, None)

  predicate ValidRunId(runId: string) {
    runId != [] && forall i | 0 <= i < |runId| :: !Archive.IsControl(runId[i])
  }

  // ---------------------------------------------------------------- how a record grows

  function Logged(t: Telemetry, s: State): Telemetry {
    t.(lifecycle := t.lifecycle + [Entry(|t.lifecycle|, s)])
  }

  function Noted(t: Telemetry, source: Source, code: string, bytes: Bytes): Telemetry {
    t.(diagnostics := t.diagnostics + [Diagnostic(|t.diagnostics|, source, code, bytes)])
  }

  function Restarted(t: Telemetry): Telemetry {
    t.(restarts := if t.restarts < U32_MAX then t.restarts + 1 else t.restarts)
  }

  function Recorded(t: Telemetry, turn: TurnRecord): Telemetry {
    t.(turns := t.turns + [turn])
  }

  /** A failed termination of a held process leaves a note. */
  function KillNoted(t: Telemetry, held: bool, kill: Kill, code: string): Telemetry {
    if held && kill.KillFailed? then Noted(t, DriverSource, code, []) else t
  }

  function CancelledRecord(t: Telemetry, held: bool, kill: Kill): Telemetry {
    Logged(KillNoted(t, held, kill, "cancellation_termination_failed"), Terminated(Cancelled))
  }

  function NewRecord(runId: string, manifest: string): Telemetry {
    Telemetry(SCHEMA_VERSION, runId, manifest, 0, [Entry(0, Pending)], [], [])
  }

  // ---------------------------------------------------------------- what a record proves

  function Current(t: Telemetry): State
    requires t.lifecycle != []
  {
    t.lifecycle[|t.lifecycle| - 1].state
  }

  predicate DiagnosticsNumbered(ds: seq<Diagnostic>) {
    forall i | 0 <= i < |ds| :: ds[i].sequence == i
  }

  function TurnIds(turns: seq<TurnRecord>): (ids: seq<string>)
    ensures |ids| == |turns|
  {
    seq(|turns|, i requires 0 <= i < |turns| => turns[i].turnId)
  }

  /** The record is internally consistent and belongs to this run. */
  predicate Consistent(t: Telemetry, runId: string, manifest: string) {
    && t.schema == SCHEMA_VERSION && t.runId == runId && t.manifest == manifest && ValidRunId(runId)
    && t.lifecycle != [] && Numbered(t.lifecycle) && DiagnosticsNumbered(t.diagnostics)
  }

  /**
   `t` continues `saved`: nothing recorded was lost, every transition since was lawful, and the turns
   recorded since are exactly the turns that ran to completion since, in order.
   */
  ghost predicate History(kind: Kind, saved: Telemetry, t: Telemetry) {
    && saved.lifecycle != [] && saved.lifecycle <= t.lifecycle && saved.turns <= t.turns
    && Lawful(kind, t.lifecycle, |saved.lifecycle| - 1)
    && CompletedTurns(t.lifecycle, |saved.lifecycle| - 1) == TurnIds(t.turns[|saved.turns|..])
  }

  /** The next state is lawful behind this record. */
  predicate CanLog(kind: Kind, saved: Telemetry, t: Telemetry, s: State)
    requires |saved.lifecycle| > 0 && |saved.lifecycle| <= |t.lifecycle|
  {
    Allowed(kind, Before(t.lifecycle, |saved.lifecycle| - 1, |t.lifecycle| - 1), Current(t), s)
  }

  lemma {:induction false} HistoryBegins(kind: Kind, t: Telemetry)
    requires t.lifecycle != [] && Stable(Current(t))
    ensures History(kind, t, t)
  {
    assert t.turns[|t.turns|..] == [];
    assert TurnIds([]) == [];
  }

  lemma {:induction false} ConsistentLogged(t: Telemetry, runId: string, manifest: string, s: State)
    requires Consistent(t, runId, manifest)
    ensures Consistent(Logged(t, s), runId, manifest) && Current(Logged(t, s)) == s
  {
  }

  /** Any transition but the completion of a turn. */
  lemma {:induction false} HistoryLogged(kind: Kind, saved: Telemetry, t: Telemetry, s: State)
    requires History(kind, saved, t) && CanLog(kind, saved, t, s)
    requires !(Current(t).TurnRunning? && s.Ready?)
    ensures History(kind, saved, Logged(t, s))
  {
    var base, next := |saved.lifecycle| - 1, Entry(|t.lifecycle|, s);
    LawfulMore(kind, t.lifecycle, base, next);
    CompletedMore(t.lifecycle, base, next);
  }

  /** The completion of a turn: its record, then Ready. */
  lemma {:induction false} HistoryTurn(kind: Kind, saved: Telemetry, t: Telemetry, turn: TurnRecord)
    requires History(kind, saved, t) && CanLog(kind, saved, t, Ready)
    requires Current(t) == TurnRunning(turn.turnId)
    ensures History(kind, saved, Logged(Recorded(t, turn), Ready))
  {
    var base, next := |saved.lifecycle| - 1, Entry(|t.lifecycle|, Ready);
    LawfulMore(kind, t.lifecycle, base, next);
    CompletedMore(t.lifecycle, base, next);
    var since := t.turns[|saved.turns|..];
    assert (t.turns + [turn])[|saved.turns|..] == since + [turn];
    assert TurnIds(since + [turn]) == TurnIds(since) + [turn.turnId];
  }

  /** Saving and restoring any number of times leaves one history. */
  lemma {:induction false} HistoryComposes(kind: Kind, first: Telemetry, saved: Telemetry, t: Telemetry)
    requires History(kind, first, saved) && History(kind, saved, t)
    ensures History(kind, first, t)
  {
    var base, k := |first.lifecycle| - 1, |saved.lifecycle| - 1;
    assert t.lifecycle[..k + 1] == saved.lifecycle;
    LivesJoin(kind, t.lifecycle, base, k);
    CompletedTurnsJoin(t.lifecycle, base, k);
    var early, late := saved.turns[|first.turns|..], t.turns[|saved.turns|..];
    assert t.turns[|first.turns|..] == early + late by {
      assert t.turns == saved.turns + late;
    }
    assert TurnIds(early + late) == TurnIds(early) + TurnIds(late);
  }

  /** Over the whole life of a driver, however often saved, one completed turn per recorded turn. */
  lemma {:induction false} TurnsAreCompletions(kind: Kind, runId: string, manifest: string, t: Telemetry)
    requires History(kind, NewRecord(runId, manifest), t)
    ensures CompletedTurns(t.lifecycle, 0) == TurnIds(t.turns)
    ensures |CompletedTurns(t.lifecycle, 0)| == |t.turns|
  {
    assert t.turns[0..] == t.turns;
  }

  // ---------------------------------------------------------------- as a driver uses it

  ghost predicate Sound(kind: Kind, saved: Telemetry, t: Telemetry, runId: string, manifest: string) {
    Consistent(t, runId, manifest) && History(kind, saved, t)
  }

  lemma {:induction false} SoundBegins(kind: Kind, t: Telemetry, runId: string, manifest: string)
    requires Consistent(t, runId, manifest) && Stable(Current(t))
    ensures Sound(kind, t, t, runId, manifest)
  {
    HistoryBegins(kind, t);
  }

  lemma {:induction false} SoundLogged(kind: Kind, saved: Telemetry, t: Telemetry, runId: string, manifest: string,
                                       s: State)
    requires Sound(kind, saved, t, runId, manifest) && CanLog(kind, saved, t, s)
    requires !(Current(t).TurnRunning? && s.Ready?)
    ensures Sound(kind, saved, Logged(t, s), runId, manifest) && Current(Logged(t, s)) == s
    ensures forall next :: CanLog(kind, saved, Logged(t, s), next) <==> Allowed(kind, Some(Current(t)), s, next)
  {
    HistoryLogged(kind, saved, t, s);
    ConsistentLogged(t, runId, manifest, s);
  }

  lemma {:induction false} SoundTurn(kind: Kind, saved: Telemetry, t: Telemetry, runId: string, manifest: string,
                                     turn: TurnRecord)
    requires Sound(kind, saved, t, runId, manifest) && CanLog(kind, saved, t, Ready)
    requires Current(t) == TurnRunning(turn.turnId)
    ensures Sound(kind, saved, Logged(Recorded(t, turn), Ready), runId, manifest)
    ensures Current(Logged(Recorded(t, turn), Ready)) == Ready
  {
    HistoryTurn(kind, saved, t, turn);
    ConsistentLogged(Recorded(t, turn), runId, manifest, Ready);
  }

  /** Notes and restart counts change neither the current state nor what may follow it. */
  lemma {:induction false} SoundElsewhere(kind: Kind, saved: Telemetry, t: Telemetry, runId: string, manifest: string,
                                          u: Telemetry)
    requires Sound(kind, saved, t, runId, manifest)
    requires u.lifecycle == t.lifecycle && u.turns == t.turns && DiagnosticsNumbered(u.diagnostics)
    requires u.schema == t.schema && u.runId == t.runId && u.manifest == t.manifest
    ensures Sound(kind, saved, u, runId, manifest) && Current(u) == Current(t)
    ensures forall next :: CanLog(kind, saved, u, next) <==> CanLog(kind, saved, t, next)
  {
  }

  lemma {:induction false} SoundNoted(kind: Kind, saved: Telemetry, t: Telemetry, runId: string, manifest: string,
                                      source: Source, code: string, bytes: Bytes)
    requires Sound(kind, saved, t, runId, manifest)
    ensures var u := Noted(t, source, code, bytes);
            && Sound(kind, saved, u, runId, manifest) && Current(u) == Current(t)
            && forall next :: CanLog(kind, saved, u, next) <==> CanLog(kind, saved, t, next)
  {
    SoundElsewhere(kind, saved, t, runId, manifest, Noted(t, source, code, bytes));
  }

  lemma {:induction false} SoundRestarted(kind: Kind, saved: Telemetry, t: Telemetry, runId: string, manifest: string)
    requires Sound(kind, saved, t, runId, manifest)
    ensures var u := Restarted(t);
            && Sound(kind, saved, u, runId, manifest) && Current(u) == Current(t)
            && forall next :: CanLog(kind, saved, u, next) <==> CanLog(kind, saved, t, next)
  {
    SoundElsewhere(kind, saved, t, runId, manifest, Restarted(t));
  }

  lemma {:induction false} SoundKillNoted(kind: Kind, saved: Telemetry, t: Telemetry, runId: string, manifest: string,
                                          held: bool, kill: Kill, code: string)
    requires Sound(kind, saved, t, runId, manifest)
    ensures var u := KillNoted(t, held, kill, code);
            && Sound(kind, saved, u, runId, manifest) && Current(u) == Current(t)
            && forall next :: CanLog(kind, saved, u, next) <==> CanLog(kind, saved, t, next)
  {
    SoundNoted(kind, saved, t, runId, manifest, DriverSource, code, []);
  }

  lemma {:induction false} SoundCancelled(kind: Kind, saved: Telemetry, t: Telemetry, runId: string, manifest: string,
                                          held: bool, kill: Kill)
    requires Sound(kind, saved, t, runId, manifest) && CanLog(kind, saved, t, Terminated(Cancelled))
    ensures var u := CancelledRecord(t, held, kill);
            Sound(kind, saved, u, runId, manifest) && Current(u) == Terminated(Cancelled)
  {
    var code := "cancellation_termination_failed";
    SoundKillNoted(kind, saved, t, runId, manifest, held, kill, code);
    SoundLogged(kind, saved, KillNoted(t, held, kill, code), runId, manifest, Terminated(Cancelled));
  }
}
