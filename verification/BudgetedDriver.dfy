/**
 The driver wrapper of one run's budget: it meters attempts and tool calls, its inner driver's process
 is metered by the same controller, and a turn is dropped when the wall clock runs out. What a turn
 and a whole run of turns leave on record and take from the budget is stated over values.
 */
module BudgetedDriver {
  import opened Integers
  import opened Redaction
  import opened Process
  import opened Lifecycle
  import opened DriverTelemetry
  import opened Turns
  import opened GenericDriver
  import opened Budget

  /** The standing of all meters behind one metered turn: the attempt, the calls it returned and the bytes it heard. */
  ghost predicate TurnMetered(b: Budgets, c0: PerDimension<U64>, g0: PerDimension<nat>, c1: PerDimension<U64>,
                              g1: PerDimension<nat>, started: bool, returned: nat, bytes: nat)
  {
    && c1.Get(Attempts) == SaturatingAdd(c0.Get(Attempts), 1)
    && (started <==> c1.Get(Attempts) <= Limit(b, Attempts))
    && g1.Get(Attempts) == g0.Get(Attempts) + (if started then 1 else 0)
    && g1.Get(Attempts) <= Limit(b, Attempts)
    && g1.Get(ToolCalls) == g0.Get(ToolCalls) + returned
    && g1.Get(ToolCalls) <= Limit(b, ToolCalls)
    && g1.Get(OutputBytes) == g0.Get(OutputBytes) + bytes
    && (Limit(b, OutputBytes) < U64_MAX ==> g1.Get(OutputBytes) <= Limit(b, OutputBytes))
    && forall d: Dimension | d != Attempts && d != ToolCalls && d != OutputBytes ::
         c1.Get(d) == c0.Get(d) && g1.Get(d) == g0.Get(d)
  }

  /** One attempt charged, and nothing more. */
  lemma {:induction false} AttemptMetered(b: Budgets, c0: PerDimension<U64>, g0: PerDimension<nat>,
                                          c1: PerDimension<U64>, g1: PerDimension<nat>)
    requires AllWithin(b, c0, g0) && Charged(b, c0, g0, Attempts, 1, c1, g1)
    ensures TurnMetered(b, c0, g0, c1, g1, c1.Get(Attempts) <= Limit(b, Attempts), 0, 0)
    ensures c1.Get(OutputBytes) == c0.Get(OutputBytes)
  {
    ChargedMeans(b, c0, g0, Attempts, 1, c1, g1);
    assert WithinLimit(Meter(c1.Get(ToolCalls), g1.Get(ToolCalls)), Limit(b, ToolCalls));
    assert Limit(b, OutputBytes) < U64_MAX ==>
      WithinLimit(Meter(c1.Get(OutputBytes), g1.Get(OutputBytes)), Limit(b, OutputBytes));
    hide PerDimension.Get, PerDimension.With;
  }

  /** The same in the budget's own terms. */
  lemma {:induction false} AttemptByName(b: Budgets, c0: PerDimension<U64>, g0: PerDimension<nat>,
                                         c1: PerDimension<U64>, g1: PerDimension<nat>, started: bool, returned: nat,
                                         bytes: nat)
    requires TurnMetered(b, c0, g0, c1, g1, started, returned, bytes)
    ensures c1.attempts == SaturatingAdd(c0.attempts, 1) && (started <==> c1.attempts <= b.attempts)
    ensures c1.toolCalls <= b.toolCalls <==> c1.Get(ToolCalls) <= Limit(b, ToolCalls)
  {
  }

  /** One granted attempt, then the output it hears. */
  lemma {:induction false} OutputMetered(b: Budgets, c0: PerDimension<U64>, g0: PerDimension<nat>,
                                         c1: PerDimension<U64>, g1: PerDimension<nat>, c2: PerDimension<U64>,
                                         g2: PerDimension<nat>, bytes: nat)
    requires TurnMetered(b, c0, g0, c1, g1, true, 0, 0) && OnlyOutput(b, c1, g1, c2, g2, bytes)
    ensures TurnMetered(b, c0, g0, c2, g2, true, 0, bytes)
  {
    hide PerDimension.Get, Limit;
  }

  /** Then the tool calls of its answer. */
  lemma {:induction false} CallsMetered(b: Budgets, c0: PerDimension<U64>, g0: PerDimension<nat>, c1: PerDimension<U64>,
                                        g1: PerDimension<nat>, bytes: nat, calls: nat, c2: PerDimension<U64>,
                                        g2: PerDimension<nat>)
    requires AllWithin(b, c1, g1) && TurnMetered(b, c0, g0, c1, g1, true, 0, bytes)
    requires Charged(b, c1, g1, ToolCalls, calls, c2, g2)
    ensures TurnMetered(b, c0, g0, c2, g2, true, if c2.Get(ToolCalls) <= Limit(b, ToolCalls) then calls else 0, bytes)
    ensures c2.Get(OutputBytes) == c1.Get(OutputBytes)
  {
    ChargedMeans(b, c1, g1, ToolCalls, calls, c2, g2);
    hide PerDimension.Get, PerDimension.With, AllWithin, Charged;
  }

  /** What one turn is asked for, and how its awaits end. */
  datatype TurnInput = TurnInput(
    request: TurnRequest, encodes: bool, cancelled: bool, write: Await<Result<(), ProcessError>>,
    raw: seq<RawRead>, kill: Kill, parse: Parse, deadline: bool, elapsed: U64, stopKill: Kill)

  /** The turn gets as far as reading. */
  predicate Reaches(a: TurnInput, can: bool) {
    can && ValidRunId(a.request.turnId) && a.encodes && !a.cancelled && a.write.Done? && a.write.value.Ok?
  }

  /** What the inner turn hears, and what is consumed of the output budget then. */
  function TurnHears(a: TurnInput, can: bool, consumed: U64, limit: U64): Metered {
    if Reaches(a, can) then MeterReads(a.raw, consumed, limit, []) else Metered([], consumed)
  }

  /** The record only grew, and no turn began or was recorded. */
  predicate NoNewTurn(before: Telemetry, after: Telemetry) {
    && before.lifecycle <= after.lifecycle && after.turns == before.turns
    && Begun(after.lifecycle) == Begun(before.lifecycle)
  }

  predicate StoppedFor(before: Telemetry, r: Reply<TurnOutput>, after: Telemetry) {
    NoNewTurn(before, after) && (r == Returned(Err(OverBudget)) || r == Lost)
  }

  /**
   What becomes of an inner turn that ended with `turn` and the record `mid`; `over` when its tool
   calls were refused.
   */
  predicate Concludes(a: TurnInput, turn: Reply<TurnOutput>, mid: Telemetry, over: bool, r: Reply<TurnOutput>,
                      after: Telemetry)
  {
    match turn
    case Lost => if a.deadline then StoppedFor(mid, r, after) else r == Lost && after == mid
    case Returned(Err(error)) =>
      && r == Returned(Err(if error == ProcessFailed(LimitExceeded) then OverBudget else error))
      && after == mid
    case Returned(Ok(_)) => if over then StoppedFor(mid, r, after) else r == turn && after == mid
  }

  /** One metered turn on record: refused without an inner turn, or an inner turn that heard `heard`. */
  ghost predicate BudgetedTurn(before: Telemetry, a: TurnInput, started: bool, heard: seq<Read>, over: bool,
                               r: Reply<TurnOutput>, after: Telemetry)
  {
    if !started then heard == [] && StoppedFor(before, r, after)
    else exists can, turn, mid :: InnerTurn(can, before, a, heard, turn, mid) && Concludes(a, turn, mid, over, r, after)
  }

  ghost predicate InnerTurn(can: bool, before: Telemetry, a: TurnInput, heard: seq<Read>, turn: Reply<TurnOutput>,
                            mid: Telemetry)
  {
    TurnEnds(can, before, a.request, a.encodes, a.cancelled, a.write, heard, a.kill, a.parse, turn, mid)
  }

  /** A metered turn begins at most one inner turn, and none if it was refused. */
  lemma {:induction false} BudgetedTurnBegins(before: Telemetry, a: TurnInput, started: bool, heard: seq<Read>,
                                              over: bool, r: Reply<TurnOutput>, after: Telemetry)
    requires BudgetedTurn(before, a, started, heard, over, r, after)
    ensures Begun(after.lifecycle) <= Begun(before.lifecycle) + if started then 1 else 0
  {
    if started {
      var can, turn, mid :| InnerTurn(can, before, a, heard, turn, mid) && Concludes(a, turn, mid, over, r, after);
      TurnOnRecord(can, before, a.request, a.encodes, a.cancelled, a.write, heard, a.kill, a.parse, turn, mid);
      hide TurnEnds, Begun;
    }
  }

  /** Terminating begins no turn, even when it fails and goes back to one. */
  lemma {:induction false} TerminatingBeginsNone(t: Telemetry, next: State)
    ensures NoNewTurn(t, Logged(t, Terminating))
    ensures NoNewTurn(t, Logged(Logged(t, Terminating), next))
    ensures NoNewTurn(t, Logged(Noted(Logged(t, Terminating), DriverSource, "termination_failed", []), next))
  {
    var n := |t.lifecycle|;
    hide Begun;
    BegunMore(t.lifecycle, Entry(n, Terminating));
    var begun := Logged(t, Terminating);
    BegunMore(begun.lifecycle, Entry(n + 1, next));
    assert Logged(begun, next).lifecycle == begun.lifecycle + [Entry(n + 1, next)];
    var noted := Noted(begun, DriverSource, "termination_failed", []);
    assert Logged(noted, next).lifecycle == begun.lifecycle + [Entry(n + 1, next)];
  }

  class BudgetedAgentDriver {
    const inner: GenericCommandDriver
    const controller: BudgetController

    ghost predicate Valid()
      reads this, inner, inner.decoder, controller
    {
      inner.Valid() && controller.Valid()
    }

    constructor (inner: GenericCommandDriver, controller: BudgetController)
      requires inner.Valid() && controller.Valid()
      ensures Valid() && this.inner == inner && this.controller == controller
    {
      this.inner, this.controller := inner, controller;
    }

    /** Terminates the inner driver for the budget; a failed termination is ignored. */
    method Stop(kill: Kill) returns (r: Reply<TurnOutput>)
      requires inner.Valid()
      modifies inner, inner.decoder
      ensures inner.Valid()
      ensures StoppedFor(old(inner.telemetry), r, inner.telemetry)
      ensures r == Lost ==> kill.KillDropped?
      ensures old(inner.state).Terminated? ==> inner.state == old(inner.state)
      ensures !old(inner.state).Terminated? && (old(inner.process).None? || kill.Killed?) ==>
        inner.state == Terminated(BudgetExceeded)
    {
      hide Sound, Begun;
      TerminatingBeginsNone(inner.telemetry, Terminated(BudgetExceeded));
      TerminatingBeginsNone(inner.telemetry, inner.state);
      var ended := inner.Terminate(BudgetExceeded, kill);
      r := if ended.Lost? then Lost else Returned(Err(OverBudget));
    }

    /**
     One metered turn. The process of the inner driver is metered by the same controller, so the turn
     hears what the metered reads hand on. `deadline` says whether a dropped inner turn was dropped by
     the wall clock; otherwise it was this operation's own caller that went away.
     */
    method RequestTurn(a: TurnInput) returns (r: Reply<TurnOutput>, ghost started: bool, ghost heard: seq<Read>)
      requires Valid()
      modifies inner, inner.decoder, controller
      ensures Valid()
      // attempts within the limit reach the inner driver, others do not; only tool calls of returned outputs
      // are granted, and exactly the bytes the turn heard
      ensures TurnMetered(controller.budgets, old(controller.consumption), old(controller.granted),
                controller.consumption, controller.granted, started, ReturnedCalls(r), HeardBytes(heard))
      ensures controller.consumption.attempts == SaturatingAdd(old(controller.consumption).attempts, 1)
      ensures started <==> controller.consumption.attempts <= controller.budgets.attempts
      ensures r.Returned? && r.result.Ok? ==> controller.consumption.toolCalls <= controller.budgets.toolCalls
      ensures BudgetedTurn(old(inner.telemetry), a, started, heard,
                controller.consumption.Get(ToolCalls) > Limit(controller.budgets, ToolCalls), r, inner.telemetry)
      // what the turn hears is what the metered reads of its process hand on
      ensures started ==>
        Metered(heard, controller.consumption.Get(OutputBytes))
        == TurnHears(a, CanTurn(old(inner.state), old(inner.process)), old(controller.consumption).Get(OutputBytes),
                     Limit(controller.budgets, OutputBytes))
      // an output that is returned was heard, and is the turn the inner driver recorded last
      ensures r.Returned? && r.result.Ok? ==>
        && Listen(heard, [], a.request.turnId, a.parse).end == Answer(r.result.value)
        && inner.state.Ready?
        && inner.telemetry.turns == old(inner.telemetry).turns + [TurnOf(a.request, r.result.value)]
      // a turn that exceeds a budget leaves a driver terminated for it, unless it was terminated or has crashed already
      ensures r == Returned(Err(OverBudget)) && a.stopKill.Killed? ==>
        || inner.state == Terminated(BudgetExceeded) || inner.state.Crashed?
        || (old(inner.state).Terminated? && inner.state == old(inner.state))
      // and the wall clock is to blame when neither attempts nor tool calls nor the process were
      ensures started && r == Returned(Err(OverBudget)) && !inner.state.Crashed?
              && controller.consumption.Get(ToolCalls) <= Limit(controller.budgets, ToolCalls) ==>
        WallTimeReported(controller.limitEvents)
    {
      hide Sound, Charged, AllWithin, TurnMetered, OnlyOutput, HeardBytes, TurnHears, InnerTurn, NoNewTurn;
      hide Listen, TurnOf, PerDimension.Get, Limit, NamedCharge;
      var begun := controller.AddAndCheck(Attempts, 1);
      AttemptMetered(controller.budgets, old(controller.consumption), old(controller.granted), controller.consumption,
                     controller.granted);
      AttemptByName(controller.budgets, old(controller.consumption), old(controller.granted), controller.consumption,
                    controller.granted, begun.Ok?, 0, 0);
      started, heard := begun.Ok?, [];
      NoBytes();
      if begun.Err? {
        r := Stop(a.stopKill);
        return;
      }
      ghost var c1, g1 := controller.consumption, controller.granted;
      var turn, events := TurnInside(a);
      heard := events;
      ghost var mid := inner.telemetry;
      OutputMetered(controller.budgets, old(controller.consumption), old(controller.granted), c1, g1,
                    controller.consumption, controller.granted, HeardBytes(heard));
      AttemptByName(controller.budgets, old(controller.consumption), old(controller.granted), controller.consumption,
                    controller.granted, true, 0, HeardBytes(heard));
      if turn.Lost? {
        if !a.deadline {
          r := Lost;
          return;
        }
        controller.RecordWallTimeout(a.elapsed);
        r := Stop(a.stopKill);
        return;
      }
      if turn.result.Err? {
        var error := turn.result.error;
        r := Returned(Err(if error == ProcessFailed(LimitExceeded) then OverBudget else error));
        return;
      }
      ghost var c2, g2 := controller.consumption, controller.granted;
      var called := controller.AddAndCheck(ToolCalls, |turn.result.value.calls|);
      CallsMetered(controller.budgets, old(controller.consumption), old(controller.granted), c2, g2, HeardBytes(heard),
                   |turn.result.value.calls|, controller.consumption, controller.granted);
      AttemptByName(controller.budgets, old(controller.consumption), old(controller.granted), controller.consumption,
                    controller.granted, true, if called.Ok? then |turn.result.value.calls| else 0, HeardBytes(heard));
      if called.Err? {
        r := Stop(a.stopKill);
        return;
      }
      r := turn;
    }

    /** The inner turn over the metered process. It reads only once its request is written. */
    method TurnInside(a: TurnInput) returns (turn: Reply<TurnOutput>, heard: seq<Read>)
      requires Valid()
      modifies inner, inner.decoder, controller
      ensures Valid()
      ensures OnlyOutput(controller.budgets, old(controller.consumption), old(controller.granted),
                controller.consumption, controller.granted, HeardBytes(heard))
      ensures Metered(heard, controller.consumption.Get(OutputBytes))
              == TurnHears(a, CanTurn(old(inner.state), old(inner.process)),
                           old(controller.consumption).Get(OutputBytes), Limit(controller.budgets, OutputBytes))
      ensures InnerTurn(CanTurn(old(inner.state), old(inner.process)), old(inner.telemetry), a, heard, turn,
                inner.telemetry)
      ensures turn.Returned? && turn.result.Ok? ==>
        && Listen(heard, [], a.request.turnId, a.parse).end == Answer(turn.result.value)
        && inner.state.Ready?
        && inner.telemetry.turns == old(inner.telemetry).turns + [TurnOf(a.request, turn.result.value)]
      ensures turn == Returned(Err(ProcessFailed(LimitExceeded))) ==> inner.state.Crashed?
      ensures turn != Returned(Err(OverBudget))
      ensures turn.Lost? ==> !inner.state.Terminated?
    {
      hide Sound, OnlyOutput, HeardBytes, AllWithin, MeterReads, ValidRunId, Limit, PerDimension.Get, Listen, TurnOf;
      heard := [];
      NothingHeard(controller.budgets, controller.consumption, controller.granted);
      if Reaches(a, CanTurn(inner.state, inner.process)) {
        heard := controller.HearAll(a.raw);
      }
      turn := inner.RequestTurn(a.request, a.encodes, a.cancelled, a.write, heard, a.kill, a.parse);
      TurnMeans(CanTurn(old(inner.state), old(inner.process)), old(inner.telemetry), a, heard, turn, inner.telemetry);
      inner.StateOnRecord();
    }

    /**
     A whole run of turns on one controller. Of the attempts exactly those within the limit reach the
     inner driver, which begins no more turns than that; the tool calls of all returned outputs and all
     bytes of both streams that the turns heard, which came from their process, stay within their limits.
     */
    method RunTurns(inputs: seq<TurnInput>) returns (replies: seq<Reply<TurnOutput>>, ghost steps: seq<TurnStep>)
      requires Valid()
      modifies inner, inner.decoder, controller
      ensures Valid() && |replies| == |inputs| == |steps|
      ensures forall i | 0 <= i < |replies| :: replies[i] == steps[i].reply
      ensures Ran(old(inner.telemetry), inputs, steps, inner.telemetry)
      ensures var before, limit := old(controller.consumption).attempts, controller.budgets.attempts;
              if before + |inputs| <= limit then Started(steps) == |inputs|
              else Started(steps) == if before <= limit then limit - before else 0
      ensures Started(steps) <= controller.budgets.attempts
      ensures Begun(inner.telemetry.lifecycle) <= Begun(old(inner.telemetry).lifecycle) + Started(steps)
      ensures AllCalls(steps) <= controller.budgets.toolCalls
      ensures controller.budgets.outputBytes < U64_MAX ==> AllBytes(steps) <= controller.budgets.outputBytes
    {
      hide TurnMetered, Totals, AllWithin, Sound, Ran, BudgetedTurn, TurnHears;
      hide Limit, PerDimension.Get, Begun, HeardBytes;
      replies, steps := [], [];
      NoTotals(controller.budgets, controller.consumption, controller.granted);
      NothingRan(inner.telemetry);
      for i := 0 to |inputs|
        invariant Valid() && |replies| == |steps| == i
        invariant forall k | 0 <= k < i :: replies[k] == steps[k].reply
        invariant Ran(old(inner.telemetry), inputs[..i], steps, inner.telemetry)
        invariant Totals(controller.budgets, old(controller.consumption), old(controller.granted),
                         controller.consumption, controller.granted, steps)
      {
        ghost var before, c, g := inner.telemetry, controller.consumption, controller.granted;
        ghost var can := CanTurn(inner.state, inner.process);
        var r, started, heard := RequestTurn(inputs[i]);
        ghost var over := controller.consumption.Get(ToolCalls) > Limit(controller.budgets, ToolCalls);
        ghost var step := TurnStep(started, heard, over, r, inner.telemetry);
        HeardCame(inputs[i], can, c.Get(OutputBytes), Limit(controller.budgets, OutputBytes), step,
                  controller.consumption.Get(OutputBytes), before);
        TotalsMore(controller.budgets, old(controller.consumption), old(controller.granted), c, g,
                   controller.consumption, controller.granted, steps, step);
        RanMore(old(inner.telemetry), inputs[..i], steps, before, inputs[i], step);
        assert inputs[..i] + [inputs[i]] == inputs[..i + 1];
        replies, steps := replies + [r], steps + [step];
      }
      assert inputs[..|inputs|] == inputs;
      RanBegins(old(inner.telemetry), inputs, steps, inner.telemetry);
      TotalsMean(controller.budgets, old(controller.consumption), old(controller.granted), controller.consumption,
                 controller.granted, steps);
    }
  }

  // ---------------------------------------------------------------- whole runs

  /** One turn of a run: whether it started, what it heard, whether its tool calls were refused, and how it ended. */
  datatype TurnStep = TurnStep(started: bool, heard: seq<Read>, over: bool, reply: Reply<TurnOutput>, after: Telemetry)

  /** The record before the last step. */
  function RecordBefore(t: Telemetry, steps: seq<TurnStep>): Telemetry
    requires steps != []
  {
    if |steps| == 1 then t else steps[|steps| - 2].after
  }

  /** The steps lead from the one record to the other, and what each heard came from its own process. */
  ghost predicate Ran(before: Telemetry, inputs: seq<TurnInput>, steps: seq<TurnStep>, after: Telemetry)
    decreases |steps|
  {
    && |inputs| == |steps|
    && if steps == [] then after == before
       else
         var n := |steps| - 1;
         var mid, step := RecordBefore(before, steps), steps[n];
         && Ran(before, inputs[..n], steps[..n], mid) && after == step.after
         && BudgetedTurn(mid, inputs[n], step.started, step.heard, step.over, step.reply, step.after)
         && AllCameFrom(inputs[n].raw, step.heard)
  }

  lemma {:induction false} NothingRan(t: Telemetry)
    ensures Ran(t, [], [], t)
  {
  }

  lemma {:induction false} RanEndsIn(before: Telemetry, inputs: seq<TurnInput>, steps: seq<TurnStep>, after: Telemetry)
    requires Ran(before, inputs, steps, after)
    ensures after == if steps == [] then before else steps[|steps| - 1].after
  {
  }

  lemma {:induction false} RanMore(before: Telemetry, inputs: seq<TurnInput>, steps: seq<TurnStep>, mid: Telemetry,
                                   a: TurnInput, step: TurnStep)
    requires Ran(before, inputs, steps, mid) && AllCameFrom(a.raw, step.heard)
    requires BudgetedTurn(mid, a, step.started, step.heard, step.over, step.reply, step.after)
    ensures Ran(before, inputs + [a], steps + [step], step.after)
  {
    RanEndsIn(before, inputs, steps, mid);
    assert (inputs + [a])[..|inputs|] == inputs && (steps + [step])[..|steps|] == steps;
    hide BudgetedTurn, AllCameFrom;
  }

  /** No more turns begin than start. */
  lemma {:induction false} RanBegins(before: Telemetry, inputs: seq<TurnInput>, steps: seq<TurnStep>, after: Telemetry)
    requires Ran(before, inputs, steps, after)
    ensures Begun(after.lifecycle) <= Begun(before.lifecycle) + Started(steps)
    decreases |steps|
  {
    if steps != [] {
      var n := |steps| - 1;
      var mid, step := RecordBefore(before, steps), steps[n];
      RanBegins(before, inputs[..n], steps[..n], mid);
      BudgetedTurnBegins(mid, inputs[n], step.started, step.heard, step.over, step.reply, step.after);
      hide BudgetedTurn, Begun;
    }
  }

  lemma {:induction false} HeardCame(a: TurnInput, can: bool, consumed: U64, limit: U64, step: TurnStep, now: U64,
                                     before: Telemetry)
    requires step.started ==> Metered(step.heard, now) == TurnHears(a, can, consumed, limit)
    requires BudgetedTurn(before, a, step.started, step.heard, step.over, step.reply, step.after)
    ensures AllCameFrom(a.raw, step.heard)
  {
    MeteredFaithfully(a.raw, consumed, limit, []);
    hide MeterReads, Concludes, InnerTurn;
  }

  function Started(steps: seq<TurnStep>): nat {
    if steps == [] then 0 else Started(steps[..|steps| - 1]) + if steps[|steps| - 1].started then 1 else 0
  }

  function AllCalls(steps: seq<TurnStep>): nat {
    if steps == [] then 0 else AllCalls(steps[..|steps| - 1]) + ReturnedCalls(steps[|steps| - 1].reply)
  }

  function AllBytes(steps: seq<TurnStep>): nat {
    if steps == [] then 0 else AllBytes(steps[..|steps| - 1]) + HeardBytes(steps[|steps| - 1].heard)
  }

  /** Of `n` more attempts, those that stay within the limit. */
  function Admitted(consumed: nat, n: nat, limit: nat): nat {
    if consumed + n <= limit then n else if consumed <= limit then limit - consumed else 0
  }

  function ReturnedCalls(r: Reply<TurnOutput>): nat {
    if r.Returned? && r.result.Ok? then |r.result.value.calls| else 0
  }

  lemma {:induction false} NoBytes()
    ensures HeardBytes([]) == 0
  {
  }

  /** What a run was granted is what its steps took. */
  ghost predicate Totals(b: Budgets, c0: PerDimension<U64>, g0: PerDimension<nat>, c1: PerDimension<U64>,
                         g1: PerDimension<nat>, steps: seq<TurnStep>)
  {
    && c1.Get(Attempts) == SaturatingAdd(c0.Get(Attempts), |steps|)
    && Started(steps) == Admitted(c0.Get(Attempts), |steps|, Limit(b, Attempts))
    && g1.Get(ToolCalls) == g0.Get(ToolCalls) + AllCalls(steps) <= Limit(b, ToolCalls)
    && g1.Get(OutputBytes) == g0.Get(OutputBytes) + AllBytes(steps)
    && (Limit(b, OutputBytes) < U64_MAX ==> g1.Get(OutputBytes) <= Limit(b, OutputBytes))
  }

  lemma {:induction false} NoTotals(b: Budgets, c: PerDimension<U64>, g: PerDimension<nat>)
    requires AllWithin(b, c, g)
    ensures Totals(b, c, g, c, g, [])
  {
    forall d: Dimension | Limit(b, d) < U64_MAX ensures g.Get(d) <= Limit(b, d) {
      assert WithinLimit(Meter(c.Get(d), g.Get(d)), Limit(b, d));
    }
    assert Limit(b, Attempts) < U64_MAX && Limit(b, ToolCalls) < U64_MAX;
  }

  lemma {:induction false} TotalsMore(b: Budgets, c0: PerDimension<U64>, g0: PerDimension<nat>, c1: PerDimension<U64>,
                                      g1: PerDimension<nat>, c2: PerDimension<U64>, g2: PerDimension<nat>,
                                      steps: seq<TurnStep>, step: TurnStep)
    requires Totals(b, c0, g0, c1, g1, steps)
    requires TurnMetered(b, c1, g1, c2, g2, step.started, ReturnedCalls(step.reply), HeardBytes(step.heard))
    ensures Totals(b, c0, g0, c2, g2, steps + [step])
  {
    assert (steps + [step])[..|steps|] == steps;
    assert Limit(b, Attempts) < U64_MAX;
    hide PerDimension.Get, Limit, HeardBytes;
  }

  lemma {:induction false} TotalsMean(b: Budgets, c0: PerDimension<U64>, g0: PerDimension<nat>, c1: PerDimension<U64>,
                                      g1: PerDimension<nat>, steps: seq<TurnStep>)
    requires Totals(b, c0, g0, c1, g1, steps)
    ensures if c0.attempts + |steps| <= b.attempts then Started(steps) == |steps|
            else Started(steps) == if c0.attempts <= b.attempts then b.attempts - c0.attempts else 0
    ensures AllCalls(steps) <= b.toolCalls
    ensures b.outputBytes < U64_MAX ==> AllBytes(steps) <= b.outputBytes
  {
  }

  /**
   A turn that answers heard the answer and records it last, one that fails for a limit has crashed,
   none fails for a budget, and a dropped one is not terminated.
   */
  lemma {:induction false} TurnMeans(can: bool, before: Telemetry, a: TurnInput, heard: seq<Read>,
                                      turn: Reply<TurnOutput>, after: Telemetry)
    requires InnerTurn(can, before, a, heard, turn, after)
    ensures after.lifecycle != []
    ensures turn.Returned? && turn.result.Ok? ==>
      && Listen(heard, [], a.request.turnId, a.parse).end == Answer(turn.result.value)
      && Current(after).Ready? && after.turns == before.turns + [TurnOf(a.request, turn.result.value)]
    ensures turn == Returned(Err(ProcessFailed(LimitExceeded))) ==> Current(after).Crashed?
    ensures turn != Returned(Err(OverBudget))
    ensures turn.Lost? ==> !Current(after).Terminated?
  {
    ListenErrors(heard, [], a.request.turnId, a.parse);
    StderrKeepsRecord(Logged(before, TurnRunning(a.request.turnId)),
                      Listen(heard, [], a.request.turnId, a.parse).stderr);
    hide Listen, StderrNoted, ValidRunId;
  }

  lemma {:induction false} ListenErrors(events: seq<Read>, text: Bytes, id: string, parse: Parse)
    ensures Listen(events, text, id, parse).end != Broken(OverBudget)
    decreases |events|
  {
    if events != [] && events[0].Done? && events[0].value.Ok? && !events[0].value.value.Exited? {
      var bytes := events[0].value.value.bytes;
      ListenErrors(events[1..], if events[0].value.value.Stdout? then text + bytes else text, id, parse);
    }
  }
}
