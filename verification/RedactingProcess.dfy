/**
 The process wrapper that redacts both output streams. What the wrapped process will report to
 successive reads is the field `script`; everything else is the wrapper's own state. The ghost
 field `run` records the reports read, the bytes and ends handed on, and the current life.
 */
module RedactingProcesses {
  import opened Redaction
  import opened RedactingStream
  import opened Process
  import opened Reports

  /** The reports of the current life, the steps taken on each stream and the bytes handed to the caller. */
  datatype Life = Life(reports: seq<Report>, outSteps: seq<Step>, errSteps: seq<Step>, out: Bytes, err: Bytes)

  const NEWBORN: Life := Life([], [], [], [], [])

  /** Bytes handed to the caller on the two streams. */
  datatype Given = Given(out: Bytes, err: Bytes)

  /** Where the life stands: `past` was handed on in earlier lives. */
  ghost predicate Placed(life: Life, past: Given, seen: seq<Report>, gave: Given, exited: bool) {
    && life.reports == LastLife(seen)
    && gave == Given(past.out + life.out, past.err + life.err)
    && (Earlier(seen) == [] ==> past == Given([], []))
    && (exited <==> HasExit(life.reports))
  }

  /** What was handed on in the lives that are over. */
  ghost predicate Finished(secrets: seq<Bytes>, m: Bytes, lives: seq<seq<Report>>, past: Given) {
    && (Redactable(secrets, m) ==> Bare(secrets, past.out) && Bare(secrets, past.err))
    && (Redactable(secrets, m) && Appending(secrets, m) ==>
          past == Given(OneShot(lives, true, secrets, m), OneShot(lives, false, secrets, m)))
  }

  lemma {:induction false} PlacedAtBirth()
    ensures Placed(NEWBORN, Given([], []), [], Given([], []), false)
  {
  }

  /** Another report of the same life. */
  lemma {:induction false} PlacedMore(life: Life, life': Life, past: Given, seen: seq<Report>, gave: Given,
                                      exited: bool, r: Report)
    requires Placed(life, past, seen, gave, exited) && !(exited && IsOutput(r))
    requires life'.reports == life.reports + [r] && life'.out == life.out && life'.err == life.err
    ensures Placed(life', past, seen + [r], gave, exited || IsExit(r)) && Earlier(seen + [r]) == Earlier(seen)
  {
    LivesMore(seen, r);
    HasExitMore(life.reports, r);
    hide LastLife, Earlier, HasExit;
  }

  /** Output after an exit begins a new life. */
  lemma {:induction false} PlacedAnew(life: Life, life': Life, past: Given, seen: seq<Report>, gave: Given, r: Report)
    requires Placed(life, past, seen, gave, true) && IsOutput(r)
    requires life'.reports == [r] && life'.out == [] && life'.err == []
    ensures Placed(life', gave, seen + [r], gave, false) && Earlier(seen + [r]) == Lives(seen)
  {
    LivesMore(seen, r);
    HasExitMore([], r);
    assert [] + [r] == [r] && gave.out + [] == gave.out && gave.err + [] == gave.err;
  }

  /** A life that is over is redacted at once. */
  lemma {:induction false} FinishedMore(secrets: seq<Bytes>, m: Bytes, life: Life, past: Given, seen: seq<Report>,
                                        gave: Given)
    requires Placed(life, past, seen, gave, true) && Finished(secrets, m, Earlier(seen), past)
    requires Redactable(secrets, m) ==> Withheld(secrets, life.out) && Withheld(secrets, life.err)
    requires Redactable(secrets, m) && Appending(secrets, m) ==>
      && life.out == RedactAll(Written(life.reports, true), secrets, m)
      && life.err == RedactAll(Written(life.reports, false), secrets, m)
    ensures Finished(secrets, m, Lives(seen), gave)
  {
    if Redactable(secrets, m) {
      WithheldIsBare(secrets, life.out);
      WithheldIsBare(secrets, life.err);
      BareJoins(secrets, past.out, life.out);
      BareJoins(secrets, past.err, life.err);
    }
    hide Redactable, Appending, RedactAll, Bare, Written;
  }

  /** Bytes handed on belong to the life. */
  lemma {:induction false} PlacedGave(life: Life, life': Life, past: Given, seen: seq<Report>, gave: Given,
                                      exited: bool, out: Bytes, err: Bytes)
    requires Placed(life, past, seen, gave, exited)
    requires life'.reports == life.reports && life'.out == life.out + out && life'.err == life.err + err
    ensures Placed(life', past, seen, Given(gave.out + out, gave.err + err), exited)
  {
    hide LastLife, Earlier, HasExit;
    Assoc(past.out, life.out, out);
    Assoc(past.err, life.err, err);
  }

  /** With one life there is no past. */
  lemma {:induction false} OnlyLife(life: Life, past: Given, seen: seq<Report>, gave: Given, exited: bool)
    requires Placed(life, past, seen, gave, exited) && ExitIsFinal(seen)
    ensures life.reports == seen && gave == Given(life.out, life.err)
  {
    OneLife(seen);
    assert [] + life.out == life.out && [] + life.err == life.err;
  }

  /** Queued events are non-empty output followed by the exit. */
  predicate QueueShape(queued: seq<ProcessEvent>) {
    forall i | 0 <= i < |queued| ::
      (queued[i].Exited? <==> i == |queued| - 1) && (!queued[i].Exited? ==> queued[i].bytes != [])
  }

  /** Bytes of one stream that wait in the queue. */
  function Queued(events: seq<ProcessEvent>, stdout: bool): Bytes {
    if events == [] then []
    else
      (if (stdout && events[0].Stdout?) || (!stdout && events[0].Stderr?) then events[0].bytes else [])
      + Queued(events[1..], stdout)
  }

  /** The end that waits in the queue. */
  function Waiting(queued: seq<ProcessEvent>): seq<Report> {
    if queued == [] then [] else [Ok(queued[|queued| - 1])]
  }

  lemma {:induction false} NothingQueued(events: seq<ProcessEvent>)
    requires events == []
    ensures Queued(events, true) == [] && Queued(events, false) == []
  {
  }

  method TakeLine(buffer: Bytes, secrets: seq<Bytes>, m: Bytes) returns (line: Option<Bytes>, rest: Bytes)
    requires m != []
    ensures line.None? <==> NEWLINE !in buffer
    ensures line.None? ==> rest == buffer
    ensures line.Some? ==>
      line.value != [] && |rest| < |buffer| && Moves(secrets, m, buffer, Line, line.value, rest)
  {
    var n := LineLength(buffer);
    if n == 0 {
      return None, buffer;
    }
    var redacted := RedactBytes(buffer[..n], secrets, m);
    NothingVanishes(buffer[..n], secrets, m);
    line, rest := Some(redacted), buffer[n..];
  }

  method TakeBoundedChunk(buffer: Bytes, secrets: seq<Bytes>, ghost m: Bytes)
    returns (chunk: Option<Bytes>, rest: Bytes)
    ensures chunk.None? <==> |buffer| <= 16384
    ensures chunk.None? ==> rest == buffer
    ensures chunk.Some? ==>
      && chunk.value + rest == buffer
      && (chunk.value == [] <==> |buffer| <= Retained(secrets))
      && Moves(secrets, m, buffer, Chunk, chunk.value, rest)
  {
    if |buffer| <= CHUNK_BYTES {
      return None, buffer;
    }
    var retained := Retained(secrets);
    var emitted := if |buffer| <= retained then 0 else |buffer| - retained;
    chunk, rest := Some(buffer[..emitted]), buffer[emitted..];
  }

  lemma {:induction false} NothingVanishes(v: Bytes, secrets: seq<Bytes>, m: Bytes)
    requires v != [] && m != []
    ensures RedactAll(v, secrets, m) != []
    decreases |secrets|
  {
    if secrets != [] {
      if secrets[0] == [] {
        NothingVanishes(v, secrets[1..], m);
      } else {
        NothingVanishes(Redact(v, secrets[0], m), secrets[1..], m);
      }
    }
  }

  /** The step hands on `bytes` and leaves `rest`. */
  ghost predicate Moves(secrets: seq<Bytes>, m: Bytes, buffer: Bytes, step: Step, bytes: Bytes, rest: Bytes) {
    !step.Read? && buffer != []
    && Apply(secrets, Stream([], [], buffer), step, m) == Stream([], bytes, rest)
  }

  /** A stream is where its run of steps says; after exit the flushed text is delivered or waiting. */
  ghost predicate Tracks(secrets: seq<Bytes>, m: Bytes, steps: seq<Step>, written: Bytes, gave: Bytes, buffer: Bytes,
                         waiting: Bytes, exited: bool)
  {
    var st := Replay(secrets, steps, m);
    && st.read == written
    && (!exited ==> st.gave == gave && st.buffer == buffer && waiting == [])
    && (exited ==> buffer == [] && gave + waiting == Flushed(secrets, st, m))
  }

  /** After an exit nothing is buffered, so a new life can begin. */
  lemma {:induction false} TracksAnew(secrets: seq<Bytes>, m: Bytes, steps: seq<Step>, written: Bytes, gave: Bytes,
                                      buffer: Bytes)
    requires Tracks(secrets, m, steps, written, gave, buffer, [], true)
    ensures Tracks(secrets, m, [], [], [], buffer, [], false)
  {
  }

  lemma {:induction false} TracksRead(secrets: seq<Bytes>, m: Bytes, steps: seq<Step>, written: Bytes, gave: Bytes,
                                      buffer: Bytes, x: Bytes)
    requires Tracks(secrets, m, steps, written, gave, buffer, [], false)
    ensures Tracks(secrets, m, steps + [Read(x)], written + x, gave, RedactAll(buffer + x, secrets, m), [], false)
  {
    ReplayMore(secrets, steps, Read(x), m);
  }

  lemma {:induction false} TracksPop(secrets: seq<Bytes>, m: Bytes, steps: seq<Step>, written: Bytes, gave: Bytes,
                                     buffer: Bytes, events: seq<ProcessEvent>, exited: bool, stdout: bool)
    requires events != [] && exited
    requires Tracks(secrets, m, steps, written, gave, buffer, Queued(events, stdout), exited)
    ensures var head := if (stdout && events[0].Stdout?) || (!stdout && events[0].Stderr?) then events[0].bytes else [];
            Tracks(secrets, m, steps, written, gave + head, buffer, Queued(events[1..], stdout), exited)
  {
    var head := if (stdout && events[0].Stdout?) || (!stdout && events[0].Stderr?) then events[0].bytes else [];
    Assoc(gave, head, Queued(events[1..], stdout));
  }

  lemma {:induction false} TracksMove(secrets: seq<Bytes>, m: Bytes, steps: seq<Step>, written: Bytes, gave: Bytes,
                                      buffer: Bytes, step: Step, bytes: Bytes, rest: Bytes, exited: bool)
    requires Tracks(secrets, m, steps, written, gave, buffer, [], exited)
    requires Moves(secrets, m, buffer, step, bytes, rest)
    ensures Tracks(secrets, m, steps + [step], written, gave + bytes, rest, [], exited)
  {
    ReplayMore(secrets, steps, step, m);
    var y := Apply(secrets, Stream([], [], buffer), step, m).gave;
    if step.Line? && LineLength(buffer) > 0 {
      assert [] + RedactAll(buffer[..LineLength(buffer)], secrets, m) == y;
      assert y == RedactAll(buffer[..LineLength(buffer)], secrets, m);
    } else if step.Chunk? {
      assert y == buffer[..ChunkLength(buffer, secrets)];
    }
  }

  lemma {:induction false} TracksFlush(secrets: seq<Bytes>, m: Bytes, steps: seq<Step>, written: Bytes, gave: Bytes,
                                       buffer: Bytes, exited: bool, waiting: Bytes)
    requires Tracks(secrets, m, steps, written, gave, buffer, [], exited)
    requires waiting == if buffer == [] then [] else RedactAll(buffer, secrets, m)
    ensures Tracks(secrets, m, steps, written, gave, [], waiting, true)
  {
    if buffer == [] {
      NoneToRedact([], secrets, m);
    }
  }

  lemma {:induction false} TracksDelivered(secrets: seq<Bytes>, m: Bytes, steps: seq<Step>, written: Bytes, gave: Bytes,
                                           buffer: Bytes, waiting: Bytes, exited: bool)
    requires Tracks(secrets, m, steps, written, gave, buffer, waiting, exited)
    ensures Redactable(secrets, m) ==> Withheld(secrets, gave)
    ensures Redactable(secrets, m) && Appending(secrets, m) ==> gave <= RedactAll(written, secrets, m)
    ensures exited && waiting == [] && Redactable(secrets, m) && Appending(secrets, m) ==>
      gave == RedactAll(written, secrets, m)
  {
    if Redactable(secrets, m) {
      forall s | s in secrets && s != [] ensures NoOccurrence(gave, s) {
        NoSecretDelivered(secrets, steps, s, m);
        NoOccurrenceInFront(gave, waiting, s);
      }
      if Appending(secrets, m) {
        AppendingStreams(secrets, steps, m);
        assert gave + [] == gave;
        assert gave <= Flushed(secrets, Replay(secrets, steps, m), m);
      }
    }
  }

  lemma {:induction false} NoOccurrenceInFront(g: Bytes, q: Bytes, s: Bytes)
    ensures NoOccurrence(g + q, s) ==> NoOccurrence(g, s)
  {
    if NoOccurrence(g + q, s) {
      forall k | 0 <= k < |g| ensures !(s <= g[k..]) {
        assert g[k..] <= (g + q)[k..];
      }
    }
  }

  predicate PlainSecret(s: Bytes) {
    NEWLINE !in s && 91 !in s && 93 !in s && forall k | 0 <= k <= |REDACTED| :: !(s <= REDACTED[k..])
  }

  /** Secrets without newline and brackets that are no part of the marker meet every side condition. */
  lemma {:induction false} PlainSecretsQualify(secrets: seq<Bytes>)
    requires forall i | 0 <= i < |secrets| :: secrets[i] == [] || PlainSecret(secrets[i])
    ensures Redactable(secrets, REDACTED)
  {
    forall i | 0 <= i < |secrets| && secrets[i] != [] ensures MarkerFree(secrets[i], REDACTED) {
      BracketsTellApart(secrets[i], REDACTED);
    }
  }

  lemma {:induction false} BracketsTellApart(s: Bytes, m: Bytes)
    requires s != [] && m != [] && m[0] !in s && m[|m| - 1] !in s
    requires forall k | 0 <= k <= |m| :: !(s <= m[k..])
    ensures MarkerFree(s, m)
  {
    forall k | 0 <= k < |m| ensures !Compatible(m[k..], s) {
      assert m[k..][|m| - 1 - k] == m[|m| - 1];
    }
    forall k | 0 <= k < |s| ensures !Compatible(s[k..], m) {
      assert s[k..][0] in s;
    }
  }

  /** The next `n` reports are output that fills the buffer without making anything ready until it is stuck. */
  ghost predicate SticksIn(secrets: seq<Bytes>, m: Bytes, buffer: Bytes, script: seq<Report>, n: nat)
    decreases n
  {
    if n == 0 then Stuck(secrets, buffer)
    else
      && NEWLINE !in buffer && |buffer| <= CHUNK_BYTES
      && script != [] && script[0].Ok? && script[0].value.Stdout?
      && SticksIn(secrets, m, RedactAll(buffer + script[0].value.bytes, secrets, m), script[1..], n - 1)
  }

  /** A call hands on exactly its answer: the bytes of an output, or an end. */
  ghost predicate Hands(before: Run, after: Run, r: Option<Report>) {
    && after.gave == Given(before.gave.out + BytesOf(r, true), before.gave.err + BytesOf(r, false))
    && after.ends == before.ends + if r.None? || IsOutput(r.value) then [] else [r.value]
  }

  lemma {:induction false} SticksOnce(secrets: seq<Bytes>, m: Bytes, buffer: Bytes, script: seq<Report>, k: nat, n: nat)
    requires SticksIn(secrets, m, buffer, script, k) && SticksIn(secrets, m, buffer, script, n)
    ensures k == n
    decreases n
  {
    hide RedactAll;
    if k > 0 && n > 0 {
      SticksOnce(secrets, m, RedactAll(buffer + script[0].value.bytes, secrets, m), script[1..], k - 1, n - 1);
    }
  }

  /** What a call hands on of one stream. */
  function BytesOf(r: Option<Report>, stdout: bool): Bytes {
    if r.Some? && r.value.Ok? && (if stdout then r.value.value.Stdout? else r.value.value.Stderr?)
    then r.value.value.bytes else []
  }

  // ---------------------------------------------------------------- the run so far

  /** All reports read, all bytes and ends handed on, and the current life. */
  datatype Run = Run(seen: seq<Report>, gave: Given, ends: seq<Report>, past: Given, life: Life, exited: bool)

  const NOTHING: Run := Run([], Given([], []), [], Given([], []), NEWBORN, false)

  ghost predicate OutOk(secrets: seq<Bytes>, m: Bytes, run: Run, stdout: Bytes, queued: seq<ProcessEvent>) {
    Tracks(secrets, m, run.life.outSteps, Written(run.life.reports, true), run.life.out, stdout,
           Queued(queued, true), run.exited)
  }

  ghost predicate ErrOk(secrets: seq<Bytes>, m: Bytes, run: Run, stderr: Bytes, queued: seq<ProcessEvent>) {
    Tracks(secrets, m, run.life.errSteps, Written(run.life.reports, false), run.life.err, stderr,
           Queued(queued, false), run.exited)
  }

  ghost predicate LifeOk(secrets: seq<Bytes>, m: Bytes, run: Run) {
    && Placed(run.life, run.past, run.seen, run.gave, run.exited)
    && Finished(secrets, m, Earlier(run.seen), run.past)
  }

  ghost predicate QueueOk(run: Run, queued: seq<ProcessEvent>) {
    && (!run.exited ==> queued == [])
    && QueueShape(queued)
    && Ends(run.seen) == run.ends + Waiting(queued)
  }

  /** The wrapper's fields are where the run says. */
  ghost predicate RunOk(secrets: seq<Bytes>, m: Bytes, run: Run, stdout: Bytes, stderr: Bytes,
                        queued: seq<ProcessEvent>)
  {
    && OutOk(secrets, m, run, stdout, queued) && ErrOk(secrets, m, run, stderr, queued)
    && LifeOk(secrets, m, run) && QueueOk(run, queued)
  }

  lemma {:induction false} RunBegins(secrets: seq<Bytes>, m: Bytes)
    ensures RunOk(secrets, m, NOTHING, [], [], [])
  {
    PlacedAtBirth();
    hide Placed;
  }

  /** What is known of a life at any time, and once it is over. */
  lemma {:induction false} LifeDelivered(secrets: seq<Bytes>, m: Bytes, run: Run, stdout: Bytes, stderr: Bytes,
                                         queued: seq<ProcessEvent>)
    requires RunOk(secrets, m, run, stdout, stderr, queued)
    ensures Redactable(secrets, m) ==> Withheld(secrets, run.life.out) && Withheld(secrets, run.life.err)
    ensures Redactable(secrets, m) && Appending(secrets, m) ==>
      && run.life.out <= RedactAll(Written(run.life.reports, true), secrets, m)
      && run.life.err <= RedactAll(Written(run.life.reports, false), secrets, m)
    ensures run.exited && queued == [] && Redactable(secrets, m) && Appending(secrets, m) ==>
      && run.life.out == RedactAll(Written(run.life.reports, true), secrets, m)
      && run.life.err == RedactAll(Written(run.life.reports, false), secrets, m)
  {
    hide Tracks, LifeOk, QueueOk, Written, Redactable, Appending, Withheld, RedactAll;
    TracksDelivered(secrets, m, run.life.outSteps, Written(run.life.reports, true), run.life.out, stdout,
                    Queued(queued, true), run.exited);
    TracksDelivered(secrets, m, run.life.errSteps, Written(run.life.reports, false), run.life.err, stderr,
                    Queued(queued, false), run.exited);
  }

  /** The run in which the next report is output: it begins a new life if the process had exited. */
  function Awake(run: Run): Run {
    if run.exited then run.(past := run.gave, life := NEWBORN, exited := false) else run
  }

  lemma {:induction false} AwakeTracks(secrets: seq<Bytes>, m: Bytes, run: Run, stdout: Bytes, stderr: Bytes)
    requires OutOk(secrets, m, run, stdout, []) && ErrOk(secrets, m, run, stderr, [])
    ensures OutOk(secrets, m, Awake(run), stdout, []) && ErrOk(secrets, m, Awake(run), stderr, [])
  {
    if run.exited {
      TracksAnew(secrets, m, run.life.outSteps, Written(run.life.reports, true), run.life.out, stdout);
      TracksAnew(secrets, m, run.life.errSteps, Written(run.life.reports, false), run.life.err, stderr);
    }
    hide Tracks;
  }

  /** Another report of whatever kind, with the life it belongs to. */
  lemma {:induction false} LifeReports(secrets: seq<Bytes>, m: Bytes, run: Run, stdout: Bytes, stderr: Bytes, run': Run,
                                       r: Report)
    requires RunOk(secrets, m, run, stdout, stderr, [])
    requires var now := if IsOutput(r) then Awake(run) else run;
             && run'.seen == run.seen + [r] && run'.gave == run.gave && run'.past == now.past
             && run'.life.reports == now.life.reports + [r]
             && run'.life.out == now.life.out && run'.life.err == now.life.err
             && run'.exited == (now.exited || IsExit(r))
    ensures LifeOk(secrets, m, run')
  {
    hide Placed, Finished, OutOk, ErrOk, QueueOk, Redactable, Appending, Withheld, Written, RedactAll, Earlier, Lives;
    if run.exited && IsOutput(r) {
      LifeDelivered(secrets, m, run, stdout, stderr, []);
      FinishedMore(secrets, m, run.life, run.past, run.seen, run.gave);
      assert [] + [r] == [r];
      PlacedAnew(run.life, run'.life, run.past, run.seen, run.gave, r);
    } else {
      PlacedMore(run.life, run'.life, run.past, run.seen, run.gave, run.exited, r);
    }
  }

  /** The process wrote to one of its streams. */
  lemma {:induction false} RunReads(secrets: seq<Bytes>, m: Bytes, run: Run, stdout: Bytes, stderr: Bytes, r: Report)
    returns (run': Run)
    requires RunOk(secrets, m, run, stdout, stderr, []) && IsOutput(r)
    ensures run'.seen == run.seen + [r] && run'.gave == run.gave && run'.ends == run.ends
    ensures var bytes := r.value.bytes;
            if r.value.Stdout? then RunOk(secrets, m, run', RedactAll(stdout + bytes, secrets, m), stderr, [])
            else RunOk(secrets, m, run', stdout, RedactAll(stderr + bytes, secrets, m), [])
  {
    hide Tracks, LifeOk, Written, RedactAll, Ends;
    var bytes := r.value.bytes;
    var now := Awake(run);
    var life := now.life.(reports := now.life.reports + [r]);
    AwakeTracks(secrets, m, run, stdout, stderr);
    WrittenOne(now.life.reports, r, bytes);
    EndsMore(run.seen, r);
    if r.value.Stdout? {
      life := life.(outSteps := life.outSteps + [Read(bytes)]);
      TracksRead(secrets, m, now.life.outSteps, Written(now.life.reports, true), now.life.out, stdout, bytes);
    } else {
      life := life.(errSteps := life.errSteps + [Read(bytes)]);
      TracksRead(secrets, m, now.life.errSteps, Written(now.life.reports, false), now.life.err, stderr, bytes);
    }
    run' := now.(seen := run.seen + [r], life := life);
    LifeReports(secrets, m, run, stdout, stderr, run', r);
  }

  /** A read failed. */
  lemma {:induction false} RunFails(secrets: seq<Bytes>, m: Bytes, run: Run, stdout: Bytes, stderr: Bytes, r: Report)
    returns (run': Run)
    requires RunOk(secrets, m, run, stdout, stderr, []) && r.Err?
    ensures run'.seen == run.seen + [r] && run'.gave == run.gave && run'.ends == run.ends + [r]
    ensures RunOk(secrets, m, run', stdout, stderr, [])
  {
    hide Tracks, LifeOk, Written, RedactAll, Ends;
    WrittenSilent(run.life.reports, r);
    EndsMore(run.seen, r);
    run' := run.(seen := run.seen + [r], ends := run.ends + [r],
                 life := run.life.(reports := run.life.reports + [r]));
    LifeReports(secrets, m, run, stdout, stderr, run', r);
  }

  /** The process exited, and both buffers wait in the queue in front of the exit. */
  lemma {:induction false} RunExits(secrets: seq<Bytes>, m: Bytes, run: Run, stdout: Bytes, stderr: Bytes, r: Report,
                                    events: seq<ProcessEvent>)
    returns (run': Run)
    requires RunOk(secrets, m, run, stdout, stderr, []) && IsExit(r)
    requires QueueShape(events) && events != [] && events[|events| - 1] == r.value
    requires Queued(events, true) == if stdout == [] then [] else RedactAll(stdout, secrets, m)
    requires Queued(events, false) == if stderr == [] then [] else RedactAll(stderr, secrets, m)
    ensures run'.seen == run.seen + [r] && run'.gave == run.gave && run'.ends == run.ends && run'.exited
    ensures RunOk(secrets, m, run', [], [], events)
  {
    run' := run.(seen := run.seen + [r], life := run.life.(reports := run.life.reports + [r]), exited := true);
    LifeReports(secrets, m, run, stdout, stderr, run', r);
    hide OutOk, ErrOk, LifeOk, QueueOk, RedactAll, QueueShape, Queued;
    FlushTracks(secrets, m, run, run', stdout, stderr, r, events);
    ExitQueued(run, run', r, events);
  }

  lemma {:induction false} FlushTracks(secrets: seq<Bytes>, m: Bytes, run: Run, run': Run, stdout: Bytes, stderr: Bytes,
                                       r: Report, events: seq<ProcessEvent>)
    requires OutOk(secrets, m, run, stdout, []) && ErrOk(secrets, m, run, stderr, []) && IsExit(r)
    requires run'.life == run.life.(reports := run.life.reports + [r]) && run'.exited
    requires Queued(events, true) == if stdout == [] then [] else RedactAll(stdout, secrets, m)
    requires Queued(events, false) == if stderr == [] then [] else RedactAll(stderr, secrets, m)
    ensures OutOk(secrets, m, run', [], events) && ErrOk(secrets, m, run', [], events)
  {
    NothingQueued([]);
    hide Tracks, Written, RedactAll, Queued;
    WrittenSilent(run.life.reports, r);
    TracksFlush(secrets, m, run.life.outSteps, Written(run.life.reports, true), run.life.out, stdout, run.exited,
                Queued(events, true));
    TracksFlush(secrets, m, run.life.errSteps, Written(run.life.reports, false), run.life.err, stderr, run.exited,
                Queued(events, false));
  }

  lemma {:induction false} ExitQueued(run: Run, run': Run, r: Report, events: seq<ProcessEvent>)
    requires QueueOk(run, []) && IsExit(r) && run'.seen == run.seen + [r] && run'.ends == run.ends && run'.exited
    requires QueueShape(events) && events != [] && events[|events| - 1] == r.value
    ensures QueueOk(run', events)
  {
    hide Ends, QueueShape;
    EndsMore(run.seen, r);
    assert run.ends + [] == run.ends;
  }

  /** A line or chunk of one stream is handed on. */
  lemma {:induction false} RunGives(secrets: seq<Bytes>, m: Bytes, run: Run, stdout: Bytes, stderr: Bytes, out: bool,
                                    step: Step, bytes: Bytes, rest: Bytes)
    returns (run': Run)
    requires RunOk(secrets, m, run, stdout, stderr, [])
    requires Moves(secrets, m, if out then stdout else stderr, step, bytes, rest)
    ensures run'.seen == run.seen && run'.ends == run.ends && run'.exited == run.exited
    ensures if out then RunOk(secrets, m, run', rest, stderr, []) else RunOk(secrets, m, run', stdout, rest, [])
    ensures run'.gave == Given(run.gave.out + (if out then bytes else []), run.gave.err + (if out then [] else bytes))
  {
    NothingQueued([]);
    hide Tracks, Placed, Finished, Written, Ends, Queued, Moves;
    var life := run.life;
    assert life.out + [] == life.out && life.err + [] == life.err;
    assert run.gave.out + [] == run.gave.out && run.gave.err + [] == run.gave.err;
    if out {
      TracksMove(secrets, m, life.outSteps, Written(life.reports, true), life.out, stdout, step, bytes, rest,
                 run.exited);
      life := life.(outSteps := life.outSteps + [step], out := life.out + bytes);
      PlacedGave(run.life, life, run.past, run.seen, run.gave, run.exited, bytes, []);
    } else {
      TracksMove(secrets, m, life.errSteps, Written(life.reports, false), life.err, stderr, step, bytes, rest,
                 run.exited);
      life := life.(errSteps := life.errSteps + [step], err := life.err + bytes);
      PlacedGave(run.life, life, run.past, run.seen, run.gave, run.exited, [], bytes);
    }
    run' := run.(life := life, gave := Given(run.gave.out + (if out then bytes else []),
                                             run.gave.err + (if out then [] else bytes)));
  }

  /** A queued event is handed on. */
  lemma {:induction false} RunPops(secrets: seq<Bytes>, m: Bytes, run: Run, stdout: Bytes, stderr: Bytes,
                                   queued: seq<ProcessEvent>)
    returns (run': Run)
    requires RunOk(secrets, m, run, stdout, stderr, queued) && queued != []
    ensures run'.seen == run.seen && run'.exited && RunOk(secrets, m, run', stdout, stderr, queued[1..])
    ensures run'.gave == Given(run.gave.out + BytesOf(Some(Ok(queued[0])), true),
                               run.gave.err + BytesOf(Some(Ok(queued[0])), false))
    ensures run'.ends == run.ends + if queued[0].Exited? then [Ok(queued[0])] else []
    ensures if queued[0].Exited? then queued[1..] == [] else queued[0].bytes != []
  {
    hide Tracks, Placed, Finished, Written, Ends, Queued;
    TracksPop(secrets, m, run.life.outSteps, Written(run.life.reports, true), run.life.out, stdout, queued, true, true);
    TracksPop(secrets, m, run.life.errSteps, Written(run.life.reports, false), run.life.err, stderr, queued, true,
              false);
    var out, err := BytesOf(Some(Ok(queued[0])), true), BytesOf(Some(Ok(queued[0])), false);
    var life := run.life.(out := run.life.out + out, err := run.life.err + err);
    PlacedGave(run.life, life, run.past, run.seen, run.gave, true, out, err);
    run' := run.(life := life, gave := Given(run.gave.out + out, run.gave.err + err),
                 ends := run.ends + if queued[0].Exited? then [Ok(queued[0])] else []);
  }

  /** The process has exited in this life, and everything up to there is handed on. */
  predicate Settled(seen: seq<Report>, queued: seq<ProcessEvent>) {
    queued == [] && HasExit(LastLife(seen))
  }

  /** What is handed on so far is the front of what will be. */
  lemma {:induction false} FrontOfShot(secrets: seq<Bytes>, m: Bytes, run: Run)
    requires LifeOk(secrets, m, run) && Redactable(secrets, m) && Appending(secrets, m)
    requires run.life.out <= RedactAll(Written(run.life.reports, true), secrets, m)
    requires run.life.err <= RedactAll(Written(run.life.reports, false), secrets, m)
    ensures run.gave.out <= OneShot(Lives(run.seen), true, secrets, m)
    ensures run.gave.err <= OneShot(Lives(run.seen), false, secrets, m)
  {
    hide RedactAll, Redactable, Appending, Written, HasExit, Lives;
    forall stdout: bool
      ensures OneShot(Lives(run.seen), stdout, secrets, m)
              == OneShot(Earlier(run.seen), stdout, secrets, m)
                 + RedactAll(Written(LastLife(run.seen), stdout), secrets, m)
    {
    }
  }

  /** What the caller has been given over all lives. */
  lemma {:induction false} RunDelivered(secrets: seq<Bytes>, m: Bytes, run: Run, stdout: Bytes, stderr: Bytes,
                                        queued: seq<ProcessEvent>)
    requires RunOk(secrets, m, run, stdout, stderr, queued)
    ensures run.exited && queued == [] <==> Settled(run.seen, queued)
    ensures Redactable(secrets, m) && Appending(secrets, m) ==>
      && run.gave.out <= OneShot(Lives(run.seen), true, secrets, m)
      && run.gave.err <= OneShot(Lives(run.seen), false, secrets, m)
    ensures Settled(run.seen, queued) && Redactable(secrets, m) && Appending(secrets, m) ==>
      run.gave == Given(OneShot(Lives(run.seen), true, secrets, m), OneShot(Lives(run.seen), false, secrets, m))
    ensures Redactable(secrets, m) && (ExitIsFinal(run.seen) || AllCovered(secrets)) ==>
      Withheld(secrets, run.gave.out) && Withheld(secrets, run.gave.err)
  {
    var life := run.life;
    LifeDelivered(secrets, m, run, stdout, stderr, queued);
    if Redactable(secrets, m) && Appending(secrets, m) {
      FrontOfShot(secrets, m, run);
    }
    hide OutOk, ErrOk, QueueOk, RedactAll, Redactable, Appending, Written, Withheld, HasExit, LastLife, Bare;
    if run.exited && queued == [] {
      FinishedMore(secrets, m, life, run.past, run.seen, run.gave);
    }
    if Redactable(secrets, m) && ExitIsFinal(run.seen) {
      OnlyLife(life, run.past, run.seen, run.gave, run.exited);
    } else if Redactable(secrets, m) && AllCovered(secrets) {
      WithheldIsBare(secrets, life.out);
      WithheldIsBare(secrets, life.err);
      BareJoins(secrets, run.past.out, life.out);
      BareJoins(secrets, run.past.err, life.err);
      BareIsWithheld(secrets, run.gave.out);
      BareIsWithheld(secrets, run.gave.err);
    }
  }

  class RedactingProcess {
    const secrets: seq<Bytes>
    const marker: Bytes
    var script: seq<Report>
    var stdout: Bytes
    var stderr: Bytes
    var queued: seq<ProcessEvent>
    ghost var run: Run

    ghost predicate Valid()
      reads this
    {
      marker != [] && RunOk(secrets, marker, run, stdout, stderr, queued)
    }

    constructor (script: seq<Report>, secrets: seq<Bytes>)
      ensures Valid() && run == NOTHING && stdout == [] && stderr == [] && queued == []
      ensures this.script == script && this.secrets == secrets && marker == REDACTED
    {
      this.secrets, this.script, marker := secrets, script, REDACTED;
      stdout, stderr, queued, run := [], [], [], NOTHING;
      RunBegins(secrets, REDACTED);
    }

    /** The wrapped process wrote to its standard output. */
    method ReadStdout(bytes: Bytes)
      requires Valid() && queued == [] && script != [] && script[0] == Ok(Stdout(bytes))
      modifies `script, `stdout, `run
      ensures Valid() && script == old(script)[1..] && run.seen == old(run).seen + [old(script)[0]]
      ensures run.gave == old(run).gave && run.ends == old(run).ends
      ensures stdout == RedactAll(old(stdout) + bytes, secrets, marker)
    {
      hide RunOk, RedactAll;
      run := RunReads(secrets, marker, run, stdout, stderr, script[0]);
      stdout := RedactBytes(stdout + bytes, secrets, marker);
      script := script[1..];
    }

    /** The wrapped process wrote to its standard error. */
    method ReadStderr(bytes: Bytes)
      requires Valid() && queued == [] && script != [] && script[0] == Ok(Stderr(bytes))
      modifies `script, `stderr, `run
      ensures Valid() && script == old(script)[1..] && run.seen == old(run).seen + [old(script)[0]]
      ensures run.gave == old(run).gave && run.ends == old(run).ends
      ensures stderr == RedactAll(old(stderr) + bytes, secrets, marker)
    {
      hide RunOk, RedactAll;
      run := RunReads(secrets, marker, run, stdout, stderr, script[0]);
      stderr := RedactBytes(stderr + bytes, secrets, marker);
      script := script[1..];
    }

    /** A read that failed. */
    method SkipReport()
      requires Valid() && queued == [] && script != [] && script[0].Err?
      modifies `script, `run
      ensures Valid() && script == old(script)[1..] && run.seen == old(run).seen + [old(script)[0]]
      ensures run.gave == old(run).gave && run.ends == old(run).ends + [old(script)[0]]
    {
      hide RunOk;
      run := RunFails(secrets, marker, run, stdout, stderr, script[0]);
      script := script[1..];
    }

    /** Flushes both buffers in front of the exit event. */
    method QueueExit(exit: ExitStatus)
      requires Valid() && queued == [] && script != [] && script[0] == Ok(Exited(exit))
      modifies `script, `stdout, `stderr, `queued, `run
      ensures Valid() && run.exited && script == old(script)[1..] && run.seen == old(run).seen + [old(script)[0]]
      ensures run.gave == old(run).gave && run.ends == old(run).ends
      // what is left of standard output, then of standard error, then the exit
      ensures stdout == [] && stderr == []
      ensures queued ==
        (if old(stdout) == [] then [] else [Stdout(RedactAll(old(stdout), secrets, marker))])
        + (if old(stderr) == [] then [] else [Stderr(RedactAll(old(stderr), secrets, marker))])
        + [Exited(exit)]
    {
      hide RunOk, RedactAll, Queued, QueueShape;
      var events := FlushEvents(exit);
      run := RunExits(secrets, marker, run, stdout, stderr, script[0], events);
      script, queued, stdout, stderr := script[1..], events, [], [];
    }

    method FlushEvents(exit: ExitStatus) returns (events: seq<ProcessEvent>)
      requires marker != []
      ensures QueueShape(events) && events != [] && events[|events| - 1] == Exited(exit)
      ensures Queued(events, true) == if stdout == [] then [] else RedactAll(stdout, secrets, marker)
      ensures Queued(events, false) == if stderr == [] then [] else RedactAll(stderr, secrets, marker)
      ensures events ==
        (if stdout == [] then [] else [Stdout(RedactAll(stdout, secrets, marker))])
        + (if stderr == [] then [] else [Stderr(RedactAll(stderr, secrets, marker))])
        + [Exited(exit)]
    {
      var head, tail := [], [];
      if stdout != [] {
        var rest := RedactBytes(stdout, secrets, marker);
        NothingVanishes(stdout, secrets, marker);
        head := [Stdout(rest)];
      }
      if stderr != [] {
        var rest := RedactBytes(stderr, secrets, marker);
        NothingVanishes(stderr, secrets, marker);
        tail := [Stderr(rest)];
      }
      QueuedAfterFlush(head, tail, exit);
      events := head + tail + [Exited(exit)];
    }

    method PopQueued() returns (event: ProcessEvent)
      requires Valid() && queued != []
      modifies `queued, `run
      ensures Valid() && event == old(queued)[0] && queued == old(queued)[1..]
      ensures run.seen == old(run).seen && Hands(old(run), run, Some(Ok(event)))
      ensures if event.Exited? then run.exited && queued == [] else event.bytes != []
    {
      hide RunOk;
      run := RunPops(secrets, marker, run, stdout, stderr, queued);
      event, queued := queued[0], queued[1..];
    }

    /** Nothing is ready but an over-full standard output that is held back whole. */
    ghost predicate StdoutStuck()
      reads `queued, `stdout, `stderr
    {
      queued == [] && NEWLINE !in stderr && Stuck(secrets, stdout)
    }

    ghost predicate StderrStuck()
      reads `queued, `stdout, `stderr
    {
      queued == [] && NEWLINE !in stdout && |stdout| <= CHUNK_BYTES && Stuck(secrets, stderr)
    }

    /** Nothing is ready, and exactly the next `n` reads make standard output stuck. */
    ghost predicate SticksAfter(n: nat)
      reads `queued, `stdout, `stderr, `script
    {
      queued == [] && NEWLINE !in stderr && |stderr| <= CHUNK_BYTES && SticksIn(secrets, marker, stdout, script, n)
    }

    /** All that is still held for the caller. */
    function Held(): nat
      reads `queued, `stdout, `stderr
    {
      |stdout| + |stderr| + |queued|
    }

    /**
     The next event for the caller: queued events, then lines, then bounded chunks, then another read.
     None while the wrapped process has nothing more to report.
     */
    method NextEvent() returns (r: Option<Report>)
      requires Valid()
      modifies this
      ensures Valid()
      // no report is lost, made up or read twice, and exactly the answer is handed on
      ensures run.seen + script == old(run.seen + script) && Hands(old(run), run, r)
      ensures r.None? ==> script == [] && queued == [] && run.ends == Ends(run.seen)
      ensures r.Some? && IsExit(r.value) ==> Settled(run.seen, queued)
      // what is handed on is always the front of the lives redacted at once, one behind the other
      ensures Redactable(secrets, marker) && Appending(secrets, marker) ==>
        && run.gave.out <= OneShot(Lives(run.seen), true, secrets, marker)
        && run.gave.err <= OneShot(Lives(run.seen), false, secrets, marker)
      // and all of it whenever nothing is held back behind an exit
      ensures Settled(run.seen, queued) && Redactable(secrets, marker) && Appending(secrets, marker) ==>
        run.gave == Given(OneShot(Lives(run.seen), true, secrets, marker),
                          OneShot(Lives(run.seen), false, secrets, marker))
      // no secret is ever handed on, across all events, if exits are final or every secret holds a secret byte
      ensures Redactable(secrets, marker) && (ExitIsFinal(run.seen) || AllCovered(secrets)) ==>
        Withheld(secrets, run.gave.out) && Withheld(secrets, run.gave.err)
      // with secrets of bounded length an output event is never empty, and calls come to an end
      ensures r.Some? && Longest(secrets) <= CHUNK_BYTES + 1 ==> NotEmpty(r.value)
      ensures r.Some? && NotEmpty(r.value) ==>
        |script| < |old(script)| || (script == old(script) && Held() < old(Held()))
      // a stuck stream answers with nothing, reads nothing, and stays stuck
      ensures old(StdoutStuck()) ==> r == Some(Ok(Stdout([]))) && script == old(script) && StdoutStuck()
      ensures old(StderrStuck()) ==> r == Some(Ok(Stderr([]))) && script == old(script) && StderrStuck()
      ensures forall n: nat | old(SticksAfter(n)) ::
        n <= |old(script)| && r == Some(Ok(Stdout([]))) && script == old(script)[n..] && StdoutStuck()
    {
      hide OutOk, ErrOk, LifeOk, RedactAll, Redactable, Appending, Withheld, Ends, Hands;
      hide StdoutStuck, StderrStuck, SticksAfter;
      r := Pull();
      RunDelivered(secrets, marker, run, stdout, stderr, queued);
      assert r.None? ==> run.ends + [] == run.ends;
    }

    /** A queued event, else a whole line, else a bounded chunk. */
    method TakeReady() returns (r: Option<ProcessEvent>)
      requires Valid()
      modifies `queued, `stdout, `stderr, `run
      ensures Valid()
      ensures r.None? <==>
        && old(queued) == [] && NEWLINE !in old(stdout) && NEWLINE !in old(stderr)
        && |old(stdout)| <= CHUNK_BYTES && |old(stderr)| <= CHUNK_BYTES
      ensures r.None? ==> queued == []
      // in this order: a queued event, a line of either stream, a chunk of either stream
      ensures old(queued) != [] ==> r == Some(old(queued)[0])
      ensures old(queued) == [] ==>
        (r.Some? && r.value.Stdout? <==>
          NEWLINE in old(stdout) || (NEWLINE !in old(stderr) && |old(stdout)| > CHUNK_BYTES))
      ensures old(queued) == [] ==>
        (r.Some? && r.value.Stderr? <==>
          NEWLINE !in old(stdout) && (NEWLINE in old(stderr) || (|old(stdout)| <= CHUNK_BYTES < |old(stderr)|)))
      ensures run.seen == old(run).seen && Hands(old(run), run, if r.None? then None else Some(Ok(r.value)))
      ensures r.Some? && r.value.Exited? ==> run.exited && queued == []
      ensures r.Some? && (r.value.Exited? || r.value.bytes != []) ==> Held() < old(Held())
      ensures r.Some? && !r.value.Exited? && Longest(secrets) <= CHUNK_BYTES + 1 ==> r.value.bytes != []
      ensures r.None? ==> stdout == old(stdout) && stderr == old(stderr)
      ensures old(StdoutStuck()) ==> r == Some(Stdout([])) && StdoutStuck()
      ensures old(StderrStuck()) ==> r == Some(Stderr([])) && StderrStuck()
      ensures forall n: nat | old(SticksAfter(n)) ::
        if n == 0 then r == Some(Stdout([])) && StdoutStuck() else r.None? && SticksAfter(n) && script != []
    {
      hide RunOk, Hands, RedactAll;
      NothingHanded(run);
      if queued != [] {
        var event := PopQueued();
        return Some(event);
      }
      r := TakeStdout(true);
      if r.None? {
        r := TakeStderr(true);
      }
      if r.None? {
        r := TakeStdout(false);
      }
      if r.None? {
        r := TakeStderr(false);
      }
    }

    method TakeStdout(line: bool) returns (r: Option<ProcessEvent>)
      requires Valid() && queued == []
      modifies `stdout, `run
      ensures Valid()
      ensures r.None? ==> run == old(run) && stdout == old(stdout)
      ensures r.None? <==> if line then NEWLINE !in old(stdout) else |old(stdout)| <= CHUNK_BYTES
      ensures r.Some? ==>
        r.value.Stdout? && run.seen == old(run).seen && Hands(old(run), run, Some(Ok(r.value)))
      ensures r.Some? && r.value.bytes != [] ==> |stdout| < |old(stdout)|
      ensures r.Some? && Longest(secrets) <= CHUNK_BYTES + 1 ==> r.value.bytes != []
      ensures r.Some? && !line && |old(stdout)| <= Retained(secrets) ==> r.value.bytes == [] && stdout == old(stdout)
    {
      hide RunOk, Moves;
      var bytes, rest;
      if line {
        bytes, rest := TakeLine(stdout, secrets, marker);
      } else {
        bytes, rest := TakeBoundedChunk(stdout, secrets, marker);
      }
      if bytes.None? {
        return None;
      }
      run := RunGives(secrets, marker, run, stdout, stderr, true, if line then Line else Chunk, bytes.value, rest);
      stdout := rest;
      return Some(Stdout(bytes.value));
    }

    method TakeStderr(line: bool) returns (r: Option<ProcessEvent>)
      requires Valid() && queued == []
      modifies `stderr, `run
      ensures Valid()
      ensures r.None? ==> run == old(run) && stderr == old(stderr)
      ensures r.None? <==> if line then NEWLINE !in old(stderr) else |old(stderr)| <= CHUNK_BYTES
      ensures r.Some? ==>
        r.value.Stderr? && run.seen == old(run).seen && Hands(old(run), run, Some(Ok(r.value)))
      ensures r.Some? && r.value.bytes != [] ==> |stderr| < |old(stderr)|
      ensures r.Some? && Longest(secrets) <= CHUNK_BYTES + 1 ==> r.value.bytes != []
      ensures r.Some? && !line && |old(stderr)| <= Retained(secrets) ==> r.value.bytes == [] && stderr == old(stderr)
    {
      hide RunOk, Moves;
      var bytes, rest;
      if line {
        bytes, rest := TakeLine(stderr, secrets, marker);
      } else {
        bytes, rest := TakeBoundedChunk(stderr, secrets, marker);
      }
      if bytes.None? {
        return None;
      }
      run := RunGives(secrets, marker, run, stdout, stderr, false, if line then Line else Chunk, bytes.value, rest);
      stderr := rest;
      return Some(Stderr(bytes.value));
    }

    /** Hands on what is ready, else reads on until something is. */
    method Pull() returns (r: Option<Report>)
      requires Valid()
      modifies this
      ensures Valid() && run.seen + script == old(run.seen + script) && Hands(old(run), run, r)
      ensures r.None? ==> script == [] && queued == []
      ensures r.Some? && IsExit(r.value) ==> run.exited && queued == []
      ensures r.Some? && Longest(secrets) <= CHUNK_BYTES + 1 ==> NotEmpty(r.value)
      ensures r.Some? && NotEmpty(r.value) ==>
        |script| < |old(script)| || (script == old(script) && Held() < old(Held()))
      ensures old(StdoutStuck()) ==> r == Some(Ok(Stdout([]))) && script == old(script) && StdoutStuck()
      ensures old(StderrStuck()) ==> r == Some(Ok(Stderr([]))) && script == old(script) && StderrStuck()
      ensures forall n: nat | old(SticksAfter(n)) ::
        n <= |old(script)| && r == Some(Ok(Stdout([]))) && script == old(script)[n..] && StdoutStuck()
    {
      hide RunOk, StdoutStuck, StderrStuck, SticksAfter, Hands;
      ghost var due := Due();
      ghost var taken := 0;
      NothingHanded(run);
      while true
        invariant Valid() && Hands(old(run), run, None)
        invariant taken <= |old(script)| && script == old(script)[taken..]
        invariant run.seen + script == old(run.seen + script)
        invariant taken == 0 ==> stdout == old(stdout) && stderr == old(stderr) && queued == old(queued)
        invariant taken == 0 ==>
          (old(StdoutStuck()) ==> StdoutStuck()) && (old(StderrStuck()) ==> StderrStuck())
        invariant taken > 0 ==> !old(StdoutStuck()) && !old(StderrStuck())
        invariant due.Some? ==> taken <= due.value && SticksAfter(due.value - taken)
        decreases |script|
      {
        ghost var before := run;
        ghost var left: nat := if due.Some? then due.value - taken else 0;
        assert due.Some? ==> SticksAfter(left);
        var event := TakeReady();
        assert due.Some? ==> if left == 0 then event.Some? else event.None? && script != [];
        HandsOn(old(run), before, run, if event.None? then None else Some(Ok(event.value)));
        if event.Some? {
          return Some(Ok(event.value));
        }
        if script == [] {
          return None;
        }
        before := run;
        var r1 := script[0];
        ReadOn();
        HandsOn(old(run), before, run, if r1.Err? then Some(r1) else None);
        if r1.Err? {
          return Some(r1);
        }
        taken := taken + 1;
      }
    }

    /** The number of reads after which standard output will be stuck, if it will be. */
    lemma {:induction false} Due() returns (due: Option<nat>)
      ensures due.Some? ==> SticksAfter(due.value)
      ensures forall n: nat | SticksAfter(n) :: due == Some(n)
    {
      due := None;
      if n: nat :| SticksAfter(n) {
        due := Some(n);
        forall k: nat | SticksAfter(k) ensures k == n {
          SticksOnce(secrets, marker, stdout, script, k, n);
        }
      }
    }

    /** One read, when nothing is ready. */
    method ReadOn()
      requires Valid() && queued == [] && script != []
      modifies this
      ensures Valid() && script == old(script)[1..] && run.seen == old(run).seen + [old(script)[0]]
      ensures Hands(old(run), run, if old(script)[0].Err? then Some(old(script)[0]) else None)
      ensures forall n: nat | n > 0 && old(SticksAfter(n)) :: SticksAfter(n - 1) && old(script)[0].Ok?
    {
      hide RedactAll, RunOk, Stuck;
      match script[0]
      case Err(error) => SkipReport();
      case Ok(Stdout(read)) => ReadStdout(read);
      case Ok(Stderr(read)) => ReadStderr(read);
      case Ok(Exited(exit)) => QueueExit(exit);
    }
  }

  /** Handing on nothing first makes no difference. */
  lemma {:induction false} HandsOn(a: Run, b: Run, c: Run, r: Option<Report>)
    requires Hands(a, b, None) && Hands(b, c, r)
    ensures Hands(a, c, r)
  {
  }

  lemma {:induction false} NothingHanded(run: Run)
    ensures Hands(run, run, None)
  {
  }

  lemma {:induction false} QueuedAfterFlush(head: seq<ProcessEvent>, tail: seq<ProcessEvent>, exit: ExitStatus)
    requires |head| <= 1 && |tail| <= 1
    requires forall i | 0 <= i < |head| :: head[i].Stdout?
    requires forall i | 0 <= i < |tail| :: tail[i].Stderr?
    ensures Queued(head + tail + [Exited(exit)], true) == if head == [] then [] else head[0].bytes
    ensures Queued(head + tail + [Exited(exit)], false) == if tail == [] then [] else tail[0].bytes
  {
    var last := [Exited(exit)];
    QueuedPrefix(head, tail + last, true);
    QueuedPrefix(head, tail + last, false);
    QueuedPrefix(tail, last, true);
    QueuedPrefix(tail, last, false);
    QueuedPrefix(last, [], true);
    QueuedPrefix(last, [], false);
    assert head + tail + last == head + (tail + last) && last + [] == last;
  }

  lemma {:induction false} QueuedPrefix(first: seq<ProcessEvent>, rest: seq<ProcessEvent>, stdout: bool)
    requires |first| <= 1
    ensures Queued(first + rest, stdout)
            == (if first != [] && ((stdout && first[0].Stdout?) || (!stdout && first[0].Stderr?))
                then first[0].bytes else [])
               + Queued(rest, stdout)
  {
    if first == [] {
      assert first + rest == rest;
      assert [] + Queued(rest, stdout) == Queued(rest, stdout);
    } else {
      assert (first + rest)[1..] == rest;
    }
  }
}
