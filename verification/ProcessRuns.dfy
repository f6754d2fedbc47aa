/**
 Whole runs of the redacting wrapper as its caller sees them: from a fresh wrapper and the script of
 the wrapped process to the answers of all calls. Nothing here speaks of the wrapper's own state.
 */
module ProcessRuns {
  import opened Redaction
  import opened RedactingStream
  import opened Process
  import opened Reports
  import opened RedactingProcesses

  /** The answers, without the calls that were still waiting. */
  function Answered(answers: seq<Option<Report>>): seq<Report> {
    if answers == [] then []
    else
      var r := answers[|answers| - 1];
      Answered(answers[..|answers| - 1]) + if r.None? then [] else [r.value]
  }

  lemma {:induction false} AnsweredMore(answers: seq<Option<Report>>, r: Option<Report>)
    ensures Answered(answers + [r]) == if r.None? then Answered(answers) else Answered(answers) + [r.value]
  {
    assert (answers + [r])[..|answers|] == answers;
  }

  /** What the run handed on is what the answers hold. */
  ghost predicate Matches(run: Run, answers: seq<Report>) {
    run.gave == Given(Written(answers, true), Written(answers, false)) && run.ends == Ends(answers)
  }

  lemma {:induction false} MatchesMore(run: Run, run': Run, answers: seq<Report>, r: Option<Report>)
    requires Matches(run, answers) && Hands(run, run', r)
    ensures Matches(run', if r.None? then answers else answers + [r.value])
  {
    if r.Some? {
      WrittenMore(answers, r.value, true);
      WrittenMore(answers, r.value, false);
      EndsMore(answers, r.value);
      hide Written, Ends;
    }
  }

  /** Every life of the script redacted at once, on both streams. */
  ghost predicate IsOneShot(answers: seq<Report>, script: seq<Report>, secrets: seq<Bytes>) {
    && Written(answers, true) == OneShot(Lives(script), true, secrets, REDACTED)
    && Written(answers, false) == OneShot(Lives(script), false, secrets, REDACTED)
  }

  /** The answers so far are a front of that. */
  ghost predicate IsFrontOfShot(answers: seq<Report>, script: seq<Report>, secrets: seq<Bytes>) {
    && Written(answers, true) <= OneShot(Lives(script), true, secrets, REDACTED)
    && Written(answers, false) <= OneShot(Lives(script), false, secrets, REDACTED)
  }

  ghost predicate HoldsNone(answers: seq<Report>, secrets: seq<Bytes>) {
    Withheld(secrets, Written(answers, true)) && Withheld(secrets, Written(answers, false))
  }

  /** A process whose exits are final is redacted as one text. */
  lemma {:induction false} OneShotOfOneLife(script: seq<Report>, stdout: bool, secrets: seq<Bytes>, m: Bytes)
    requires ExitIsFinal(script)
    ensures OneShot(Lives(script), stdout, secrets, m) == RedactAll(Written(script, stdout), secrets, m)
  {
    OneLife(script);
    hide RedactAll, Written;
    assert Lives(script) == [script];
    assert Lives(script)[..0] == [];
    assert OneShot([], stdout, secrets, m) == [];
    var all := RedactAll(Written(script, stdout), secrets, m);
    assert [] + all == all;
  }

  /**
   Any number of calls on any process. `rest` is what has not been read. All answers together hold no
   secret and are always the front of the one-shot redaction of what was read, all of it whenever the
   last answer is an exit; a call waits only when there is nothing left to read.
   */
  method Calls(script: seq<Report>, secrets: seq<Bytes>, calls: nat)
    returns (answers: seq<Option<Report>>, rest: seq<Report>)
    ensures |answers| == calls && |rest| <= |script| && rest == script[|script| - |rest|..]
    ensures Redactable(secrets, REDACTED) && (ExitIsFinal(script) || AllCovered(secrets)) ==>
      HoldsNone(Answered(answers), secrets)
    ensures Redactable(secrets, REDACTED) && Appending(secrets, REDACTED) ==>
      IsFrontOfShot(Answered(answers), script[..|script| - |rest|], secrets)
    ensures calls > 0 && answers[calls - 1].None? ==> rest == [] && Ends(Answered(answers)) == Ends(script)
    ensures Longest(secrets) <= CHUNK_BYTES + 1 ==>
      forall i | 0 <= i < calls && answers[i].Some? :: NotEmpty(answers[i].value)
    ensures calls > 0 && answers[calls - 1].Some? && IsExit(answers[calls - 1].value)
            && Redactable(secrets, REDACTED) && Appending(secrets, REDACTED) ==>
      && IsOneShot(Answered(answers), script[..|script| - |rest|], secrets)
      && (ExitIsFinal(script) ==>
            && Written(Answered(answers), true)
               == RedactAll(Written(script[..|script| - |rest|], true), secrets, REDACTED)
            && Written(Answered(answers), false)
               == RedactAll(Written(script[..|script| - |rest|], false), secrets, REDACTED))
  {
    hide *;
    var p := new RedactingProcess(script, secrets);
    answers := [];
    CallsBegin(script, secrets);
    while |answers| < calls
      invariant |answers| <= calls && fresh(p) && p.Valid() && p.secrets == secrets && p.marker == REDACTED
      invariant p.run.seen + p.script == script && Matches(p.run, Answered(answers))
      invariant CallsStand(script, secrets, answers, p.run, p.script)
      invariant Longest(secrets) <= CHUNK_BYTES + 1 ==>
        forall i | 0 <= i < |answers| && answers[i].Some? :: NotEmpty(answers[i].value)
    {
      ghost var before := p.run;
      var r := p.NextEvent();
      AnsweredMore(answers, r);
      MatchesMore(before, p.run, Answered(answers), r);
      answers := answers + [r];
      CallsKeep(script, secrets, answers, p.run, p.script, p.queued);
    }
    rest := p.script;
    CallsEnd(script, secrets, answers, p.run, p.script);
  }

  /** The guarantees of the last call. */
  ghost predicate CallsStand(script: seq<Report>, secrets: seq<Bytes>, answers: seq<Option<Report>>, run: Run,
                             rest: seq<Report>)
  {
    && (Redactable(secrets, REDACTED) && Appending(secrets, REDACTED) ==>
          && run.gave.out <= OneShot(Lives(run.seen), true, secrets, REDACTED)
          && run.gave.err <= OneShot(Lives(run.seen), false, secrets, REDACTED))
    && (answers != [] && answers[|answers| - 1].None? ==> rest == [] && run.ends == Ends(run.seen))
    && (Redactable(secrets, REDACTED) && (ExitIsFinal(script) || AllCovered(secrets)) ==>
          Withheld(secrets, run.gave.out) && Withheld(secrets, run.gave.err))
    && (answers != [] && answers[|answers| - 1].Some? && IsExit(answers[|answers| - 1].value)
        && Redactable(secrets, REDACTED) && Appending(secrets, REDACTED) ==>
          run.gave == Given(OneShot(Lives(run.seen), true, secrets, REDACTED),
                            OneShot(Lives(run.seen), false, secrets, REDACTED)))
  }

  lemma {:induction false} CallsBegin(script: seq<Report>, secrets: seq<Bytes>)
    ensures CallsStand(script, secrets, [], NOTHING, script) && Matches(NOTHING, Answered([]))
    ensures NOTHING.seen + script == script
  {
  }

  lemma {:induction false} CallsKeep(script: seq<Report>, secrets: seq<Bytes>, answers: seq<Option<Report>>, run: Run,
                                     rest: seq<Report>, queued: seq<ProcessEvent>)
    requires run.seen + rest == script && answers != []
    requires answers[|answers| - 1].None? ==> rest == [] && run.ends == Ends(run.seen)
    requires Redactable(secrets, REDACTED) && Appending(secrets, REDACTED) ==>
      && run.gave.out <= OneShot(Lives(run.seen), true, secrets, REDACTED)
      && run.gave.err <= OneShot(Lives(run.seen), false, secrets, REDACTED)
    requires var r := answers[|answers| - 1]; r.Some? && IsExit(r.value) ==> Settled(run.seen, queued)
    requires Settled(run.seen, queued) && Redactable(secrets, REDACTED) && Appending(secrets, REDACTED) ==>
      run.gave == Given(OneShot(Lives(run.seen), true, secrets, REDACTED),
                        OneShot(Lives(run.seen), false, secrets, REDACTED))
    requires Redactable(secrets, REDACTED) && (ExitIsFinal(run.seen) || AllCovered(secrets)) ==>
      Withheld(secrets, run.gave.out) && Withheld(secrets, run.gave.err)
    ensures CallsStand(script, secrets, answers, run, rest)
  {
    hide Redactable, Appending, AllCovered, Withheld, OneShot, Settled;
    if ExitIsFinal(script) {
      FinalPrefix(script, |run.seen|);
      assert script[..|run.seen|] == run.seen;
    }
  }

  lemma {:induction false} CallsEnd(script: seq<Report>, secrets: seq<Bytes>, answers: seq<Option<Report>>, run: Run,
                                    rest: seq<Report>)
    requires run.seen + rest == script && Matches(run, Answered(answers))
    requires CallsStand(script, secrets, answers, run, rest)
    ensures |rest| <= |script| && rest == script[|script| - |rest|..] && script[..|script| - |rest|] == run.seen
    ensures Redactable(secrets, REDACTED) && (ExitIsFinal(script) || AllCovered(secrets)) ==>
      HoldsNone(Answered(answers), secrets)
    ensures Redactable(secrets, REDACTED) && Appending(secrets, REDACTED) ==>
      IsFrontOfShot(Answered(answers), run.seen, secrets)
    ensures answers != [] && answers[|answers| - 1].None? ==> rest == [] && Ends(Answered(answers)) == Ends(script)
    ensures answers != [] && answers[|answers| - 1].Some? && IsExit(answers[|answers| - 1].value)
            && Redactable(secrets, REDACTED) && Appending(secrets, REDACTED) ==>
      && IsOneShot(Answered(answers), run.seen, secrets)
      && (ExitIsFinal(script) ==>
            && Written(Answered(answers), true) == RedactAll(Written(run.seen, true), secrets, REDACTED)
            && Written(Answered(answers), false) == RedactAll(Written(run.seen, false), secrets, REDACTED))
  {
    hide Redactable, Appending, AllCovered, Withheld, OneShot, Written, RedactAll, Lives;
    assert script[..|run.seen|] == run.seen && run.seen + [] == run.seen;
    if ExitIsFinal(script) {
      FinalPrefix(script, |run.seen|);
      OneShotOfOneLife(run.seen, true, secrets, REDACTED);
      OneShotOfOneLife(run.seen, false, secrets, REDACTED);
    }
  }

  // ---------------------------------------------------------------- reading a process to its end

  lemma {:induction false} MatchesNothing(script: seq<Report>)
    ensures Matches(NOTHING, []) && NOTHING.seen + script == script
  {
  }

  lemma {:induction false} AllRead(script: seq<Report>, secrets: seq<Bytes>, answers: seq<Report>, run: Run,
                                   queued: seq<ProcessEvent>)
    requires run.seen == script && queued == [] && Matches(run, answers) && run.ends == Ends(script)
    requires Redactable(secrets, REDACTED) && Appending(secrets, REDACTED) ==>
      && run.gave.out <= OneShot(Lives(run.seen), true, secrets, REDACTED)
      && run.gave.err <= OneShot(Lives(run.seen), false, secrets, REDACTED)
    requires Settled(run.seen, queued) && Redactable(secrets, REDACTED) && Appending(secrets, REDACTED) ==>
      run.gave == Given(OneShot(Lives(run.seen), true, secrets, REDACTED),
                        OneShot(Lives(run.seen), false, secrets, REDACTED))
    requires Redactable(secrets, REDACTED) && (ExitIsFinal(run.seen) || AllCovered(secrets)) ==>
      Withheld(secrets, run.gave.out) && Withheld(secrets, run.gave.err)
    ensures Ends(answers) == Ends(script)
    ensures Redactable(secrets, REDACTED) && (ExitIsFinal(script) || AllCovered(secrets)) ==>
      HoldsNone(answers, secrets)
    ensures Redactable(secrets, REDACTED) && Appending(secrets, REDACTED) ==> IsFrontOfShot(answers, script, secrets)
    ensures script != [] && IsExit(script[|script| - 1])
            && Redactable(secrets, REDACTED) && Appending(secrets, REDACTED) ==>
      IsOneShot(answers, script, secrets)
  {
    hide Redactable, Appending, AllCovered, Withheld, OneShot, Written, Lives, LastLife, HasExit, Ends;
    if script != [] && IsExit(script[|script| - 1]) {
      EndsExited(script);
    }
  }

  /**
   Calls until the process has nothing more to report, which ends for secrets of bounded length. The
   caller sees every exit and failure in order, no empty output, and at an exit the one-shot redaction.
   */
  method ReadOut(script: seq<Report>, secrets: seq<Bytes>) returns (answers: seq<Report>)
    requires Longest(secrets) <= CHUNK_BYTES + 1
    ensures Ends(answers) == Ends(script)
    ensures forall i | 0 <= i < |answers| :: NotEmpty(answers[i])
    ensures Redactable(secrets, REDACTED) && (ExitIsFinal(script) || AllCovered(secrets)) ==>
      HoldsNone(answers, secrets)
    ensures Redactable(secrets, REDACTED) && Appending(secrets, REDACTED) ==> IsFrontOfShot(answers, script, secrets)
    ensures script != [] && IsExit(script[|script| - 1])
            && Redactable(secrets, REDACTED) && Appending(secrets, REDACTED) ==>
      IsOneShot(answers, script, secrets)
  {
    hide *;
    var p := new RedactingProcess(script, secrets);
    answers := [];
    MatchesNothing(script);
    var r := p.NextEvent();
    MatchesMore(NOTHING, p.run, answers, r);
    while r.Some?
      invariant fresh(p) && p.Valid() && p.secrets == secrets && p.marker == REDACTED
      invariant p.run.seen + p.script == script
      invariant Matches(p.run, if r.None? then answers else answers + [r.value])
      invariant r.None? ==> p.script == [] && p.queued == [] && p.run.ends == Ends(p.run.seen)
      invariant r.Some? ==> NotEmpty(r.value)
      invariant forall i | 0 <= i < |answers| :: NotEmpty(answers[i])
      invariant Redactable(secrets, REDACTED) && Appending(secrets, REDACTED) ==>
        && p.run.gave.out <= OneShot(Lives(p.run.seen), true, secrets, REDACTED)
        && p.run.gave.err <= OneShot(Lives(p.run.seen), false, secrets, REDACTED)
      invariant Settled(p.run.seen, p.queued) && Redactable(secrets, REDACTED) && Appending(secrets, REDACTED) ==>
        p.run.gave == Given(OneShot(Lives(p.run.seen), true, secrets, REDACTED),
                            OneShot(Lives(p.run.seen), false, secrets, REDACTED))
      invariant Redactable(secrets, REDACTED) && (ExitIsFinal(p.run.seen) || AllCovered(secrets)) ==>
        Withheld(secrets, p.run.gave.out) && Withheld(secrets, p.run.gave.err)
      decreases r.Some?, |p.script|, p.Held()
    {
      answers := answers + [r.value];
      ghost var before := p.run;
      r := p.NextEvent();
      MatchesMore(before, p.run, answers, r);
    }
    assert p.run.seen + [] == p.run.seen;
    AllRead(script, secrets, answers, p.run, p.queued);
  }

  /**
   A secret that an exit cuts in two is handed on in the clear: the first piece is flushed at the exit,
   and nothing is left of it when the second arrives.
   */
  method ExitCutLeaks(s: Bytes, n: nat, exit: ExitStatus) returns (answers: seq<Report>)
    requires MarkerFree(s, REDACTED) && OneLine(s) && 0 < n < |s| <= CHUNK_BYTES + 1
    ensures Written(answers, true) == s
  {
    hide *;
    CutShot(s, n, exit);
    OneSecretAppends(s);
    answers := ReadOut(CutScript(s[..n], s[n..], exit), [s]);
    ShotWritten(answers, s, n, exit);
  }

  function CutScript(a: Bytes, b: Bytes, exit: ExitStatus): seq<Report> {
    [Ok(Stdout(a)), Ok(Exited(exit)), Ok(Stdout(b)), Ok(Exited(exit))]
  }

  lemma {:induction false} ShotWritten(answers: seq<Report>, s: Bytes, n: nat, exit: ExitStatus)
    requires n <= |s| && IsOneShot(answers, CutScript(s[..n], s[n..], exit), [s])
    ensures Written(answers, true) == OneShot(Lives(CutScript(s[..n], s[n..], exit)), true, [s], REDACTED)
  {
  }

  lemma {:induction false} OneSecretAppends(s: Bytes)
    requires MarkerFree(s, REDACTED) && OneLine(s)
    ensures Redactable([s], REDACTED) && Appending([s], REDACTED) && Longest([s]) == |s|
  {
    IndependentAppends([s], REDACTED);
    assert [s][1..] == [];
  }

  lemma {:induction false} CutShot(s: Bytes, n: nat, exit: ExitStatus)
    requires 0 < n < |s|
    ensures var script := CutScript(s[..n], s[n..], exit);
            script != [] && IsExit(script[|script| - 1]) && OneShot(Lives(script), true, [s], REDACTED) == s
  {
    var a, b := s[..n], s[n..];
    var x: Report, y: Report, e: Report := Ok(Stdout(a)), Ok(Stdout(b)), Ok(Exited(exit));
    LivesOfTwo(x, y, e);
    LifeShot(a, e, s);
    LifeShot(b, e, s);
    hide RedactAll, Written, Lives;
    assert [[x, e], [y, e]][..1] == [[x, e]] && [[x, e]][..0] == [];
    assert OneShot([], true, [s], REDACTED) == [] && [] + a == a;
    assert OneShot([[x, e]], true, [s], REDACTED) == a && a + b == s;
  }

  lemma {:induction false} LivesOfTwo(x: Report, y: Report, e: Report)
    requires IsOutput(x) && IsOutput(y) && IsExit(e)
    ensures Lives([x, e, y, e]) == [[x, e], [y, e]]
  {
    hide Lives, LastLife, Earlier;
    assert [x, e][1] == e && HasExit([x, e]);
    OneLife([x, e]);
    LivesMore([x, e], y);
    assert [x, e] + [y] == [x, e, y];
    LivesWhole([x, e]);
    assert [] + [[x, e]] == [[x, e]];
    LastExit([x, e], y, e);
    assert [x, e, y] + [e] == [x, e, y, e];
    LivesWhole([x, e, y, e]);
  }

  lemma {:induction false} LastExit(reports: seq<Report>, y: Report, e: Report)
    requires IsExit(e) && LastLife(reports + [y]) == [y]
    ensures LastLife(reports + [y] + [e]) == [y, e] && Earlier(reports + [y] + [e]) == Earlier(reports + [y])
  {
    hide Lives, LastLife, Earlier;
    LivesMore(reports + [y], e);
    assert [y] + [e] == [y, e];
  }

  lemma {:induction false} LifeShot(a: Bytes, e: Report, s: Bytes)
    requires IsExit(e) && |a| < |s|
    ensures RedactAll(Written([Ok(Stdout(a)), e], true), [s], REDACTED) == a
  {
    var x: Report := Ok(Stdout(a));
    ShortPiece(a, s, REDACTED);
    hide RedactAll;
    assert Written([], true) == [];
    WrittenMore([], x, true);
    WrittenMore([x], e, true);
    hide Written;
    assert [x, e] == [x] + [e] && [x] == [] + [x];
    assert [] + a == a && a + [] == a;
  }

  // ---------------------------------------------------------------- a secret that is too long

  // what one read of a supervised process reports at most
  const READ_BYTES: nat := 4096

  /** `n` bytes in reads of the size the supervisor makes. */
  function FillReads(n: nat, m: Bytes): (reports: seq<Report>)
    requires m != []
    ensures forall i | 0 <= i < |reports| :: IsOutput(reports[i]) && |reports[i].value.bytes| <= READ_BYTES
  {
    if n == 0 then []
    else
      var k := if n <= READ_BYTES then n else READ_BYTES;
      [Ok(Stdout(Fill(k, m)))] + FillReads(n - k, m)
  }

  lemma {:induction false} FillJoins(a: nat, b: nat, m: Bytes)
    requires m != []
    ensures Fill(a, m) + Fill(b, m) == Fill(a + b, m)
  {
    hide Fill;
  }

  /** A buffer that is `left` bytes short of too much gets stuck on exactly these reads. */
  lemma {:induction false} FillSticks(left: nat, secrets: seq<Bytes>, m: Bytes, rest: seq<Report>)
    requires AllMarkerFree(secrets, m) && m != [] && NEWLINE !in m && Longest(secrets) > CHUNK_BYTES + 1
    requires left <= CHUNK_BYTES + 1
    ensures SticksIn(secrets, m, Fill(CHUNK_BYTES + 1 - left, m), FillReads(left, m) + rest, |FillReads(left, m)|)
    decreases left
  {
    hide Fill, RedactAll, AllMarkerFree;
    if left > 0 {
      var k := if left <= READ_BYTES then left else READ_BYTES;
      var have := CHUNK_BYTES + 1 - left;
      var reports, more := FillReads(left, m) + rest, FillReads(left - k, m) + rest;
      FillSticks(left - k, secrets, m, rest);
      FillJoins(have, k, m);
      FillKept(have + k, secrets, m);
      assert reports[0] == Ok(Stdout(Fill(k, m))) && reports[1..] == more;
    }
  }

  /**
   A caller's run with a secret that is too long: after five reads of the usual size, whatever else the
   process writes, every call is answered with nothing and the rest is never read.
   */
  method LongSecretStalls(secrets: seq<Bytes>, rest: seq<Report>, calls: nat)
    returns (p: RedactingProcess, answers: seq<Option<Report>>)
    requires AllMarkerFree(secrets, REDACTED) && Longest(secrets) > CHUNK_BYTES + 1
    ensures p.Valid() && p.secrets == secrets
    ensures |answers| == calls && forall i | 0 <= i < calls :: answers[i] == Some(Ok(Stdout([])))
    ensures calls > 0 ==> p.script == rest && p.StdoutStuck()
  {
    hide *;
    var fill;
    p, fill := WriteTooMuch(secrets, rest);
    answers := [];
    while |answers| < calls
      invariant |answers| <= calls && p.Valid() && fresh(p) && p.secrets == secrets
      invariant forall i | 0 <= i < |answers| :: answers[i] == Some(Ok(Stdout([])))
      invariant if answers == [] then p.SticksAfter(|fill|) && p.script == fill + rest
                else p.StdoutStuck() && p.script == rest
    {
      var r := p.NextEvent();
      answers := answers + [r];
    }
  }

  /** A process that writes too much for a long secret, in reads of the usual size, whatever else it writes. */
  method WriteTooMuch(secrets: seq<Bytes>, rest: seq<Report>) returns (p: RedactingProcess, fill: seq<Report>)
    requires AllMarkerFree(secrets, REDACTED) && Longest(secrets) > CHUNK_BYTES + 1
    ensures fresh(p) && p.Valid() && p.secrets == secrets
    ensures p.script == fill + rest && p.SticksAfter(|fill|)
    ensures forall i | 0 <= i < |fill| :: IsOutput(fill[i]) && |fill[i].value.bytes| <= READ_BYTES
  {
    hide SticksIn, Fill, FillReads, AllMarkerFree, Longest, RunOk;
    fill := FillReads(CHUNK_BYTES + 1, REDACTED);
    FillSticks(CHUNK_BYTES + 1, secrets, REDACTED, rest);
    assert Fill(0, REDACTED) == [];
    p := new RedactingProcess(fill + rest, secrets);
  }
}
