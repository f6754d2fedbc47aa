/**
 What a supervised process reports to successive reads, and how the reports divide into lives: a
 process that writes again after it has exited begins a new life.
 */
module Reports {
  import opened Redaction
  import opened Process

  type Report = Result<ProcessEvent, ProcessError>

  predicate IsOutput(r: Report) {
    r.Ok? && !r.value.Exited?
  }

  predicate IsExit(r: Report) {
    r.Ok? && r.value.Exited?
  }

  predicate NotEmpty(r: Report) {
    IsOutput(r) ==> r.value.bytes != []
  }

  predicate HasExit(reports: seq<Report>) {
    exists i :: 0 <= i < |reports| && IsExit(reports[i])
  }

  /** The process wrote nothing after it had exited. */
  predicate ExitIsFinal(reports: seq<Report>) {
    forall i, j | 0 <= i < j < |reports| && IsExit(reports[i]) :: !IsOutput(reports[j])
  }

  /** The bytes of one stream in a run of reports. */
  function Written(reports: seq<Report>, stdout: bool): Bytes {
    if reports == [] then []
    else
      var r := reports[|reports| - 1];
      Written(reports[..|reports| - 1], stdout)
      + (if r.Ok? && ((stdout && r.value.Stdout?) || (!stdout && r.value.Stderr?)) then r.value.bytes else [])
  }

  lemma {:induction false} WrittenMore(reports: seq<Report>, r: Report, stdout: bool)
    ensures Written(reports + [r], stdout)
            == Written(reports, stdout)
               + (if r.Ok? && ((stdout && r.value.Stdout?) || (!stdout && r.value.Stderr?)) then r.value.bytes else [])
  {
    assert (reports + [r])[..|reports|] == reports;
  }

  lemma {:induction false} WrittenSilent(reports: seq<Report>, r: Report)
    requires !IsOutput(r)
    ensures Written(reports + [r], true) == Written(reports, true)
    ensures Written(reports + [r], false) == Written(reports, false)
  {
    WrittenMore(reports, r, true);
    WrittenMore(reports, r, false);
  }

  lemma {:induction false} WrittenOne(reports: seq<Report>, r: Report, bytes: Bytes)
    requires r == Ok(Stdout(bytes)) || r == Ok(Stderr(bytes))
    ensures Written(reports + [r], r.value.Stdout?) == Written(reports, r.value.Stdout?) + bytes
    ensures Written(reports + [r], !r.value.Stdout?) == Written(reports, !r.value.Stdout?)
  {
    WrittenMore(reports, r, true);
    WrittenMore(reports, r, false);
  }

  /** The exits and failures among the reports, in order. */
  function Ends(reports: seq<Report>): seq<Report> {
    if reports == [] then []
    else
      var r := reports[|reports| - 1];
      Ends(reports[..|reports| - 1]) + if IsOutput(r) then [] else [r]
  }

  lemma {:induction false} EndsMore(reports: seq<Report>, r: Report)
    ensures Ends(reports + [r]) == Ends(reports) + if IsOutput(r) then [] else [r]
  {
    assert (reports + [r])[..|reports|] == reports;
  }

  // ---------------------------------------------------------------- lives

  /** The lives the reports divide into; the last one may be empty only when there are no reports. */
  function Lives(reports: seq<Report>): (lives: seq<seq<Report>>)
    ensures lives != []
  {
    if reports == [] then [[]]
    else
      var lives, r := Lives(reports[..|reports| - 1]), reports[|reports| - 1];
      var n := |lives| - 1;
      if IsOutput(r) && HasExit(lives[n]) then lives + [[r]] else lives[..n] + [lives[n] + [r]]
  }

  function LastLife(reports: seq<Report>): seq<Report> {
    Lives(reports)[|Lives(reports)| - 1]
  }

  function Earlier(reports: seq<Report>): seq<seq<Report>> {
    Lives(reports)[..|Lives(reports)| - 1]
  }

  lemma {:induction false} LivesWhole(reports: seq<Report>)
    ensures Lives(reports) == Earlier(reports) + [LastLife(reports)]
  {
  }

  lemma {:induction false} LivesMore(reports: seq<Report>, r: Report)
    ensures var anew := IsOutput(r) && HasExit(LastLife(reports));
            && LastLife(reports + [r]) == (if anew then [r] else LastLife(reports) + [r])
            && Earlier(reports + [r]) == if anew then Lives(reports) else Earlier(reports)
  {
    assert (reports + [r])[..|reports|] == reports;
  }

  lemma {:induction false} HasExitMore(reports: seq<Report>, r: Report)
    ensures HasExit(reports + [r]) <==> HasExit(reports) || IsExit(r)
  {
    var all := reports + [r];
    assert all[|reports|] == r;
    if HasExit(reports) {
      var i :| 0 <= i < |reports| && IsExit(reports[i]);
      assert all[i] == reports[i];
    }
  }

  lemma {:induction false} FinalSoFar(seen: seq<Report>, r: Report)
    requires ExitIsFinal(seen + [r])
    ensures ExitIsFinal(seen)
    ensures IsOutput(r) ==> forall i | 0 <= i < |seen| :: !IsExit(seen[i])
  {
    var all := seen + [r];
    forall i, j | 0 <= i < j < |seen| && IsExit(seen[i]) ensures !IsOutput(seen[j]) {
      assert all[i] == seen[i] && all[j] == seen[j];
    }
    if IsOutput(r) {
      forall i | 0 <= i < |seen| ensures !IsExit(seen[i]) {
        assert all[i] == seen[i] && all[|seen|] == r;
      }
    }
  }

  lemma {:induction false} FinalPrefix(reports: seq<Report>, k: nat)
    requires ExitIsFinal(reports) && k <= |reports|
    ensures ExitIsFinal(reports[..k])
  {
    var front := reports[..k];
    forall i, j | 0 <= i < j < |front| && IsExit(front[i]) ensures !IsOutput(front[j]) {
      assert front[i] == reports[i] && front[j] == reports[j];
    }
  }

  /** A process whose exits are final has one life. */
  lemma {:induction false} OneLife(reports: seq<Report>)
    requires ExitIsFinal(reports)
    ensures LastLife(reports) == reports && Earlier(reports) == []
    decreases |reports|
  {
    if reports != [] {
      var n := |reports| - 1;
      assert reports == reports[..n] + [reports[n]];
      FinalSoFar(reports[..n], reports[n]);
      OneLife(reports[..n]);
      LivesMore(reports[..n], reports[n]);
    }
  }

  /** A process whose last report is an exit has exited in its last life. */
  lemma {:induction false} EndsExited(reports: seq<Report>)
    requires reports != [] && IsExit(reports[|reports| - 1])
    ensures HasExit(LastLife(reports))
  {
    var n := |reports| - 1;
    assert reports == reports[..n] + [reports[n]];
    LivesMore(reports[..n], reports[n]);
    HasExitMore(LastLife(reports[..n]), reports[n]);
  }

  /** Every life redacted at once, one behind the other. */
  function OneShot(lives: seq<seq<Report>>, stdout: bool, secrets: seq<Bytes>, m: Bytes): Bytes {
    if lives == [] then []
    else
      OneShot(lives[..|lives| - 1], stdout, secrets, m)
      + RedactAll(Written(lives[|lives| - 1], stdout), secrets, m)
  }
}
