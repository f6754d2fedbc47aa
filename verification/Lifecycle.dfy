/**
 The lifecycle of an agent driver as its own log records it. Every transition appends the new state
 under its index, so what a driver did over its whole life can be read off the log. `Allowed` is
 the law that both drivers keep between three consecutive entries; the lemmas say what the law
 implies for whole logs, across dropped operations, failed terminations and restores.
 */
module Lifecycle {
  import opened Process

  datatype Reason = Completed | Cancelled | GameEnded | Operator | BudgetExceeded

  datatype State =
    | Pending
    | Starting
    | Ready
    | TurnRunning(turn: string)
    | Terminating
    | Terminated(reason: Reason)
    | Crashed(exit: ExitStatus)

  datatype Entry = Entry(sequence: nat, state: State)

  datatype Kind = Generic | Native

  /** States in which no operation is under way. */
  predicate Stable(s: State) {
    s.Pending? || s.Ready? || s.Terminated? || s.Crashed?
  }

  /**
   `next` may follow `cur`, which followed `before`. `before` is None for the state a driver was
   created or restored in. A transient state that a failed termination went back to is abandoned:
   the operation that belongs to it is gone, and only another termination can follow.
   */
  predicate Allowed(kind: Kind, before: Option<State>, cur: State, next: State) {
    match cur
    case Pending => next.Starting? || next.Terminating? || (kind.Generic? && next == Terminated(Cancelled))
    case Starting =>
      if kind.Native? && before == Some(Terminating) then next.Terminating?
      else next.Ready? || next.Crashed? || next.Terminating? || next == Terminated(Cancelled)
    case Ready =>
      || next.Terminating?
      || (kind.Generic? && (next.Ready? || next.TurnRunning? || next == Terminated(Cancelled)))
      || (kind.Native? && (next.Starting? || (before.Some? && (next.TurnRunning? || next == Terminated(Cancelled)))))
    case TurnRunning(_) =>
      if before == Some(Terminating) then next.Terminating?
      else next.Ready? || next.Crashed? || next.Terminating? || next == Terminated(Cancelled)
    case Terminating =>
      || next.Terminated? || next.Terminating?
      || (before == Some(next) && (next.TurnRunning? || if kind.Generic? then next.Ready? else next.Starting?))
    case Crashed(_) =>
      next.Terminating? || if kind.Generic? then next.Ready? || next == Terminated(Cancelled) else next.Starting?
    case Terminated(_) => kind.Generic? && next == Terminated(Cancelled)
  }

  /** The state before entry `i` in a life that began at `base`. */
  function Before(log: seq<Entry>, base: nat, i: nat): Option<State>
    requires base <= i < |log|
  {
    if i == base then None else Some(log[i - 1].state)
  }

  predicate Numbered(log: seq<Entry>) {
    forall i | 0 <= i < |log| :: log[i].sequence == i
  }

  /** The entry behind `i` follows lawfully. */
  predicate Follows(kind: Kind, log: seq<Entry>, base: nat, i: nat)
    requires base <= i < |log| - 1
  {
    Allowed(kind, Before(log, base, i), log[i].state, log[i + 1].state)
  }

  /** From `base` on every entry follows lawfully. */
  predicate Lawful(kind: Kind, log: seq<Entry>, base: nat) {
    && base < |log| && Stable(log[base].state)
    && forall i | base <= i < |log| - 1 :: Follows(kind, log, base, i)
  }

  /** The turns that ran to completion: a running turn directly followed by Ready. */
  function CompletedTurns(log: seq<Entry>, base: nat): seq<string> {
    if |log| < base + 2 then []
    else
      var prev, last := log[|log| - 2].state, log[|log| - 1].state;
      CompletedTurns(log[..|log| - 1], base) + if prev.TurnRunning? && last.Ready? then [prev.turn] else []
  }

  lemma {:induction false} LawfulMore(kind: Kind, log: seq<Entry>, base: nat, next: Entry)
    requires Lawful(kind, log, base)
    requires Allowed(kind, Before(log, base, |log| - 1), log[|log| - 1].state, next.state)
    ensures Lawful(kind, log + [next], base)
  {
    var more := log + [next];
    forall i | base <= i < |more| - 1 ensures Follows(kind, more, base, i) {
      assert Before(more, base, i) == Before(log, base, i);
      assert i < |log| - 1 ==> Follows(kind, log, base, i);
    }
  }

  lemma {:induction false} CompletedMore(log: seq<Entry>, base: nat, next: Entry)
    requires base < |log|
    ensures CompletedTurns(log + [next], base)
            == CompletedTurns(log, base)
               + if log[|log| - 1].state.TurnRunning? && next.state.Ready? then [log[|log| - 1].state.turn] else []
  {
    assert (log + [next])[..|log|] == log;
  }

  /** How many turns were begun; going back to a turn after a failed termination begins none. */
  function Begun(log: seq<Entry>): nat {
    if log == [] then 0
    else
      var n := |log| - 1;
      Begun(log[..n])
      + if log[n].state.TurnRunning? && !(n > 0 && log[n - 1].state.Terminating?) then 1 else 0
  }

  lemma {:induction false} BegunMore(log: seq<Entry>, next: Entry)
    ensures Begun(log + [next])
            == Begun(log)
               + if next.state.TurnRunning? && !(log != [] && log[|log| - 1].state.Terminating?) then 1 else 0
  {
    assert (log + [next])[..|log|] == log;
  }

  // ---------------------------------------------------------------- what the law implies

  /** Terminated is absorbing, in both drivers, for the rest of the life; a native driver never logs again. */
  lemma {:induction false} TerminatedIsFinal(kind: Kind, log: seq<Entry>, base: nat, i: nat, j: nat)
    requires Lawful(kind, log, base) && base <= i <= j < |log| && log[i].state.Terminated?
    ensures log[j].state.Terminated?
    ensures kind.Native? ==> j == i
    decreases j
  {
    if i < j {
      TerminatedIsFinal(kind, log, base, i, j - 1);
      assert Follows(kind, log, base, j - 1);
    }
  }

  /**
   A start or turn that is terminated before it has ended is never taken up again: from then on the
   log only alternates between terminating and that abandoned state, until it is terminated.
   */
  lemma {:induction false} AbandonedIsFinal(kind: Kind, log: seq<Entry>, base: nat, i: nat, j: nat)
    requires Lawful(kind, log, base) && base <= i < j < |log|
    requires log[i].state.TurnRunning? || log[i].state.Starting?
    requires log[i + 1].state.Terminating?
    ensures log[j].state.Terminating? || log[j].state == log[i].state || log[j].state.Terminated?
    decreases j
  {
    if j > i + 1 {
      AbandonedIsFinal(kind, log, base, i, j - 1);
      assert Follows(kind, log, base, j - 1);
      if j - 1 > i + 1 {
        AbandonedIsFinal(kind, log, base, i, j - 2);
        assert Follows(kind, log, base, j - 2);
      }
    }
  }

  /** So no turn completes behind an abandoned one. */
  lemma {:induction false} NoTurnAfterAbandoned(kind: Kind, log: seq<Entry>, base: nat, i: nat, n: nat)
    requires Lawful(kind, log, base) && base <= i < |log| - 1 && i + 2 <= n <= |log|
    requires log[i].state.TurnRunning? || log[i].state.Starting?
    requires log[i + 1].state.Terminating?
    ensures CompletedTurns(log[..n], base) == CompletedTurns(log[..i + 1], base)
    decreases n
  {
    AbandonedIsFinal(kind, log, base, i, n - 1);
    CompletedMore(log[..n - 1], base, log[n - 1]);
    assert log[..n] == log[..n - 1] + [log[n - 1]];
    if n > i + 2 {
      NoTurnAfterAbandoned(kind, log, base, i, n - 1);
    }
  }

  /** A life that continues a saved one is one life: the laws and the completed turns join. */
  lemma {:induction false} LivesJoin(kind: Kind, log: seq<Entry>, base: nat, k: nat)
    requires base <= k < |log| && Lawful(kind, log[..k + 1], base) && Lawful(kind, log, k)
    ensures Lawful(kind, log, base)
  {
    forall i | base <= i < |log| - 1 ensures Follows(kind, log, base, i) {
      if i < k {
        var first := log[..k + 1];
        assert Follows(kind, first, base, i);
      } else {
        assert Follows(kind, log, k, i);
      }
    }
  }

  lemma {:induction false} CompletedTurnsJoin(log: seq<Entry>, base: nat, k: nat)
    requires base <= k < |log|
    ensures CompletedTurns(log, base) == CompletedTurns(log[..k + 1], base) + CompletedTurns(log, k)
    decreases |log|
  {
    var n := |log| - 1;
    if k == n {
      assert log[..k + 1] == log;
    } else {
      assert log[..n][..k + 1] == log[..k + 1];
      CompletedTurnsJoin(log[..n], base, k);
    }
  }

  // ---------------------------------------------------------------- probing before turns

  /** A successful probe ended at `i + 1`, and nothing crashed or started between it and `j`. */
  predicate ProbedAt(log: seq<Entry>, i: nat, j: nat) {
    && i + 1 <= j < |log|
    && log[i].state.Starting? && log[i + 1].state.Ready?
    && forall k | i < k <= j :: !log[k].state.Crashed? && !log[k].state.Starting?
  }

  /**
   In every life of a native driver, a turn only runs after a probe of the same life succeeded, with
   no crash in between. Being created or restored in Ready is not a probe.
   */
  lemma {:induction false} ProbedBeforeTurn(log: seq<Entry>, base: nat, j: nat) returns (i: nat)
    requires Lawful(Native, log, base) && base < j < |log|
    requires log[j].state.TurnRunning? || log[j].state.Ready?
    ensures base <= i && ProbedAt(log, i, j)
    decreases j
  {
    assert Follows(Native, log, base, j - 1);
    match log[j - 1].state
    case Starting => i := j - 1;
    case Ready => i := ProbedBeforeTurn(log, base, j - 1);
    case TurnRunning(_) => i := ProbedBeforeTurn(log, base, j - 1);
    case Terminating => i := ProbedBeforeTurn(log, base, j - 2);
    case _ =>
  }
}
