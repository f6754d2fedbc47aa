/**
 The WebSocket invalidation protocol: writers commit versions of a game and publish markers for
 committed versions on a bounded broadcast channel; a socket subscribes first, then reads the
 authoritative version, then forwards markers, and reads the authoritative version again whenever
 the channel tells it that markers were lost.

 A channel is the sequence of all markers sent on it; a receiver is a position in that sequence.
 Only the last BUFFER markers can still be read. Any interleaving of the steps below is a run.
 */
module Invalidation {
  const BUFFER: nat := 64

  type Game = nat
  type SocketId = nat

  datatype Phase =
    | Subscribed                     // receiver created, snapshot not read yet
    | Greeting(current: nat)         // snapshot read, upgrade under way
    | Listening
    | Lagged                         // told of a loss, authoritative version not read yet
    | Recovering(version: nat)       // authoritative version read, marker not sent yet
    | Closed

  /** `after` is the version the client already has, `last` the loop's `last_version`. */
  datatype Socket = Socket(game: Game, after: nat, phase: Phase, last: nat, pos: nat, sent: seq<nat>)

  datatype World = World(committed: map<Game, nat>, channels: map<Game, seq<nat>>, sockets: map<SocketId, Socket>)

  datatype Step =
    | Commit(game: Game)
    | Publish(game: Game, version: nat)
    | Subscribe(id: SocketId, game: Game, after: nat)
    | Snapshot(id: SocketId)
    | Greet(id: SocketId)
    | Receive(id: SocketId)
    | ReadAuthoritative(id: SocketId)
    | Recover(id: SocketId)
    | Hangup(id: SocketId)

  function Log(w: World, g: Game): seq<nat> {
    if g in w.channels then w.channels[g] else []
  }

  function Version(w: World, g: Game): nat {
    if g in w.committed then w.committed[g] else 0
  }

  /** Index of the oldest marker a receiver can still read. */
  function Oldest(log: seq<nat>): (n: nat)
    ensures n <= |log| && |log| - n <= BUFFER && (n == 0 || |log| - n == BUFFER)
  {
    if |log| <= BUFFER then 0 else |log| - BUFFER
  }

  /** Sends a version that is news to the socket. */
  function Forward(s: Socket, version: nat): Socket {
    if version > s.last then s.(last := version, sent := s.sent + [version]) else s
  }

  /**
   One receive: a loss report moves the position to the oldest marker left, otherwise the next marker
   is forwarded.
   */
  function OnReceive(s: Socket, log: seq<nat>): Socket
    requires s.pos < |log|
  {
    if s.pos < Oldest(log) then s.(phase := Lagged, pos := Oldest(log))
    else Forward(s.(pos := s.pos + 1), log[s.pos])
  }

  predicate Has(w: World, id: SocketId) {
    id in w.sockets
  }

  predicate Enabled(w: World, step: Step) {
    match step
    case Commit(_) => true
    case Publish(g, v) => v <= Version(w, g)
    case Subscribe(id, _, _) => id !in w.sockets
    case Snapshot(id) => Has(w, id) && w.sockets[id].phase.Subscribed?
    case Greet(id) => Has(w, id) && w.sockets[id].phase.Greeting?
    case Receive(id) =>
      Has(w, id) && w.sockets[id].phase.Listening? && w.sockets[id].pos < |Log(w, w.sockets[id].game)|
    case ReadAuthoritative(id) => Has(w, id) && w.sockets[id].phase.Lagged?
    case Recover(id) => Has(w, id) && w.sockets[id].phase.Recovering?
    case Hangup(id) => Has(w, id)
  }

  /** The socket a step leaves behind. */
  function SocketAfter(w: World, s: Socket, step: Step): Socket
    requires step.Receive? ==> s.pos < |Log(w, s.game)|
    requires step.Greet? ==> s.phase.Greeting?
    requires step.Recover? ==> s.phase.Recovering?
  {
    match step
    case Snapshot(_) =>
      // a client that claims a future version is refused
      if s.after > Version(w, s.game) then s.(phase := Closed) else s.(phase := Greeting(Version(w, s.game)))
    case Greet(_) => Forward(s, s.phase.current).(phase := Listening)
    case Receive(_) => OnReceive(s, Log(w, s.game))
    case ReadAuthoritative(_) => s.(phase := Recovering(Version(w, s.game)))
    case Recover(_) => Forward(s, s.phase.version).(phase := Listening)
    case _ => s.(phase := Closed)
  }

  function Next(w: World, step: Step): World
    requires Enabled(w, step)
  {
    match step
    case Commit(g) => w.(committed := w.committed[g := Version(w, g) + 1])
    case Publish(g, v) => w.(channels := w.channels[g := Log(w, g) + [v]])
    case Subscribe(id, g, after) =>
      w.(channels := w.channels[g := Log(w, g)],
         sockets := w.sockets[id := Socket(g, after, Subscribed, after, |Log(w, g)|, [])])
    case _ => w.(sockets := w.sockets[step.id := SocketAfter(w, w.sockets[step.id], step)])
  }

  predicate IsRun(run: seq<World>, steps: seq<Step>) {
    && |run| == |steps| + 1
    && run[0] == World(map[], map[], map[])
    && forall i | 0 <= i < |steps| :: Enabled(run[i], steps[i]) && run[i + 1] == Next(run[i], steps[i])
  }

  // ---------------------------------------------------------------- the invariant

  predicate Increasing(s: seq<nat>, above: nat) {
    && (forall a, b | 0 <= a < b < |s| :: s[a] < s[b])
    && (forall a | 0 <= a < |s| :: above < s[a])
  }

  predicate AtMost(log: seq<nat>, bound: nat) {
    forall i | 0 <= i < |log| :: log[i] <= bound
  }

  /**
   Everything below the receiver's position is covered, by `last` or by a version the socket has read
   or will read.
   */
  predicate Covered(w: World, s: Socket) {
    var log := Log(w, s.game);
    && s.pos <= |log|
    && match s.phase
       case Listening => AtMost(log[..s.pos], s.last)
       case Greeting(v) => AtMost(log[..s.pos], v) && s.after <= v && s.last == s.after
       case Recovering(v) => AtMost(log[..s.pos], if v > s.last then v else s.last)
       case Subscribed => s.last == s.after
       case Lagged => true
       case Closed => true
  }

  /** What was sent so far: increasing, ending in `last`, and nothing above the committed version. */
  predicate History(s: Socket, top: nat) {
    && Increasing(s.sent, s.after)
    && s.last == (if s.sent == [] then s.after else s.sent[|s.sent| - 1])
    && AtMost(s.sent, top)
  }

  predicate SocketOk(w: World, s: Socket) {
    && History(s, Version(w, s.game))
    && (s.phase.Greeting? ==> s.phase.current <= Version(w, s.game))
    && (s.phase.Recovering? ==> s.phase.version <= Version(w, s.game))
    && Covered(w, s)
  }

  predicate Inv(w: World) {
    && (forall g | g in w.channels :: AtMost(w.channels[g], Version(w, g)))
    && (forall id | id in w.sockets :: SocketOk(w, w.sockets[id]))
  }

  // ---------------------------------------------------------------- steps keep it

  lemma {:induction false} ForwardOk(s: Socket, version: nat, top: nat)
    requires History(s, top) && version <= top
    ensures var t := Forward(s, version);
            && History(t, top) && History(t.(phase := Listening), top)
            && t.last >= s.last && t.last >= version
            && (t.last == s.last || t.last == version)
  {
    var t := Forward(s, version);
    if version > s.last && s.sent != [] {
      forall a | 0 <= a < |s.sent| ensures t.sent[a] < version {
        assert s.sent[a] <= s.sent[|s.sent| - 1];
      }
    }
  }

  /** The step is one that this socket can take. */
  predicate Applies(w: World, s: Socket, step: Step) {
    match step
    case Snapshot(_) => s.phase.Subscribed?
    case Greet(_) => s.phase.Greeting?
    case Receive(_) => s.phase.Listening? && s.pos < |Log(w, s.game)|
    case ReadAuthoritative(_) => s.phase.Lagged?
    case Recover(_) => s.phase.Recovering?
    case Hangup(_) => true
    case _ => false
  }

  /** A step either leaves a socket alone or is one of its own. */
  lemma {:induction false} NextSocket(w: World, step: Step, id: SocketId)
    requires Enabled(w, step) && id in w.sockets
    ensures id in Next(w, step).sockets
    ensures var s, s' := w.sockets[id], Next(w, step).sockets[id];
            s' == s || (Applies(w, s, step) && s' == SocketAfter(w, s, step))
  {
  }

  lemma {:induction false} SocketStepOk(w: World, s: Socket, step: Step)
    requires SocketOk(w, s) && AtMost(Log(w, s.game), Version(w, s.game))
    requires Applies(w, s, step)
    ensures SocketOk(w, SocketAfter(w, s, step))
  {
    match step
    case Greet(_) => SendOk(w, s, s.phase.current);
    case Recover(_) => SendOk(w, s, s.phase.version);
    case Receive(_) => ReceiveOk(w, s);
    case Snapshot(_) => ReadOk(w, s);
    case ReadAuthoritative(_) => ReadOk(w, s);
    case Hangup(_) => ReadOk(w, s);
  }

  /** Sending the version that covers the position leaves a listening socket covered. */
  lemma {:induction false} SendOk(w: World, s: Socket, version: nat)
    requires History(s, Version(w, s.game)) && version <= Version(w, s.game) && s.pos <= |Log(w, s.game)|
    requires AtMost(Log(w, s.game)[..s.pos], if version > s.last then version else s.last)
    ensures SocketOk(w, Forward(s, version).(phase := Listening))
  {
    ForwardOk(s, version, Version(w, s.game));
    hide History;
  }

  /** The authoritative version covers everything published. */
  lemma {:induction false} ReadOk(w: World, s: Socket)
    requires SocketOk(w, s) && AtMost(Log(w, s.game), Version(w, s.game))
    ensures s.phase.Subscribed? && s.after <= Version(w, s.game) ==>
      SocketOk(w, s.(phase := Greeting(Version(w, s.game))))
    ensures s.phase.Lagged? ==> SocketOk(w, s.(phase := Recovering(Version(w, s.game))))
    ensures SocketOk(w, s.(phase := Closed))
  {
    assert forall v :: History(s.(phase := v), Version(w, s.game));
    hide History;
  }

  lemma {:induction false} ReceiveOk(w: World, s: Socket)
    requires SocketOk(w, s) && AtMost(Log(w, s.game), Version(w, s.game))
    requires s.phase.Listening? && s.pos < |Log(w, s.game)|
    ensures SocketOk(w, OnReceive(s, Log(w, s.game)))
  {
    var log := Log(w, s.game);
    if s.pos >= Oldest(log) {
      var moved := s.(pos := s.pos + 1);
      assert History(moved, Version(w, s.game));
      ForwardOk(moved, log[s.pos], Version(w, s.game));
      hide History;
      assert log[..s.pos + 1] == log[..s.pos] + [log[s.pos]];
    }
  }

  /** A step of a writer, or of another socket, keeps a socket's part of the invariant. */
  lemma {:induction false} OthersKeepSocket(w: World, w': World, s: Socket)
    requires SocketOk(w, s)
    requires Version(w, s.game) <= Version(w', s.game)
    requires Log(w, s.game) <= Log(w', s.game)
    ensures SocketOk(w', s)
  {
    assert Log(w', s.game)[..s.pos] == Log(w, s.game)[..s.pos];
  }

  /** Versions and channels only grow, and channels stay within the committed version. */
  lemma {:induction false} WritersGrow(w: World, step: Step, g: Game)
    requires Inv(w) && Enabled(w, step)
    ensures var w' := Next(w, step);
            && Version(w, g) <= Version(w', g) && Log(w, g) <= Log(w', g)
            && AtMost(Log(w', g), Version(w', g))
  {
    assert AtMost(Log(w, g), Version(w, g));
  }

  lemma {:induction false} NewSocketOk(w: World, g: Game, after: nat)
    ensures SocketOk(w, Socket(g, after, Subscribed, after, |Log(w, g)|, []))
  {
  }

  lemma {:induction false} SocketKeepsInv(w: World, step: Step, id: SocketId)
    requires Inv(w) && Enabled(w, step) && id in Next(w, step).sockets
    ensures SocketOk(Next(w, step), Next(w, step).sockets[id])
  {
    var w' := Next(w, step);
    if id !in w.sockets {
      assert w'.sockets[id] == Socket(step.game, step.after, Subscribed, step.after, |Log(w', step.game)|, []);
      hide SocketOk;
      NewSocketOk(w', step.game, step.after);
    } else {
      var s := w.sockets[id];
      WritersGrow(w, step, s.game);
      assert AtMost(Log(w, s.game), Version(w, s.game)) && SocketOk(w, s);
      NextSocket(w, step, id);
      hide SocketOk, SocketAfter, AtMost, Inv, Version, Log, Next, Applies, Enabled;
      if w'.sockets[id] == s {
        OthersKeepSocket(w, w', s);
      } else {
        SocketStepOk(w, s, step);
        OthersKeepSocket(w, w', SocketAfter(w, s, step));
      }
    }
  }

  lemma {:induction false} StepKeepsInv(w: World, step: Step)
    requires Inv(w) && Enabled(w, step)
    ensures Inv(Next(w, step))
  {
    var w' := Next(w, step);
    forall g | g in w'.channels ensures AtMost(w'.channels[g], Version(w', g)) {
      WritersGrow(w, step, g);
    }
    forall id | id in w'.sockets ensures SocketOk(w', w'.sockets[id]) {
      SocketKeepsInv(w, step, id);
    }
  }

  lemma {:induction false} RunKeepsInv(run: seq<World>, steps: seq<Step>, i: nat)
    requires IsRun(run, steps) && i < |run|
    ensures Inv(run[i])
  {
    if i > 0 {
      RunKeepsInv(run, steps, i - 1);
      StepKeepsInv(run[i - 1], steps[i - 1]);
    }
  }

  // ---------------------------------------------------------------- what every run guarantees

  /** In every interleaving, the versions sent on a socket are committed versions, strictly increasing above `after`. */
  lemma {:induction false} SentVersionsIncrease(run: seq<World>, steps: seq<Step>, i: nat, id: SocketId)
    requires IsRun(run, steps) && i < |run| && id in run[i].sockets
    ensures var s := run[i].sockets[id];
            && (forall a, b | 0 <= a < b < |s.sent| :: s.sent[a] < s.sent[b])
            && (forall a | 0 <= a < |s.sent| :: s.after < s.sent[a] <= Version(run[i], s.game))
  {
    RunKeepsInv(run, steps, i);
    var s := run[i].sockets[id];
    assert SocketOk(run[i], s);
  }

  /** A listening socket with nothing left to receive. */
  predicate Drained(w: World, s: Socket) {
    s.phase.Listening? && s.pos == |Log(w, s.game)|
  }

  predicate Current(w: World, s: Socket) {
    && AtMost(Log(w, s.game), s.last)
    && (Version(w, s.game) in Log(w, s.game) && s.after <= Version(w, s.game) ==> s.last == Version(w, s.game))
  }

  lemma {:induction false} DrainedIsCurrent(w: World, s: Socket)
    requires SocketOk(w, s) && Drained(w, s)
    ensures Current(w, s)
  {
    assert Log(w, s.game)[..s.pos] == Log(w, s.game);
  }

  /** In every interleaving, a drained socket has caught up with every version published so far, including lost ones. */
  lemma {:induction false} DrainedSocketIsCurrent(run: seq<World>, steps: seq<Step>, i: nat, id: SocketId)
    requires IsRun(run, steps) && i < |run| && id in run[i].sockets && Drained(run[i], run[i].sockets[id])
    ensures Current(run[i], run[i].sockets[id])
  {
    RunKeepsInv(run, steps, i);
    DrainedIsCurrent(run[i], run[i].sockets[id]);
  }

  // ---------------------------------------------------------------- the steps themselves

  /** The versions published for a game, in order. */
  function Published(steps: seq<Step>, g: Game): seq<nat> {
    if steps == [] then []
    else
      var last := steps[|steps| - 1];
      Published(steps[..|steps| - 1], g) + if last.Publish? && last.game == g then [last.version] else []
  }

  function Commits(steps: seq<Step>, g: Game): nat {
    if steps == [] then 0
    else
      var last := steps[|steps| - 1];
      Commits(steps[..|steps| - 1], g) + if last == Commit(g) then 1 else 0
  }

  /** In every run a channel holds exactly what was published on it, and a version counts the commits. */
  lemma {:induction false} WorldRecordsSteps(run: seq<World>, steps: seq<Step>, i: nat, g: Game)
    requires IsRun(run, steps) && i < |run|
    ensures Log(run[i], g) == Published(steps[..i], g)
    ensures Version(run[i], g) == Commits(steps[..i], g)
  {
    if i > 0 {
      WorldRecordsSteps(run, steps, i - 1, g);
      RecordsOneStep(run[i - 1], steps[i - 1], g);
      hide Next, Log, Version, Enabled;
      assert steps[..i][..i - 1] == steps[..i - 1] && steps[..i][i - 1] == steps[i - 1];
      assert run[i] == run[(i - 1) + 1];
    }
  }

  lemma {:induction false} RecordsOneStep(w: World, step: Step, g: Game)
    requires Enabled(w, step)
    ensures Log(Next(w, step), g) == Log(w, g) + if step.Publish? && step.game == g then [step.version] else []
    ensures Version(Next(w, step), g) == Version(w, g) + if step == Commit(g) then 1 else 0
  {
  }

  lemma {:induction false} PublishedHolds(steps: seq<Step>, k: nat, g: Game, v: nat)
    requires k < |steps| && steps[k] == Publish(g, v)
    ensures v in Published(steps, g)
    decreases |steps|
  {
    if k < |steps| - 1 {
      PublishedHolds(steps[..|steps| - 1], k, g, v);
    }
  }

  /** In every interleaving, a drained socket has sent or outrun every version published for its game. */
  lemma {:induction false} PublishedReachesSocket(run: seq<World>, steps: seq<Step>, i: nat, k: nat, v: nat,
                                                  id: SocketId)
    requires IsRun(run, steps) && k < i < |run| && id in run[i].sockets && Drained(run[i], run[i].sockets[id])
    requires steps[k] == Publish(run[i].sockets[id].game, v)
    ensures v <= run[i].sockets[id].last
  {
    var s := run[i].sockets[id];
    DrainedSocketIsCurrent(run, steps, i, id);
    WorldRecordsSteps(run, steps, i, s.game);
    PublishedHolds(steps[..i], k, s.game, v);
  }

  /** `last` is the last version sent, or what the client had: so a drained socket sent the newest one published. */
  lemma {:induction false} NewestIsSent(run: seq<World>, steps: seq<Step>, i: nat, k: nat, id: SocketId)
    requires IsRun(run, steps) && k < i < |run| && id in run[i].sockets && Drained(run[i], run[i].sockets[id])
    requires var s := run[i].sockets[id];
             steps[k] == Publish(s.game, Commits(steps[..i], s.game)) && s.after < Commits(steps[..i], s.game)
    ensures var s := run[i].sockets[id]; s.sent != [] && s.sent[|s.sent| - 1] == Commits(steps[..i], s.game)
  {
    var s := run[i].sockets[id];
    PublishedReachesSocket(run, steps, i, k, Commits(steps[..i], s.game), id);
    WorldRecordsSteps(run, steps, i, s.game);
    RunKeepsInv(run, steps, i);
    assert SocketOk(run[i], s);
  }

  /** A socket keeps the game and the version it subscribed with, starts behind all markers, and never goes back. */
  lemma {:induction false} SocketKeepsIdentity(w: World, step: Step, id: SocketId)
    requires Enabled(w, step) && id in Next(w, step).sockets
    ensures var s' := Next(w, step).sockets[id];
            if id in w.sockets
            then
              && s'.game == w.sockets[id].game && s'.after == w.sockets[id].after
              && w.sockets[id].last <= s'.last && w.sockets[id].sent <= s'.sent
            else
              && step.Subscribe? && step.id == id
              && s'.game == step.game && s'.after == step.after && s'.last == step.after
              && s'.sent == [] && s'.pos == |Log(w, step.game)| && s'.phase == Subscribed
  {
  }

  /** What a socket read at step `k` is on its way to the client, or covered. */
  predicate Heeds(s: Socket, v: nat) {
    match s.phase
    case Greeting(current) => v <= current || v <= s.last
    case Recovering(version) => v <= version || v <= s.last
    case Closed => true
    case _ => v <= s.last
  }

  lemma {:induction false} HeedsStays(w: World, step: Step, id: SocketId, v: nat)
    requires Enabled(w, step) && id in w.sockets && !w.sockets[id].phase.Subscribed? && Heeds(w.sockets[id], v)
    ensures id in Next(w, step).sockets
    ensures !Next(w, step).sockets[id].phase.Subscribed? && Heeds(Next(w, step).sockets[id], v)
  {
    NextSocket(w, step, id);
    hide Next, Enabled;
  }

  /**
   A socket that read the authoritative version, for its greeting or after a loss, covers every version
   committed up to that read as soon as it listens again.
   */
  lemma {:induction false} ReadVersionsReachClient(run: seq<World>, steps: seq<Step>, k: nat, i: nat, id: SocketId)
    requires IsRun(run, steps) && k < i < |run| && (steps[k] == Snapshot(id) || steps[k] == ReadAuthoritative(id))
    ensures id in run[k].sockets && id in run[i].sockets && !run[i].sockets[id].phase.Subscribed?
    ensures Heeds(run[i].sockets[id], Commits(steps[..k], run[k].sockets[id].game))
    decreases i
  {
    assert Enabled(run[k], steps[k]) && run[k + 1] == Next(run[k], steps[k]);
    var g := run[k].sockets[id].game;
    WorldRecordsSteps(run, steps, k, g);
    if i > k + 1 {
      ReadVersionsReachClient(run, steps, k, i - 1, id);
      assert Enabled(run[i - 1], steps[i - 1]) && run[i] == Next(run[i - 1], steps[i - 1]);
      HeedsStays(run[i - 1], steps[i - 1], id, Commits(steps[..k], g));
    }
  }

  /** Writers are never blocked: every run goes on with a commit, and with any version that was committed. */
  lemma {:induction false} WritersAreFree(run: seq<World>, steps: seq<Step>, g: Game, v: nat)
    requires IsRun(run, steps) && v <= Commits(steps, g)
    ensures var w := run[|steps|];
            && Enabled(w, Commit(g)) && IsRun(run + [Next(w, Commit(g))], steps + [Commit(g)])
            && Enabled(w, Publish(g, v)) && IsRun(run + [Next(w, Publish(g, v))], steps + [Publish(g, v)])
  {
    WorldRecordsSteps(run, steps, |steps|, g);
    assert steps[..|steps|] == steps;
    hide Next;
  }

  /**
   A receive reports a loss exactly when more than 64 markers were published since the last one taken,
   and leaves exactly the newest 64; otherwise it takes one marker and sends it on if it is news.
   */
  lemma {:induction false} LossIsReportedIff(w: World, id: SocketId)
    requires Enabled(w, Receive(id))
    ensures var s, s' := w.sockets[id], Next(w, Receive(id)).sockets[id];
            var log := Log(w, s.game);
            if |log| - s.pos > 64 then
              s'.phase.Lagged? && |log| - s'.pos == 64 && s'.last == s.last && s'.sent == s.sent
            else
              && s'.phase.Listening? && s'.pos == s.pos + 1
              && s'.last == (if log[s.pos] > s.last then log[s.pos] else s.last)
              && s'.sent == s.sent + if log[s.pos] > s.last then [log[s.pos]] else []
  {
  }

  // ---------------------------------------------------------------- catching up always ends

  /** The receiver's own next step. */
  function OwnStep(w: World, id: SocketId): Step
    requires id in w.sockets
  {
    match w.sockets[id].phase
    case Subscribed => Snapshot(id)
    case Greeting(_) => Greet(id)
    case Listening => Receive(id)
    case Lagged => ReadAuthoritative(id)
    case Recovering(_) => Recover(id)
    case Closed => Hangup(id)
  }

  function Rank(p: Phase): nat {
    match p
    case Subscribed => 5
    case Greeting(_) => 4
    case Lagged => 2
    case Recovering(_) => 1
    case Listening => 0
    case Closed => 0
  }

  /** Steps the socket still needs when the writers pause. */
  function Distance(w: World, s: Socket): nat
    requires s.pos <= |Log(w, s.game)|
  {
    Rank(s.phase) + 3 * (|Log(w, s.game)| - s.pos)
  }

  /** A client that claims a version which does not exist yet. */
  predicate Premature(w: World, s: Socket) {
    s.phase.Subscribed? && s.after > Version(w, s.game)
  }

  /** A socket's own step keeps the game, brings it closer, and closes it only on a future version. */
  lemma {:induction false} OwnStepProgress(w: World, s: Socket, step: Step)
    requires SocketOk(w, s) && !Drained(w, s)
    requires match s.phase
             case Subscribed => step.Snapshot?
             case Greeting(_) => step.Greet?
             case Listening => step.Receive?
             case Lagged => step.ReadAuthoritative?
             case Recovering(_) => step.Recover?
             case Closed => false
    ensures var t := SocketAfter(w, s, step);
            && t.game == s.game && t.after == s.after && t.pos <= |Log(w, t.game)|
            && (t.phase.Closed? <==> Premature(w, s))
            && !t.phase.Subscribed?
            && (t.phase.Closed? || Distance(w, t) < Distance(w, s))
  {
  }

  /** The same for the whole world: the step is enabled and keeps the invariant. */
  lemma {:induction false} OwnStepAdvances(w: World, id: SocketId)
    requires Inv(w) && id in w.sockets && !w.sockets[id].phase.Closed? && !Drained(w, w.sockets[id])
    ensures Enabled(w, OwnStep(w, id))
    ensures var s := w.sockets[id]; var w' := Next(w, OwnStep(w, id));
            && Inv(w') && id in w'.sockets && w'.channels == w.channels
            && var t := w'.sockets[id];
               && t.game == s.game && t.after == s.after && !t.phase.Subscribed?
               && s.pos <= |Log(w, s.game)| && t.pos <= |Log(w', t.game)|
               && (t.phase.Closed? <==> Premature(w, s))
               && 0 < Distance(w, s) && (t.phase.Closed? || Distance(w', t) < Distance(w, s))
  {
    var s := w.sockets[id];
    var step := OwnStep(w, id);
    assert SocketOk(w, s);
    OwnStepProgress(w, s, step);
    StepKeepsInv(w, step);
    hide Inv, SocketOk, SocketAfter;
    assert Next(w, step).sockets[id] == SocketAfter(w, s, step);
  }

  /** `w'` is reached from `w` by `steps`, each of them the enabled next step of the socket `id` and of nobody else. */
  predicate OwnSteps(w: World, steps: seq<Step>, id: SocketId, w': World)
    decreases |steps|
  {
    if steps == [] then w' == w
    else
      && id in w.sockets
      && steps[0] == OwnStep(w, id)
      && Enabled(w, steps[0])
      && OwnSteps(Next(w, steps[0]), steps[1..], id, w')
  }

  /** A socket's own steps touch nothing but that socket. */
  lemma {:induction false} OwnStepsAlone(w: World, steps: seq<Step>, id: SocketId, w': World)
    requires OwnSteps(w, steps, id, w') && id in w.sockets
    ensures w'.committed == w.committed && w'.channels == w.channels
    ensures w'.sockets.Keys == w.sockets.Keys
    ensures forall other | other in w.sockets && other != id :: w'.sockets[other] == w.sockets[other]
    decreases |steps|
  {
    if steps != [] {
      var w1 := Next(w, steps[0]);
      assert w1.sockets.Keys == w.sockets.Keys;
      OwnStepsAlone(w1, steps[1..], id, w');
    }
  }

  /**
   With the writers paused, a live socket is drained and current after at most `Distance` steps of its own,
   or it is closed, which happens only to a premature client.
   */
  lemma {:induction false} CatchUp(w: World, id: SocketId) returns (steps: seq<Step>, w': World)
    requires Inv(w) && id in w.sockets
    ensures OwnSteps(w, steps, id, w') && id in w'.sockets && Inv(w')
    ensures w.sockets[id].pos <= |Log(w, w.sockets[id].game)| && |steps| <= Distance(w, w.sockets[id])
    ensures w'.committed == w.committed && w'.channels == w.channels && w'.sockets.Keys == w.sockets.Keys
    ensures forall other | other in w.sockets && other != id :: w'.sockets[other] == w.sockets[other]
    ensures w'.sockets[id].game == w.sockets[id].game && w'.sockets[id].after == w.sockets[id].after
    ensures if w.sockets[id].phase.Closed? || Premature(w, w.sockets[id]) then w'.sockets[id].phase.Closed?
            else Drained(w', w'.sockets[id]) && Current(w', w'.sockets[id])
    decreases if w.sockets[id].pos <= |Log(w, w.sockets[id].game)| then Distance(w, w.sockets[id]) else 0
  {
    var s := w.sockets[id];
    assert SocketOk(w, s);
    steps, w' := [], w;
    if Drained(w, s) {
      DrainedIsCurrent(w, s);
    } else if !s.phase.Closed? {
      OwnStepAdvances(w, id);
      hide Inv, SocketOk, Current, Next, Enabled, OwnStep, Drained, Log;
      var w1 := Next(w, OwnStep(w, id));
      var more := [];
      if w1.sockets[id].phase.Closed? {
        w' := w1;
      } else {
        more, w' := CatchUp(w1, id);
      }
      steps := [OwnStep(w, id)] + more;
      assert steps[1..] == more;
    }
    OwnStepsAlone(w, steps, id, w');
  }
}
