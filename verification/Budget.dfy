/**
 Resource budgets of one run: a controller that meters every dimension with saturating counters, and
 the process wrapper that meters output, over one read and over the reads of a turn. The clock is a
 parameter.
 */
module Budget {
  import opened Integers
  import opened Redaction
  import opened Process
  import opened DriverTelemetry
  import opened Reports
  import opened LineDecoder
  import opened Turns
  import opened GenericDriver

  datatype Dimension =
    WallTime | CpuTime | Memory | NetworkBytes | InputTokens | OutputTokens | Attempts | ToolCalls | OutputBytes | Cost

  datatype Budgets = Budgets(
    wallTimeMs: U64, cpuTimeMs: U64, memoryBytes: U64, networkBytes: U64, inputTokens: U64, outputTokens: U64,
    attempts: U32, toolCalls: U32, outputBytes: U64, costMicrousd: U64)

  function Limit(b: Budgets, d: Dimension): U64 {
    match d
    case WallTime => b.wallTimeMs
    case CpuTime => b.cpuTimeMs
    case Memory => b.memoryBytes
    case NetworkBytes => b.networkBytes
    case InputTokens => b.inputTokens
    case OutputTokens => b.outputTokens
    case Attempts => b.attempts
    case ToolCalls => b.toolCalls
    case OutputBytes => b.outputBytes
    case Cost => b.costMicrousd
  }

  // ---------------------------------------------------------------- one dimension over a whole run

  /** What was consumed, and what was granted to callers, after a run of charges. */
  datatype Meter = Meter(consumed: U64, granted: nat)

  function Charge(m: Meter, limit: U64, amount: nat): Meter {
    var consumed := SaturatingAdd(m.consumed, amount);
    Meter(consumed, if consumed <= limit then m.granted + amount else m.granted)
  }

  function ChargeAll(limit: U64, amounts: seq<nat>): Meter {
    if amounts == [] then Meter(0, 0)
    else Charge(ChargeAll(limit, amounts[..|amounts| - 1]), limit, amounts[|amounts| - 1])
  }

  function Sum(amounts: seq<nat>): nat {
    if amounts == [] then 0 else Sum(amounts[..|amounts| - 1]) + amounts[|amounts| - 1]
  }

  /** The meter is the exact total, cut off at the width of the counter. */
  lemma {:induction false} MeterIsTotal(limit: U64, amounts: seq<nat>)
    ensures ChargeAll(limit, amounts).consumed == if Sum(amounts) <= U64_MAX then Sum(amounts) else U64_MAX
  {
    if amounts != [] {
      MeterIsTotal(limit, amounts[..|amounts| - 1]);
    }
  }

  /** Charge `i` is refused exactly when the total up to and including it, cut off, exceeds the limit. */
  predicate Refused(limit: U64, amounts: seq<nat>, i: nat)
    requires i < |amounts|
  {
    ChargeAll(limit, amounts[..i + 1]).consumed > limit
  }

  /** Once refused, refused for the rest of the run, whatever is asked for. */
  lemma {:induction false} RefusalLasts(limit: U64, amounts: seq<nat>, i: nat, j: nat)
    requires i <= j < |amounts| && Refused(limit, amounts, i)
    ensures Refused(limit, amounts, j)
    decreases j
  {
    if i < j {
      RefusalLasts(limit, amounts, i, j - 1);
      assert amounts[..j + 1][..j] == amounts[..j];
    }
  }

  predicate WithinLimit(m: Meter, limit: U64) {
    m.granted <= limit && (m.consumed <= limit ==> m.granted == m.consumed)
  }

  lemma {:induction false} ChargeKeepsWithin(m: Meter, limit: U64, amount: nat)
    requires WithinLimit(m, limit) && limit < U64_MAX
    ensures WithinLimit(Charge(m, limit, amount), limit)
  {
  }

  lemma {:induction false} GrantedWithinLimit(limit: U64, amounts: seq<nat>)
    requires limit < U64_MAX
    ensures WithinLimit(ChargeAll(limit, amounts), limit)
  {
    if amounts != [] {
      GrantedWithinLimit(limit, amounts[..|amounts| - 1]);
      ChargeKeepsWithin(ChargeAll(limit, amounts[..|amounts| - 1]), limit, amounts[|amounts| - 1]);
    }
  }

  /** No run is ever granted more than the limit, exactly when the limit is below the top of the counter. */
  lemma {:induction false} LimitHoldsIff(limit: U64)
    ensures (forall amounts :: ChargeAll(limit, amounts).granted <= limit) <==> limit < U64_MAX
  {
    if limit < U64_MAX {
      forall amounts ensures ChargeAll(limit, amounts).granted <= limit {
        GrantedWithinLimit(limit, amounts);
      }
    } else {
      var amounts := [U64_MAX, 1];
      assert amounts[..1] == [U64_MAX] && [U64_MAX][..0] == [];
      assert ChargeAll(limit, [U64_MAX]) == Meter(U64_MAX, U64_MAX);
      assert ChargeAll(limit, amounts).granted == U64_MAX + 1;
    }
  }

  // ---------------------------------------------------------------- the controller

  /** One value for every dimension. */
  datatype PerDimension<+T> = PerDimension(
    wallTime: T, cpuTime: T, memory: T, networkBytes: T, inputTokens: T, outputTokens: T, attempts: T, toolCalls: T,
    outputBytes: T, cost: T)
  {
    function Get(d: Dimension): T {
      match d
      case WallTime => wallTime
      case CpuTime => cpuTime
      case Memory => memory
      case NetworkBytes => networkBytes
      case InputTokens => inputTokens
      case OutputTokens => outputTokens
      case Attempts => attempts
      case ToolCalls => toolCalls
      case OutputBytes => outputBytes
      case Cost => cost
    }

    function With(d: Dimension, value: T): PerDimension<T> {
      match d
      case WallTime => this.(wallTime := value)
      case CpuTime => this.(cpuTime := value)
      case Memory => this.(memory := value)
      case NetworkBytes => this.(networkBytes := value)
      case InputTokens => this.(inputTokens := value)
      case OutputTokens => this.(outputTokens := value)
      case Attempts => this.(attempts := value)
      case ToolCalls => this.(toolCalls := value)
      case OutputBytes => this.(outputBytes := value)
      case Cost => this.(cost := value)
    }
  }

  lemma {:induction false} GetWith<T>(p: PerDimension<T>, d: Dimension, value: T)
    ensures p.With(d, value).Get(d) == value
    ensures forall e: Dimension | e != d :: p.With(d, value).Get(e) == p.Get(e)
  {
  }

  datatype LimitEvent = LimitEvent(sequence: nat, dimension: Dimension, limit: nat, observed: nat)

  datatype BudgetError = Exceeded

  predicate EventsNumbered(events: seq<LimitEvent>) {
    forall i | 0 <= i < |events| :: events[i].sequence == i
  }

  ghost predicate AllWithin(b: Budgets, consumed: PerDimension<U64>, granted: PerDimension<nat>) {
    forall d: Dimension | Limit(b, d) < U64_MAX :: WithinLimit(Meter(consumed.Get(d), granted.Get(d)), Limit(b, d))
  }

  /** A charge on one dimension and nothing else. */
  ghost predicate Charged(b: Budgets, c0: PerDimension<U64>, g0: PerDimension<nat>, d: Dimension, amount: nat,
                          c1: PerDimension<U64>, g1: PerDimension<nat>)
  {
    var m := Charge(Meter(c0.Get(d), g0.Get(d)), Limit(b, d), amount);
    c1 == c0.With(d, m.consumed) && g1 == g0.With(d, m.granted)
  }

  lemma {:induction false} ChargedMeans(b: Budgets, c0: PerDimension<U64>, g0: PerDimension<nat>, d: Dimension,
                                        amount: nat, c1: PerDimension<U64>, g1: PerDimension<nat>)
    requires AllWithin(b, c0, g0) && Charged(b, c0, g0, d, amount, c1, g1)
    ensures AllWithin(b, c1, g1)
    ensures c1.Get(d) == SaturatingAdd(c0.Get(d), amount)
    ensures g1.Get(d) == if c1.Get(d) <= Limit(b, d) then g0.Get(d) + amount else g0.Get(d)
    ensures forall e: Dimension | e != d :: c1.Get(e) == c0.Get(e) && g1.Get(e) == g0.Get(e)
    ensures Limit(b, d) < U64_MAX ==> g1.Get(d) <= Limit(b, d)
  {
    var m := Charge(Meter(c0.Get(d), g0.Get(d)), Limit(b, d), amount);
    GetWith(c0, d, m.consumed);
    GetWith(g0, d, m.granted);
    if Limit(b, d) < U64_MAX {
      ChargeKeepsWithin(Meter(c0.Get(d), g0.Get(d)), Limit(b, d), amount);
    }
    hide PerDimension.Get, PerDimension.With, Limit;
  }

  /** Refused exactly beyond the limit, and then reported with both. */
  predicate JudgedBy(total: nat, limit: nat, refused: bool, event: LimitEvent) {
    (refused <==> total > limit) && (refused ==> event.limit == limit && event.observed == total)
  }

  /**
   A charge in the budget's own terms: it adds to the counter of its dimension and to no other, is
   refused exactly when that counter then exceeds that dimension's limit, and reports both.
   */
  predicate NamedCharge(b: Budgets, before: PerDimension<U64>, d: Dimension, amount: nat, after: PerDimension<U64>,
                        refused: bool, event: LimitEvent)
  {
    && (refused ==> event.dimension == d)
    && match d
       case WallTime =>
         && after == before.(wallTime := SaturatingAdd(before.wallTime, amount))
         && JudgedBy(after.wallTime, b.wallTimeMs, refused, event)
       case CpuTime =>
         && after == before.(cpuTime := SaturatingAdd(before.cpuTime, amount))
         && JudgedBy(after.cpuTime, b.cpuTimeMs, refused, event)
       case Memory =>
         && after == before.(memory := SaturatingAdd(before.memory, amount))
         && JudgedBy(after.memory, b.memoryBytes, refused, event)
       case NetworkBytes =>
         && after == before.(networkBytes := SaturatingAdd(before.networkBytes, amount))
         && JudgedBy(after.networkBytes, b.networkBytes, refused, event)
       case InputTokens =>
         && after == before.(inputTokens := SaturatingAdd(before.inputTokens, amount))
         && JudgedBy(after.inputTokens, b.inputTokens, refused, event)
       case OutputTokens =>
         && after == before.(outputTokens := SaturatingAdd(before.outputTokens, amount))
         && JudgedBy(after.outputTokens, b.outputTokens, refused, event)
       case Attempts =>
         && after == before.(attempts := SaturatingAdd(before.attempts, amount))
         && JudgedBy(after.attempts, b.attempts, refused, event)
       case ToolCalls =>
         && after == before.(toolCalls := SaturatingAdd(before.toolCalls, amount))
         && JudgedBy(after.toolCalls, b.toolCalls, refused, event)
       case OutputBytes =>
         && after == before.(outputBytes := SaturatingAdd(before.outputBytes, amount))
         && JudgedBy(after.outputBytes, b.outputBytes, refused, event)
       case Cost =>
         && after == before.(cost := SaturatingAdd(before.cost, amount))
         && JudgedBy(after.cost, b.costMicrousd, refused, event)
  }

  lemma {:induction false} ChargedByName(b: Budgets, c0: PerDimension<U64>, g0: PerDimension<nat>, d: Dimension,
                                         amount: nat, c1: PerDimension<U64>, g1: PerDimension<nat>, n: nat)
    requires Charged(b, c0, g0, d, amount, c1, g1)
    ensures NamedCharge(b, c0, d, amount, c1, c1.Get(d) > Limit(b, d), LimitEvent(n, d, Limit(b, d), c1.Get(d)))
  {
  }

  class BudgetController {
    const budgets: Budgets
    var consumption: PerDimension<U64>
    var limitEvents: seq<LimitEvent>
    // amounts of the charges that were not refused
    ghost var granted: PerDimension<nat>

    ghost predicate Valid()
      reads this
    {
      AllWithin(budgets, consumption, granted) && EventsNumbered(limitEvents)
    }

    constructor (budgets: Budgets)
      ensures Valid() && this.budgets == budgets && limitEvents == []
      ensures forall d: Dimension :: consumption.Get(d) == 0 && granted.Get(d) == 0
    {
      this.budgets := budgets;
      consumption := PerDimension(0, 0, 0, 0, 0, 0, 0, 0, 0, 0);
      granted := PerDimension(0, 0, 0, 0, 0, 0, 0, 0, 0, 0);
      limitEvents := [];
    }

    /** Charges one dimension: refused exactly beyond its limit, with a numbered event. */
    method AddAndCheck(d: Dimension, amount: nat) returns (r: Result<(), BudgetError>)
      requires Valid()
      modifies this
      ensures Valid() && Charged(budgets, old(consumption), old(granted), d, amount, consumption, granted)
      ensures r.Err? <==> consumption.Get(d) > Limit(budgets, d)
      ensures limitEvents == if r.Ok? then old(limitEvents)
                             else
                               var event := LimitEvent(|old(limitEvents)|, d, Limit(budgets, d), consumption.Get(d));
                               old(limitEvents) + [event]
      ensures NamedCharge(budgets, old(consumption), d, amount, consumption, r.Err?,
                LimitEvent(|old(limitEvents)|, d, Limit(budgets, d), consumption.Get(d)))
    {
      hide PerDimension.Get, PerDimension.With, Limit, AllWithin, NamedCharge;
      var observed := SaturatingAdd(consumption.Get(d), amount);
      ghost var m := Charge(Meter(consumption.Get(d), granted.Get(d)), Limit(budgets, d), amount);
      ChargedMeans(budgets, consumption, granted, d, amount, consumption.With(d, m.consumed),
                   granted.With(d, m.granted));
      ChargedByName(budgets, consumption, granted, d, amount, consumption.With(d, m.consumed),
                    granted.With(d, m.granted), |limitEvents|);
      GetWith(consumption, d, m.consumed);
      consumption, granted := consumption.With(d, observed), granted.With(d, m.granted);
      if observed > Limit(budgets, d) {
        limitEvents := limitEvents + [LimitEvent(|limitEvents|, d, Limit(budgets, d), observed)];
        return Err(Exceeded);
      }
      return Ok(());
    }

    /** The wall clock ran out after `elapsed` milliseconds: one event per run, and no charge. */
    method RecordWallTimeout(elapsed: U64)
      requires Valid()
      modifies `limitEvents
      ensures Valid() && WallTimeReported(limitEvents)
      ensures WallTimeReported(old(limitEvents)) ==> limitEvents == old(limitEvents)
      ensures !WallTimeReported(old(limitEvents)) ==>
        exists observed: nat ::
          && limitEvents == old(limitEvents) + [LimitEvent(|old(limitEvents)|, WallTime, budgets.wallTimeMs, observed)]
          && observed >= elapsed && (budgets.wallTimeMs < U64_MAX ==> observed > budgets.wallTimeMs)
    {
      var limit := budgets.wallTimeMs;
      var next := SaturatingAdd(limit, 1);
      var observed := if elapsed > next then elapsed else next;
      if !WallTimeReported(limitEvents) {
        var event := LimitEvent(|limitEvents|, WallTime, limit, observed);
        limitEvents := limitEvents + [event];
        assert limitEvents[|limitEvents| - 1] == event;
      }
    }

    // -------------------------------------------------------------- the process wrapper

    /**
     One event of a metered process. `read` is None when the wall clock ran out first; a refused
     charge and a timeout kill the process and report the limit.
     */
    method NextEvent(read: Option<Result<ProcessEvent, ProcessError>>, elapsed: U64)
      returns (r: Result<ProcessEvent, ProcessError>)
      requires Valid()
      modifies this
      ensures Valid()
      ensures r.Ok? ==> read == Some(r)
      // exactly the bytes handed on are granted, so all bytes handed on over a run stay within the limit
      ensures granted.Get(OutputBytes) ==
        old(granted).Get(OutputBytes) + if r.Ok? && !r.value.Exited? then |r.value.bytes| else 0
      ensures Limit(budgets, OutputBytes) < U64_MAX ==> granted.Get(OutputBytes) <= Limit(budgets, OutputBytes)
      ensures consumption.Get(OutputBytes)
              == SaturatingAdd(old(consumption).Get(OutputBytes), if read.Some? then ReadBytes(Done(read.value)) else 0)
      ensures read.Some? ==>
        r == if IsOutput(read.value) && consumption.Get(OutputBytes) > Limit(budgets, OutputBytes)
             then Err(LimitExceeded) else read.value
      ensures read.None? ==> r == Err(LimitExceeded) && WallTimeReported(limitEvents)
      ensures forall d: Dimension | d != OutputBytes ::
        consumption.Get(d) == old(consumption).Get(d) && granted.Get(d) == old(granted).Get(d)
    {
      assert Limit(budgets, OutputBytes) < U64_MAX ==>
        WithinLimit(Meter(consumption.Get(OutputBytes), granted.Get(OutputBytes)), Limit(budgets, OutputBytes));
      hide PerDimension.Get, PerDimension.With, Limit, AllWithin, Charged, NamedCharge;
      if read.None? {
        RecordWallTimeout(elapsed);
        return Err(LimitExceeded);
      }
      if read.value.Err? {
        return read.value;
      }
      var event := read.value.value;
      if !event.Exited? {
        var charged := AddAndCheck(OutputBytes, |event.bytes|);
        ChargedMeans(budgets, old(consumption), old(granted), OutputBytes, |event.bytes|, consumption, granted);
        if charged.Err? {
          return Err(LimitExceeded);
        }
      }
      return Ok(event);
    }

    /** One read of a turn. The kill that follows a refusal or a timeout is an await of its own. */
    method Hear(raw: RawRead) returns (event: Read)
      requires Valid()
      modifies this
      ensures Valid() && OnlyOutput(budgets, old(consumption), old(granted), consumption, granted, ReadBytes(event))
      ensures Metered([event], consumption.Get(OutputBytes))
              == MeterOne(raw, old(consumption).Get(OutputBytes), Limit(budgets, OutputBytes))
      ensures raw.Expired? ==> WallTimeReported(limitEvents)
    {
      assert Limit(budgets, OutputBytes) < U64_MAX ==>
        WithinLimit(Meter(consumption.Get(OutputBytes), granted.Get(OutputBytes)), Limit(budgets, OutputBytes));
      hide PerDimension.Get, PerDimension.With, Limit, AllWithin, EventsNumbered;
      match raw
      case Unread(dropped) => event := if dropped then Dropped else Interrupted;
      case Expired(elapsed, kill) =>
        var r := NextEvent(None, elapsed);
        event := Killing(r, kill);
      case Arrived(result, kill) =>
        var r := NextEvent(Some(result), 0);
        event := if r == result then Done(r) else Killing(r, kill);
    }

    /** Meters reads one by one for as long as the turn listens. */
    method HearAll(raw: seq<RawRead>) returns (heard: seq<Read>)
      requires Valid()
      modifies this
      ensures Valid() && OnlyOutput(budgets, old(consumption), old(granted), consumption, granted, HeardBytes(heard))
      ensures Metered(heard, consumption.Get(OutputBytes))
              == MeterReads(raw, old(consumption).Get(OutputBytes), Limit(budgets, OutputBytes), [])
    {
      hide OnlyOutput, MeterReads, MeterOne, HeardBytes, ReadBytes, After, AllWithin, EventsNumbered, Limit;
      hide PerDimension.Get, Metering;
      heard := [];
      var text := [];
      ghost var limit := Limit(budgets, OutputBytes);
      ghost var whole := MeterReads(raw, consumption.Get(OutputBytes), limit, []);
      NothingHeard(budgets, consumption, granted);
      MeteringBegins(raw, consumption.Get(OutputBytes), limit);
      for i := 0 to |raw|
        invariant Valid() && Metering(whole, heard, raw[i..], consumption.Get(OutputBytes), limit, text)
        invariant OnlyOutput(budgets, old(consumption), old(granted), consumption, granted, HeardBytes(heard))
      {
        ghost var c, g := consumption, granted;
        var event := Hear(raw[i]);
        HeardMore(budgets, old(consumption), old(granted), c, g, consumption, granted, heard, event);
        assert raw[i..][0] == raw[i] && raw[i..][1..] == raw[i + 1..];
        MeteringStep(whole, heard, raw[i..], c.Get(OutputBytes), limit, text);
        heard := heard + [event];
        var next := After(event, text);
        if next.None? {
          return;
        }
        text := next.value;
      }
      MeteringEnds(whole, heard, raw[|raw|..], consumption.Get(OutputBytes), limit, text);
    }
  }

  /** How one read of a metered process ends, before it is metered. */
  datatype RawRead =
    | Unread(dropped: bool)                                     // dropped by the caller, or cancelled
    | Expired(elapsed: U64, kill: Await<()>)                    // the wall clock ran out first
    | Arrived(result: Result<ProcessEvent, ProcessError>, kill: Await<()>)

  function Killing(r: Result<ProcessEvent, ProcessError>, kill: Await<()>): Read {
    match kill
    case Done(_) => Done(r)
    case Interrupted => Interrupted
    case Dropped => Dropped
  }

  /** What is heard of some reads, and what has been consumed behind them. */
  datatype Metered = Metered(heard: seq<Read>, consumed: U64)

  /** The meaning of one metered read: output beyond the limit and a timeout become a limit error, once killed. */
  function MeterOne(raw: RawRead, consumed: U64, limit: U64): Metered {
    match raw
    case Unread(dropped) => Metered([if dropped then Dropped else Interrupted], consumed)
    case Expired(_, kill) => Metered([Killing(Err(LimitExceeded), kill)], consumed)
    case Arrived(result, kill) =>
      var now := SaturatingAdd(consumed, ReadBytes(Done(result)));
      if IsOutput(result) && now > limit then Metered([Killing(Err(LimitExceeded), kill)], now)
      else Metered([Done(result)], now)
  }

  /** The meaning of metering a turn's reads, which it makes until it has heard enough. */
  function MeterReads(raw: seq<RawRead>, consumed: U64, limit: U64, text: Bytes): Metered
    decreases |raw|
  {
    if raw == [] then Metered([], consumed)
    else
      var first := MeterOne(raw[0], consumed, limit);
      var next := After(first.heard[0], text);
      if next.None? then first else Prepended(first.heard, MeterReads(raw[1..], first.consumed, limit, next.value))
  }

  /** One metered read in plain terms: within the limit it is passed on, beyond it the process is killed. */
  lemma {:induction false} ReadInPlainTerms(raw: RawRead, consumed: U64, limit: U64)
    ensures var m := MeterOne(raw, consumed, limit);
            && |m.heard| == 1
            && match raw
               case Unread(dropped) =>
                 m.consumed == consumed && m.heard[0] == (if dropped then Dropped else Interrupted)
               case Expired(_, kill) => m.consumed == consumed && CutOff(kill, m.heard[0])
               case Arrived(Ok(Exited(_)), _) => m.consumed == consumed && m.heard[0] == Done(raw.result)
               case Arrived(Err(_), _) => m.consumed == consumed && m.heard[0] == Done(raw.result)
               case Arrived(Ok(event), kill) =>
                 && m.consumed == SaturatingAdd(consumed, |event.bytes|)
                 && if m.consumed <= limit then m.heard[0] == Done(raw.result) else CutOff(kill, m.heard[0])
  {
  }

  /** The limit error in place of a read, unless the kill before it was cancelled or dropped. */
  predicate CutOff(kill: Await<()>, heard: Read) {
    && (kill.Done? ==> heard == Done(Err(LimitExceeded)))
    && (kill.Interrupted? ==> heard == Interrupted)
    && (kill.Dropped? ==> heard == Dropped)
  }

  function Prepended(heard: seq<Read>, m: Metered): Metered {
    Metered(heard + m.heard, m.consumed)
  }

  /** What is heard was reported: output as it arrived, or a limit error in place of output that went beyond. */
  predicate CameFrom(raw: RawRead, event: Read) {
    match raw
    case Unread(dropped) => event == if dropped then Dropped else Interrupted
    case Expired(_, kill) => event == Killing(Err(LimitExceeded), kill)
    case Arrived(result, kill) =>
      event == Done(result) || (IsOutput(result) && event == Killing(Err(LimitExceeded), kill))
  }

  function RawBytes(raw: seq<RawRead>): nat {
    if raw == [] then 0
    else (if raw[0].Arrived? then ReadBytes(Done(raw[0].result)) else 0) + RawBytes(raw[1..])
  }

  function ReadBytes(event: Read): nat {
    if event.Done? && IsOutput(event.value) then |event.value.value.bytes| else 0
  }

  /** All bytes of both streams that a turn heard. */
  function HeardBytes(heard: seq<Read>): nat {
    if heard == [] then 0 else ReadBytes(heard[0]) + HeardBytes(heard[1..])
  }

  lemma {:induction false} HeardAppend(heard: seq<Read>, event: Read)
    ensures HeardBytes(heard + [event]) == HeardBytes(heard) + ReadBytes(event)
  {
    if heard == [] {
      assert ([] + [event])[1..] == [];
    } else {
      HeardAppend(heard[1..], event);
      assert (heard + [event])[1..] == heard[1..] + [event];
    }
  }

  /** The standard output collected once `event` is read, None when it ends the listening. */
  function After(event: Read, text: Bytes): Option<Bytes> {
    match event
    case Done(Ok(Stderr(_))) => Some(text)
    case Done(Ok(Stdout(bytes))) =>
      if |text| + |bytes| > MAX_FRAME_BYTES || NEWLINE in text + bytes then None else Some(text + bytes)
    case _ => None
  }

  function Buffered(heard: seq<Read>, text: Bytes): Option<Bytes>
    decreases |heard|
  {
    if heard == [] then Some(text)
    else
      var next := After(heard[0], text);
      if next.None? then None else Buffered(heard[1..], next.value)
  }

  /** A turn that has heard enough makes no difference to later reads; one that has not is still listening. */
  lemma {:induction false} ListensWhileBuffered(heard: seq<Read>, more: seq<Read>, text: Bytes, id: string,
                                                parse: Parse)
    ensures Buffered(heard, text).None? ==> Listen(heard + more, text, id, parse) == Listen(heard, text, id, parse)
    ensures Buffered(heard, text).Some? ==> Listen(heard, text, id, parse).end == Abandoned
    decreases |heard|
  {
    if heard != [] {
      assert (heard + more)[0] == heard[0] && (heard + more)[1..] == heard[1..] + more;
      var next := After(heard[0], text);
      if next.Some? {
        ListensWhileBuffered(heard[1..], more, next.value, id, parse);
      }
    }
  }

  // ---------------------------------------------------------------- metering a turn's reads

  /** Where the metering loop stands: what is heard, and what the other reads will bring. */
  ghost predicate Metering(whole: Metered, heard: seq<Read>, rest: seq<RawRead>, consumed: U64, limit: U64,
                           text: Bytes) {
    whole == Prepended(heard, MeterReads(rest, consumed, limit, text))
  }

  lemma {:induction false} MeteringBegins(raw: seq<RawRead>, consumed: U64, limit: U64)
    ensures Metering(MeterReads(raw, consumed, limit, []), [], raw[0..], consumed, limit, [])
  {
    assert raw[0..] == raw;
    var m := MeterReads(raw, consumed, limit, []);
    assert [] + m.heard == m.heard;
  }

  lemma {:induction false} MeteringStep(whole: Metered, heard: seq<Read>, rest: seq<RawRead>, consumed: U64, limit: U64,
                                        text: Bytes)
    requires rest != [] && Metering(whole, heard, rest, consumed, limit, text)
    ensures var m := MeterOne(rest[0], consumed, limit);
            var next := After(m.heard[0], text);
            && |m.heard| == 1
            && (next.None? ==> whole == Metered(heard + m.heard, m.consumed))
            && (next.Some? ==> Metering(whole, heard + m.heard, rest[1..], m.consumed, limit, next.value))
  {
    var m := MeterOne(rest[0], consumed, limit);
    var next := After(m.heard[0], text);
    if next.Some? {
      var more := MeterReads(rest[1..], m.consumed, limit, next.value);
      assert heard + (m.heard + more.heard) == (heard + m.heard) + more.heard;
    }
  }

  lemma {:induction false} MeteringEnds(whole: Metered, heard: seq<Read>, rest: seq<RawRead>, consumed: U64, limit: U64,
                                        text: Bytes)
    requires rest == [] && Metering(whole, heard, rest, consumed, limit, text)
    ensures whole == Metered(heard, consumed)
  {
    assert heard + [] == heard;
  }

  /** Read by read, everything heard came from the process. */
  predicate AllCameFrom(raw: seq<RawRead>, heard: seq<Read>) {
    |heard| <= |raw| && forall i | 0 <= i < |heard| :: CameFrom(raw[i], heard[i])
  }

  /**
   What a metered turn hears came from the process, read by read; it reads on exactly until it has heard
   enough; and every byte it took is charged, whether it was granted or not.
   */
  lemma {:induction false} MeteredFaithfully(raw: seq<RawRead>, consumed: U64, limit: U64, text: Bytes)
    ensures var m := MeterReads(raw, consumed, limit, text);
            && AllCameFrom(raw, m.heard)
            && (|m.heard| < |raw| ==> Buffered(m.heard, text).None?)
            && (m.heard != [] ==> Buffered(m.heard[..|m.heard| - 1], text).Some?)
            && m.consumed == SaturatingAdd(consumed, RawBytes(raw[..|m.heard|]))
    decreases |raw|
  {
    if raw != [] {
      var first := MeterOne(raw[0], consumed, limit);
      var e := first.heard[0];
      var next := After(e, text);
      assert raw[..1][0] == raw[0] && raw[..1][1..] == [];
      assert RawBytes(raw[..1]) == RawBytes([raw[0]]);
      if next.None? {
        assert [e][1..] == [] && [e][..0] == [];
      } else {
        MeteredFaithfully(raw[1..], first.consumed, limit, next.value);
        MeteredTail(raw, consumed, limit, text, e, MeterReads(raw[1..], first.consumed, limit, next.value));
      }
    }
  }

  lemma {:induction false} MeteredTail(raw: seq<RawRead>, consumed: U64, limit: U64, text: Bytes, e: Read,
                                       more: Metered)
    requires raw != [] && After(e, text).Some? && CameFrom(raw[0], e)
    requires var next := After(e, text).value; var first := MeterOne(raw[0], consumed, limit);
             && first.heard == [e]
             && AllCameFrom(raw[1..], more.heard)
             && (|more.heard| < |raw[1..]| ==> Buffered(more.heard, next).None?)
             && (more.heard != [] ==> Buffered(more.heard[..|more.heard| - 1], next).Some?)
             && more.consumed == SaturatingAdd(first.consumed, RawBytes(raw[1..][..|more.heard|]))
    ensures var m := Prepended([e], more);
            && AllCameFrom(raw, m.heard)
            && (|m.heard| < |raw| ==> Buffered(m.heard, text).None?)
            && (m.heard != [] ==> Buffered(m.heard[..|m.heard| - 1], text).Some?)
            && m.consumed == SaturatingAdd(consumed, RawBytes(raw[..|m.heard|]))
  {
    var m, n := Prepended([e], more), |more.heard|;
    assert m.heard[0] == e && m.heard[1..] == more.heard;
    forall i | 0 <= i < |m.heard| ensures CameFrom(raw[i], m.heard[i]) {
      if i > 0 {
        assert raw[i] == raw[1..][i - 1] && m.heard[i] == more.heard[i - 1];
      }
    }
    assert raw[..n + 1][0] == raw[0] && raw[..n + 1][1..] == raw[1..][..n];
    if n > 0 {
      assert m.heard[..n][0] == e && m.heard[..n][1..] == more.heard[..n - 1];
    } else {
      assert m.heard[..0] == [];
    }
    hide MeterReads, CameFrom, After;
  }

  /** Output that is heard stays within what was left of the limit. */
  lemma {:induction false} MeteredWithin(raw: seq<RawRead>, consumed: U64, limit: U64, text: Bytes)
    requires limit < U64_MAX
    ensures HeardBytes(MeterReads(raw, consumed, limit, text).heard)
            <= if consumed <= limit then limit - consumed else 0
    decreases |raw|
  {
    if raw != [] {
      var first := MeterOne(raw[0], consumed, limit);
      var e := first.heard[0];
      var next := After(e, text);
      assert [e][1..] == [] && HeardBytes([]) == 0;
      if next.Some? {
        MeteredWithin(raw[1..], first.consumed, limit, next.value);
        var more := MeterReads(raw[1..], first.consumed, limit, next.value);
        assert ([e] + more.heard)[0] == e && ([e] + more.heard)[1..] == more.heard;
      }
    }
  }

  /** Only output was charged, and `bytes` of it granted. */
  ghost predicate OnlyOutput(b: Budgets, c0: PerDimension<U64>, g0: PerDimension<nat>, c1: PerDimension<U64>,
                             g1: PerDimension<nat>, bytes: nat)
  {
    && (forall d: Dimension | d != OutputBytes :: c1.Get(d) == c0.Get(d) && g1.Get(d) == g0.Get(d))
    && g1.Get(OutputBytes) == g0.Get(OutputBytes) + bytes
    && (Limit(b, OutputBytes) < U64_MAX ==> g1.Get(OutputBytes) <= Limit(b, OutputBytes))
  }

  lemma {:induction false} NothingHeard(b: Budgets, c: PerDimension<U64>, g: PerDimension<nat>)
    requires AllWithin(b, c, g)
    ensures OnlyOutput(b, c, g, c, g, HeardBytes([]))
  {
    assert Limit(b, OutputBytes) < U64_MAX ==>
      WithinLimit(Meter(c.Get(OutputBytes), g.Get(OutputBytes)), Limit(b, OutputBytes));
  }

  lemma {:induction false} HeardMore(b: Budgets, c0: PerDimension<U64>, g0: PerDimension<nat>, c1: PerDimension<U64>,
                                     g1: PerDimension<nat>, c2: PerDimension<U64>, g2: PerDimension<nat>,
                                     heard: seq<Read>, event: Read)
    requires OnlyOutput(b, c0, g0, c1, g1, HeardBytes(heard)) && OnlyOutput(b, c1, g1, c2, g2, ReadBytes(event))
    ensures OnlyOutput(b, c0, g0, c2, g2, HeardBytes(heard + [event]))
  {
    HeardAppend(heard, event);
    hide PerDimension.Get, Limit, HeardBytes;
  }

  predicate WallTimeReported(events: seq<LimitEvent>) {
    exists i :: 0 <= i < |events| && events[i].dimension == WallTime
  }
}
