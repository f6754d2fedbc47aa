/**
 The ordered, bounded JSONL exporter and the keys it orders records by. An envelope is given by what
 its verification, its key and its serialization yield; the digest of the stream is a parameter.
 */
module Export {
  import opened Integers
  import opened Redaction
  import opened Process
  import opened Ordering

  const MAX_RECORD_BYTES: nat := 16 * 1024 * 1024
  const MAX_TOTAL_BYTES: nat := 1024 * 1024 * 1024

  // ---------------------------------------------------------------- sort keys

  /** The identity of a record. Pool keys and digests are 64 characters. */
  datatype RecordId =
    | PublicReplay(id: string)
    | OperatorReplay(id: string)
    | TournamentResult(id: string)
    | Standings(id: string)
    | Ratings(pool: string, period: nat)
    | PublicAnalytics(id: string)
    | OperatorAnalytics(id: string)

  predicate ValidId(r: RecordId) {
    r.Ratings? ==> |r.pool| == 64 && r.period <= U64_MAX
  }

  /** Position of the kind in the stream, and the text between its number and the identity. */
  function Rank(r: RecordId): (n: nat)
    ensures 1 <= n <= 7
  {
    match r
    case PublicReplay(_) => 1
    case OperatorReplay(_) => 2
    case TournamentResult(_) => 3
    case Standings(_) => 4
    case Ratings(_, _) => 5
    case PublicAnalytics(_) => 6
    case OperatorAnalytics(_) => 7
  }

  function Label(rank: nat): string {
    match rank
    case 1 => ":public-replay:"
    case 2 => ":operator-replay:"
    case 3 => ":tournament-result:"
    case 4 => ":standings:"
    case 5 => ":ratings:"
    case 6 => ":public-analytics:"
    case _ => ":operator-analytics:"
  }

  function Digit(n: nat): char
    requires n < 10
  {
    '0' + n as char
  }

  /** Decimal digits, zero-padded to a width. */
  function Padded(n: nat, width: nat): (s: string)
    ensures |s| == width
    decreases width
  {
    if width == 0 then "" else Padded(n / 10, width - 1) + [Digit(n % 10)]
  }

  function Identity(r: RecordId): string {
    match r
    case Ratings(pool, period) => pool + ":" + Padded(period, 20)
    case _ => r.id
  }

  function SortKey(r: RecordId): string {
    ['0', Digit(Rank(r))] + (Label(Rank(r)) + Identity(r))
  }

  /** The number a row of decimal digits stands for. */
  function Decimal(s: string): nat
    requires forall i | 0 <= i < |s| :: '0' <= s[i] <= '9'
  {
    if s == [] then 0 else 10 * Decimal(s[..|s| - 1]) + (s[|s| - 1] as int - '0' as int)
  }

  /** Padding writes the number in decimal. */
  lemma {:induction false} PaddedIsDecimal(n: nat, width: nat)
    requires n < Power(width)
    ensures forall i | 0 <= i < width :: '0' <= Padded(n, width)[i] <= '9'
    ensures Decimal(Padded(n, width)) == n
    decreases width
  {
    if width > 0 {
      PaddedIsDecimal(n / 10, width - 1);
      var s := Padded(n, width);
      assert s[..width - 1] == Padded(n / 10, width - 1);
    }
  }

  /** What stands in front of the identity in a key. */
  function Head(r: RecordId): string {
    match r
    case PublicReplay(_) => "01" + ":public-replay:"
    case OperatorReplay(_) => "02" + ":operator-replay:"
    case TournamentResult(_) => "03" + ":tournament-result:"
    case Standings(_) => "04" + ":standings:"
    case Ratings(_, _) => "05" + ":ratings:"
    case PublicAnalytics(_) => "06" + ":public-analytics:"
    case OperatorAnalytics(_) => "07" + ":operator-analytics:"
  }

  /** Keys as they are written: the head and the identity; for ratings, the pool and the period in 20 digits. */
  lemma {:induction false} KeysAreWritten(r: RecordId)
    requires ValidId(r)
    ensures !r.Ratings? ==> SortKey(r) == Head(r) + r.id
    ensures r.Ratings? ==>
      exists digits ::
        && SortKey(r) == Head(r) + (r.pool + ":" + digits)
        && |digits| == 20 && (forall i | 0 <= i < 20 :: '0' <= digits[i] <= '9') && Decimal(digits) == r.period
  {
    KeyHead(r);
    hide SortKey, Head;
    if r.Ratings? {
      TwentyDigits();
      PaddedIsDecimal(r.period, 20);
    }
  }

  lemma {:induction false} KeyHead(r: RecordId)
    ensures SortKey(r) == Head(r) + Identity(r)
  {
    Regrouped(['0', Digit(Rank(r))], Label(Rank(r)), Identity(r));
    match r
    case PublicReplay(_) => assert ['0', Digit(1)] == "01";
    case OperatorReplay(_) => assert ['0', Digit(2)] == "02";
    case TournamentResult(_) => assert ['0', Digit(3)] == "03";
    case Standings(_) => assert ['0', Digit(4)] == "04";
    case Ratings(_, _) => assert ['0', Digit(5)] == "05";
    case PublicAnalytics(_) => assert ['0', Digit(6)] == "06";
    case OperatorAnalytics(_) => assert ['0', Digit(7)] == "07";
  }

  lemma {:induction false} Regrouped(a: string, b: string, c: string)
    ensures a + (b + c) == (a + b) + c
  {
  }

  // ---------------------------------------------------------------- what the order means

  function Power(width: nat): nat {
    if width == 0 then 1 else 10 * Power(width - 1)
  }

  lemma {:induction false} DigitOrder(a: nat, b: nat)
    requires a < 10 && b < 10
    ensures TextLess([Digit(a)], [Digit(b)]) <==> a < b
    ensures Digit(a) == Digit(b) <==> a == b
  {
    assert TextLeq([Digit(a)], [Digit(b)]) <==> Digit(a) <= Digit(b);
  }

  /** Zero-padded numbers compare as numbers. */
  lemma {:induction false} PaddedOrder(a: nat, b: nat, width: nat)
    requires a < Power(width) && b < Power(width)
    ensures TextLess(Padded(a, width), Padded(b, width)) <==> a < b
    ensures Padded(a, width) == Padded(b, width) <==> a == b
    decreases width
  {
    if width > 0 {
      PaddedOrder(a / 10, b / 10, width - 1);
      DigitOrder(a % 10, b % 10);
      var x, y := Padded(a / 10, width - 1), Padded(b / 10, width - 1);
      TextSameLength(x, y, [Digit(a % 10)], [Digit(b % 10)]);
      LastDigit(x, y, Digit(a % 10), Digit(b % 10));
      assert a == 10 * (a / 10) + a % 10 && b == 10 * (b / 10) + b % 10;
      hide TextLess, Padded;
    }
  }

  lemma {:induction false} LastDigit(x: string, y: string, c: char, d: char)
    ensures x + [c] == y + [d] <==> x == y && c == d
  {
    if x + [c] == y + [d] {
      assert x == (x + [c])[..|x + [c]| - 1] == (y + [d])[..|y + [d]| - 1] == y;
      assert (x + [c])[|x|] == (y + [d])[|y|];
    }
  }

  lemma {:induction false} TwentyDigits()
    ensures U64_MAX < Power(20)
  {
    assert Power(4) == 10000;
    PowerSum(4, 4);
    PowerSum(8, 8);
    PowerSum(16, 4);
  }

  lemma {:induction false} PowerSum(a: nat, b: nat)
    ensures Power(a + b) == Power(a) * Power(b)
    decreases b
  {
    if b > 0 {
      PowerSum(a, b - 1);
      assert 10 * (Power(a) * Power(b - 1)) == Power(a) * (10 * Power(b - 1));
    }
  }

  /** Rating keys order by pool, then by the number of the period, for all u64 periods. */
  lemma {:induction false} RatingKeyOrder(a: RecordId, b: RecordId)
    requires ValidId(a) && ValidId(b) && a.Ratings? && b.Ratings?
    ensures TextLess(SortKey(a), SortKey(b)) <==> TextLess(a.pool, b.pool) || (a.pool == b.pool && a.period < b.period)
  {
    hide TextLess, TextLeq, Padded, Power, SortKey;
    TwentyDigits();
    PaddedOrder(a.period, b.period, 20);
    PoolThenPeriod(a.pool, b.pool, Padded(a.period, 20), Padded(b.period, 20));
    KeyOrder(a, b);
  }

  lemma {:induction false} PoolThenPeriod(p: string, q: string, s: string, t: string)
    requires |p| == |q|
    ensures TextLess(p + ":" + s, q + ":" + t) <==> TextLess(p, q) || (p == q && TextLess(s, t))
  {
    hide TextLess, TextLeq;
    assert p + ":" + s == p + (":" + s) && q + ":" + t == q + (":" + t);
    TextSameLength(p, q, ":" + s, ":" + t);
    TextPrefix(":", s, t);
  }

  /** Keys order by kind, then by identity: the label in between never decides. */
  lemma {:induction false} KeyOrder(a: RecordId, b: RecordId)
    ensures TextLess(SortKey(a), SortKey(b))
            <==> Rank(a) < Rank(b) || (Rank(a) == Rank(b) && TextLess(Identity(a), Identity(b)))
  {
    var heads := (['0', Digit(Rank(a))], ['0', Digit(Rank(b))]);
    var tails := (Label(Rank(a)) + Identity(a), Label(Rank(b)) + Identity(b));
    TextSameLength(heads.0, heads.1, tails.0, tails.1);
    assert heads.0 == ['0'] + [Digit(Rank(a))] && heads.1 == ['0'] + [Digit(Rank(b))];
    TextPrefix(['0'], [Digit(Rank(a))], [Digit(Rank(b))]);
    DigitOrder(Rank(a), Rank(b));
    hide TextLess;
    if Rank(a) == Rank(b) {
      TextPrefix(Label(Rank(a)), Identity(a), Identity(b));
    }
  }

  /** The kinds in the order of the stream. */
  predicate KindBefore(a: RecordId, b: RecordId) {
    match a
    case PublicReplay(_) => !b.PublicReplay?
    case OperatorReplay(_) => !b.PublicReplay? && !b.OperatorReplay?
    case TournamentResult(_) => b.Standings? || b.Ratings? || b.PublicAnalytics? || b.OperatorAnalytics?
    case Standings(_) => b.Ratings? || b.PublicAnalytics? || b.OperatorAnalytics?
    case Ratings(_, _) => b.PublicAnalytics? || b.OperatorAnalytics?
    case PublicAnalytics(_) => b.OperatorAnalytics?
    case OperatorAnalytics(_) => false
  }

  /** Records of an earlier kind come first whatever their identity, and replays come before everything else. */
  lemma {:induction false} KindsInOrder(a: RecordId, b: RecordId)
    ensures KindBefore(a, b) ==> TextLess(SortKey(a), SortKey(b))
    ensures !KindBefore(a, b) && !KindBefore(b, a) && !a.Ratings? ==>
      (TextLess(SortKey(a), SortKey(b)) <==> !b.Ratings? && TextLess(a.id, b.id))
  {
    KeyOrder(a, b);
    hide SortKey, TextLess;
  }

  lemma {:induction false} NotLessIsEqual(s: string, t: string)
    ensures s == t <==> !TextLess(s, t) && !TextLess(t, s)
  {
    TextTotal(s, t);
  }

  /** Different records have different keys. */
  lemma {:induction false} KeyIdentifies(a: RecordId, b: RecordId)
    requires ValidId(a) && ValidId(b) && SortKey(a) == SortKey(b)
    ensures a == b
  {
    NotLessIsEqual(SortKey(a), SortKey(b));
    KeyOrder(a, b);
    KeyOrder(b, a);
    hide TextLess, SortKey, Padded;
    NotLessIsEqual(Identity(a), Identity(b));
    if a.Ratings? {
      RatingKeyOrder(a, b);
      RatingKeyOrder(b, a);
      NotLessIsEqual(a.pool, b.pool);
    }
  }

  // ---------------------------------------------------------------- the exporter

  datatype ExportError =
    | InvalidInput | IncompatibleSchema | PrivacyViolation | ChecksumMismatch | OutOfOrder | RecordTooLarge
    | TotalTooLarge | Serialization | Io

  /** An envelope: how its own verification ends, the record it carries, and its serialization. */
  datatype Envelope = Envelope(verified: Result<(), ExportError>, record: RecordId, json: Result<Bytes, ExportError>)

  datatype Summary = Summary(records: nat, bytes: nat, checksum: string)

  function Concat(lines: seq<Bytes>): Bytes {
    if lines == [] then [] else Concat(lines[..|lines| - 1]) + lines[|lines| - 1]
  }

  lemma {:induction false} ConcatMore(lines: seq<Bytes>, line: Bytes)
    ensures Concat(lines + [line]) == Concat(lines) + line
  {
    assert (lines + [line])[..|lines|] == lines;
  }

  predicate Increasing(records: seq<RecordId>) {
    forall i, j | 0 <= i < j < |records| :: TextLess(SortKey(records[i]), SortKey(records[j]))
  }

  lemma {:induction false} IncreasingMore(records: seq<RecordId>, r: RecordId)
    requires Increasing(records)
    requires records != [] ==> TextLess(SortKey(records[|records| - 1]), SortKey(r))
    ensures Increasing(records + [r])
  {
    var n := |records|;
    forall i | 0 <= i < n ensures TextLess(SortKey(records[i]), SortKey(r)) {
      if i < n - 1 {
        TextLessTransitive(SortKey(records[i]), SortKey(records[n - 1]), SortKey(r));
      }
    }
  }

  /** In an ordered stream records come by kind, then by identity, rating periods by number, and none comes twice. */
  lemma {:induction false} StreamOrder(records: seq<RecordId>, i: nat, j: nat)
    requires Increasing(records) && i < j < |records| && ValidId(records[i]) && ValidId(records[j])
    ensures var a, b := records[i], records[j];
            && a != b
            && Rank(a) <= Rank(b)
            && (a.Ratings? && b.Ratings? ==> TextLess(a.pool, b.pool) || (a.pool == b.pool && a.period < b.period))
            && (Rank(a) == Rank(b) && !a.Ratings? ==> TextLess(a.id, b.id))
  {
    var a, b := records[i], records[j];
    assert TextLess(SortKey(a), SortKey(b));
    KeyOrder(a, b);
    if a.Ratings? && b.Ratings? {
      RatingKeyOrder(a, b);
    }
  }

  class JsonlExporter {
    const maxRecordBytes: nat
    const maxTotalBytes: nat
    var output: Bytes
    var totalBytes: nat
    var recordCount: nat
    var lastSortKey: Option<string>
    var digested: Bytes
    // what was written successfully
    ghost var records: seq<RecordId>
    ghost var lines: seq<Bytes>
    ghost var failed: bool

    ghost predicate Valid()
      reads this
    {
      && 0 < maxRecordBytes <= MAX_RECORD_BYTES && 0 < maxTotalBytes <= MAX_TOTAL_BYTES
      && |lines| == |records| == recordCount
      && digested == Concat(lines) && totalBytes == |digested| <= maxTotalBytes
      && recordCount <= totalBytes
      && Increasing(records)
      && (lastSortKey.None? <==> records == [])
      && (lastSortKey.Some? ==> lastSortKey.value == SortKey(records[|records| - 1]))
      && (!failed ==> output == digested)
    }

    constructor (maxRecordBytes: nat, maxTotalBytes: nat)
      requires 0 < maxRecordBytes <= MAX_RECORD_BYTES && 0 < maxTotalBytes <= MAX_TOTAL_BYTES
      ensures Valid() && output == [] && records == [] && lines == [] && !failed
      ensures this.maxRecordBytes == maxRecordBytes && this.maxTotalBytes == maxTotalBytes
    {
      this.maxRecordBytes, this.maxTotalBytes := maxRecordBytes, maxTotalBytes;
      output, digested, lastSortKey, totalBytes, recordCount := [], [], None, 0, 0;
      records, lines, failed := [], [], false;
    }

    /** The refusal an envelope meets before anything is written, if any. */
    function Refusal(e: Envelope): (r: Option<ExportError>)
      reads this
    {
      if e.verified.Err? then Some(e.verified.error)
      else if lastSortKey.Some? && TextLeq(SortKey(e.record), lastSortKey.value) then Some(OutOfOrder)
      else if e.json.Err? then Some(e.json.error)
      else if |e.json.value| > maxRecordBytes then Some(RecordTooLarge)
      else if totalBytes + |e.json.value| + 1 > maxTotalBytes then Some(TotalTooLarge)
      else None
    }

    /**
     Writes one line. `io` is None when the writer takes all of it, else how many bytes it took before
     it failed. A rejected write leaves the accounting as it was; the counter can never overflow.
     */
    method Write(e: Envelope, io: Option<nat>) returns (r: Result<(), ExportError>)
      requires Valid()
      modifies this
      ensures Valid()
      ensures r.Err? ==>
        totalBytes == old(totalBytes) && recordCount == old(recordCount) && digested == old(digested)
        && lastSortKey == old(lastSortKey) && records == old(records) && lines == old(lines)
      ensures old(Refusal(e)).Some? ==> r == Err(old(Refusal(e)).value) && unchanged(this)
      ensures old(Refusal(e)).None? ==> (r.Ok? <==> io.None?) && (r.Err? ==> r.error == Io)
      // which is, written out: what an accepted envelope is, and which error every other one meets
      ensures r.Ok? <==>
        && e.verified.Ok? && e.json.Ok? && io.None?
        && (old(records) == [] || TextLess(SortKey(old(records)[|old(records)| - 1]), SortKey(e.record)))
        && |e.json.value| <= maxRecordBytes && old(totalBytes) + |e.json.value| + 1 <= maxTotalBytes
      ensures e.verified.Err? ==> r == Err(e.verified.error)
      ensures r == Err(OutOfOrder) || e.verified.Err? || old(records) == []
              || TextLess(SortKey(old(records)[|old(records)| - 1]), SortKey(e.record))
      ensures var inOrder :=
                old(records) == [] || TextLess(SortKey(old(records)[|old(records)| - 1]), SortKey(e.record));
              e.verified.Ok? && inOrder ==>
                r == if e.json.Err? then Err(e.json.error)
                     else if |e.json.value| > maxRecordBytes then Err(RecordTooLarge)
                     else if old(totalBytes) + |e.json.value| + 1 > maxTotalBytes then Err(TotalTooLarge)
                     else if io.Some? then Err(Io) else Ok(())
      ensures r.Ok? ==>
        && records == old(records) + [e.record] && lines == old(lines) + [e.json.value + [NEWLINE]]
        && output == old(output) + e.json.value + [NEWLINE] && failed == old(failed)
    {
      hide SortKey, Increasing, Concat, TextLess, TextLeq;
      if lastSortKey.Some? {
        NotLeqIsLess(SortKey(e.record), lastSortKey.value);
      }
      var refusal := Refusal(e);
      if refusal.Some? {
        return Err(refusal.value);
      }
      var bytes := e.json.value + [NEWLINE];
      var total := totalBytes + |bytes|;
      if io.Some? {
        output := output + bytes[..if io.value <= |bytes| then io.value else |bytes|];
        failed := true;
        return Err(Io);
      }
      assert recordCount + 1 <= U64_MAX;
      IncreasingMore(records, e.record);
      ConcatMore(lines, bytes);
      output := output + bytes;
      digested := digested + bytes;
      totalBytes := total;
      recordCount := recordCount + 1;
      lastSortKey := Some(SortKey(e.record));
      records, lines := records + [e.record], lines + [bytes];
      return Ok(());
    }

    /** The summary counts and digests exactly the lines written. */
    method Finish(flushes: bool, sha256: Bytes -> string) returns (r: Result<Summary, ExportError>)
      requires Valid()
      ensures r == if flushes then Ok(Summary(|lines|, |Concat(lines)|, sha256(Concat(lines)))) else Err(Io)
      ensures r.Ok? && !failed ==> r.value.bytes == |output| && r.value.checksum == sha256(output)
    {
      if !flushes {
        return Err(Io);
      }
      return Ok(Summary(recordCount, totalBytes, sha256(digested)));
    }
  }

  lemma {:induction false} NotLeqIsLess(a: string, b: string)
    ensures !TextLeq(a, b) <==> TextLess(b, a)
  {
    TextTotal(a, b);
  }

  // ---------------------------------------------------------------- whole exports

  /** An exporter is made exactly within the documented ceilings. */
  method NewExporter(maxRecordBytes: nat, maxTotalBytes: nat) returns (r: Result<JsonlExporter, ExportError>)
    ensures r.Ok? <==> 0 < maxRecordBytes <= 16_777_216 && 0 < maxTotalBytes <= 1_073_741_824
    ensures r.Err? ==> r.error == InvalidInput
    ensures r.Ok? ==>
      && fresh(r.value) && r.value.Valid() && r.value.output == [] && r.value.records == [] && !r.value.failed
      && r.value.maxRecordBytes == maxRecordBytes && r.value.maxTotalBytes == maxTotalBytes
  {
    if maxRecordBytes == 0 || maxRecordBytes > MAX_RECORD_BYTES || maxTotalBytes == 0
      || maxTotalBytes > MAX_TOTAL_BYTES
    {
      return Err(InvalidInput);
    }
    var exporter := new JsonlExporter(maxRecordBytes, maxTotalBytes);
    return Ok(exporter);
  }

  /** Every envelope is sound and no longer than a record may be. */
  predicate AllSound(es: seq<Envelope>, maxRecordBytes: nat) {
    forall i | 0 <= i < |es| :: es[i].verified.Ok? && es[i].json.Ok? && |es[i].json.value| <= maxRecordBytes
  }

  predicate KeysIncrease(es: seq<Envelope>) {
    forall i | 0 < i < |es| :: TextLess(SortKey(es[i - 1].record), SortKey(es[i].record))
  }

  /** All lines one behind the other. */
  function LinesOf(es: seq<Envelope>): Bytes
    requires forall i | 0 <= i < |es| :: es[i].json.Ok?
  {
    if es == [] then [] else LinesOf(es[..|es| - 1]) + es[|es| - 1].json.value + [10]
  }

  /** Sound, in order, and within both limits. */
  predicate Exportable(es: seq<Envelope>, maxRecordBytes: nat, maxTotalBytes: nat) {
    AllSound(es, maxRecordBytes) && KeysIncrease(es) && |LinesOf(es)| <= maxTotalBytes
  }

  /** One more envelope behind an exportable list. */
  predicate Fits(front: seq<Envelope>, e: Envelope, maxRecordBytes: nat, maxTotalBytes: nat)
    requires AllSound(front, maxRecordBytes)
  {
    && e.verified.Ok? && e.json.Ok? && |e.json.value| <= maxRecordBytes
    && (front == [] || TextLess(SortKey(front[|front| - 1].record), SortKey(e.record)))
    && |LinesOf(front)| + |e.json.value| + 1 <= maxTotalBytes
  }

  lemma {:induction false} ExportableMore(es: seq<Envelope>, n: nat, maxRecordBytes: nat, maxTotalBytes: nat)
    requires n < |es| && Exportable(es[..n], maxRecordBytes, maxTotalBytes)
    ensures Fits(es[..n], es[n], maxRecordBytes, maxTotalBytes) <==> Exportable(es[..n + 1], maxRecordBytes,
                 maxTotalBytes)
    ensures Exportable(es[..n + 1], maxRecordBytes, maxTotalBytes) ==>
      LinesOf(es[..n + 1]) == LinesOf(es[..n]) + es[n].json.value + [10]
  {
    hide SortKey, TextLess;
    var front, more := es[..n], es[..n + 1];
    assert more[..n] == front && more[n] == es[n] && forall i | 0 <= i < n :: more[i] == front[i];
  }

  lemma {:induction false} ExportableFront(es: seq<Envelope>, n: nat, maxRecordBytes: nat, maxTotalBytes: nat)
    requires n <= |es| && Exportable(es, maxRecordBytes, maxTotalBytes)
    ensures Exportable(es[..n], maxRecordBytes, maxTotalBytes)
    decreases |es|
  {
    hide SortKey, TextLess;
    if n == |es| {
      assert es[..n] == es;
    } else {
      var m := |es| - 1;
      var front := es[..m];
      assert forall i | 0 <= i < m :: front[i] == es[i];
      assert front[..n] == es[..n];
      ExportableFront(front, n, maxRecordBytes, maxTotalBytes);
    }
  }

  /**
   A list of envelopes is exported completely, line by line, exactly when every envelope is sound, their
   keys increase and all lines fit; the writer takes everything.
   */
  method ExportAll(es: seq<Envelope>, maxRecordBytes: nat, maxTotalBytes: nat) returns (r: Result<Bytes, ExportError>)
    requires 0 < maxRecordBytes <= 16_777_216 && 0 < maxTotalBytes <= 1_073_741_824
    ensures r.Ok? <==> AllSound(es, maxRecordBytes) && KeysIncrease(es) && |LinesOf(es)| <= maxTotalBytes
    ensures r.Ok? ==> r.value == LinesOf(es)
  {
    assert es[..0] == [];
    assert Exportable([], maxRecordBytes, maxTotalBytes) && LinesOf([]) == [];
    var exporter := new JsonlExporter(maxRecordBytes, maxTotalBytes);
    hide SortKey, TextLess, TextLeq, LinesOf, KeysIncrease, Increasing, Concat;
    for i := 0 to |es|
      invariant fresh(exporter) && exporter.Valid() && !exporter.failed && |exporter.records| == i
      invariant exporter.maxRecordBytes == maxRecordBytes && exporter.maxTotalBytes == maxTotalBytes
      invariant i > 0 ==> exporter.records[i - 1] == es[i - 1].record
      invariant Exportable(es[..i], maxRecordBytes, maxTotalBytes) && exporter.output == LinesOf(es[..i])
    {
      ExportableMore(es, i, maxRecordBytes, maxTotalBytes);
      if Exportable(es, maxRecordBytes, maxTotalBytes) {
        ExportableFront(es, i + 1, maxRecordBytes, maxTotalBytes);
      }
      assert i > 0 ==> es[..i][i - 1] == es[i - 1];
      var written := exporter.Write(es[i], None);
      if written.Err? {
        return Err(written.error);
      }
    }
    assert es[..|es|] == es;
    return Ok(exporter.output);
  }
}
