/**
 Telemetry capture against its own validator: text and JSON sanitizing, the independently written
 checks on stored values, and the archive that must pass them.
 */
module TelemetryArchive {
  import opened Redaction
  import Text = TelemetryText

  const MAX_TEXT_BYTES: nat := 16384
  const MAX_JSON_BYTES: nat := 65536
  const MAX_ITEMS: nat := 1024
  const MAX_DEPTH: nat := 32
  const MAX_TURNS: nat := 1024
  const MAX_TOOL_CALLS: nat := 256
  const MAX_DIAGNOSTICS: nat := 2048
  const MAX_LIFECYCLE: nat := 4096
  const REDACTION_MARKER: string := "[REDACTED]"
  const TRUNCATION_MARKER: string := "[TRUNCATED]"
  const REPLACEMENT: char := '\U{FFFD}'

  // ---------------------------------------------------------------- text

  /** UTF-8 width of one character. */
  function Width(c: char): (n: nat)
    ensures 1 <= n <= 4
  {
    if c as int < 0x80 then 1 else if c as int < 0x800 then 2 else if c as int < 0x10000 then 3 else 4
  }

  function Utf8Length(s: string): nat {
    if s == [] then 0 else Width(s[0]) + Utf8Length(s[1..])
  }

  predicate IsControl(c: char) {
    c as int < 0x20 || 0x7f <= c as int < 0xa0
  }

  predicate IsForbidden(c: char) {
    IsControl(c) && c != '\n' && c != '\t'
  }

  /** Replaces forbidden control characters. */
  function Clean(s: string): (r: string)
    ensures |r| == |s|
    ensures forall i | 0 <= i < |s| :: !IsForbidden(r[i]) && (!IsForbidden(s[i]) ==> r[i] == s[i])
  {
    if s == [] then []
    else [if IsForbidden(s[0]) then REPLACEMENT else s[0]] + Clean(s[1..])
  }

  /** How many whole characters fit into `limit` bytes. */
  function Fitting(s: string, limit: nat): (k: nat)
    ensures k <= |s|
  {
    if s == [] || Width(s[0]) > limit then 0 else 1 + Fitting(s[1..], limit - Width(s[0]))
  }

  function Truncate(s: string): string {
    if Utf8Length(s) <= MAX_TEXT_BYTES then s
    else s[..Fitting(s, MAX_TEXT_BYTES - |TRUNCATION_MARKER|)] + TRUNCATION_MARKER
  }

  /** The largest number of characters that fits. */
  lemma {:induction false} FittingIsLargest(s: string, limit: nat)
    ensures Utf8Length(s[..Fitting(s, limit)]) <= limit
    ensures Fitting(s, limit) < |s| ==> Utf8Length(s[..Fitting(s, limit) + 1]) > limit
  {
    if s == [] {
    } else if Width(s[0]) > limit {
      assert s[..1] == [s[0]];
    } else {
      var k := Fitting(s[1..], limit - Width(s[0]));
      FittingIsLargest(s[1..], limit - Width(s[0]));
      assert s[..k + 1][1..] == s[1..][..k];
      if k + 1 < |s| {
        assert s[..k + 2][1..] == s[1..][..k + 1];
      }
    }
  }

  lemma {:induction false} Utf8LengthConcat(a: string, b: string)
    ensures Utf8Length(a + b) == Utf8Length(a) + Utf8Length(b)
  {
    if a == [] {
      assert a + b == b;
    } else {
      assert (a + b)[1..] == a[1..] + b;
      Utf8LengthConcat(a[1..], b);
    }
  }

  lemma {:induction false} AsciiLength(s: string)
    requires forall i | 0 <= i < |s| :: s[i] as int < 0x80
    ensures Utf8Length(s) == |s|
  {
    if s != [] {
      AsciiLength(s[1..]);
    }
  }

  /** The validator's check on stored text. */
  predicate IsSanitizedText(s: string) {
    Utf8Length(s) <= MAX_TEXT_BYTES && forall i | 0 <= i < |s| :: !IsForbidden(s[i])
  }

  /**
   Truncation fits the limit, keeps the longest prefix that leaves room for its marker, and changes
   nothing that already fits.
   */
  lemma {:induction false} TruncateFits(s: string)
    ensures Utf8Length(Truncate(s)) <= MAX_TEXT_BYTES
    ensures Utf8Length(s) <= MAX_TEXT_BYTES ==> Truncate(s) == s
    ensures Utf8Length(s) > MAX_TEXT_BYTES ==>
      exists k: nat ::
        && k < |s| && Truncate(s) == s[..k] + TRUNCATION_MARKER
        && Utf8Length(s[..k + 1]) + |TRUNCATION_MARKER| > MAX_TEXT_BYTES
  {
    hide Utf8Length, Fitting;
    if Utf8Length(s) > MAX_TEXT_BYTES {
      var room := MAX_TEXT_BYTES - |TRUNCATION_MARKER|;
      var k := Fitting(s, room);
      FittingIsLargest(s, room);
      assert s[..|s|] == s;
      Utf8LengthConcat(s[..k], TRUNCATION_MARKER);
      AsciiLength(TRUNCATION_MARKER);
    }
  }

  /** Secrets, and the byte-to-text conversions the sanitizer relies on. */
  datatype Sanitizer = Sanitizer(secrets: seq<Bytes>, encode: string -> Bytes, decodeLossy: Bytes -> string)

  function SanitizeText(san: Sanitizer, s: string): string {
    Text.FourPrefixesQualify();
    var bytes := Text.SanitizedBytes(san.encode(s), san.secrets, Text.TOKEN_LEADS, REDACTED);
    Truncate(Clean(san.decodeLossy(bytes)))
  }

  /** Sanitized text always passes the validator, whatever the conversions return. */
  lemma {:induction false} SanitizedTextPasses(san: Sanitizer, s: string)
    ensures IsSanitizedText(SanitizeText(san, s))
  {
    Text.FourPrefixesQualify();
    var bytes := Text.SanitizedBytes(san.encode(s), san.secrets, Text.TOKEN_LEADS, REDACTED);
    TruncateFits(Clean(san.decodeLossy(bytes)));
    TruncateClean(Clean(san.decodeLossy(bytes)));
  }

  lemma {:induction false} TruncateClean(s: string)
    requires forall i | 0 <= i < |s| :: !IsForbidden(s[i])
    ensures forall i | 0 <= i < |Truncate(s)| :: !IsForbidden(Truncate(s)[i])
  {
  }

  // ---------------------------------------------------------------- JSON

  datatype Json =
    | Null
    | Bool(value: bool)
    | Number(digits: string)
    | Text(text: string)
    | Array(items: seq<Json>)
    | Object(entries: seq<Entry>)

  datatype Entry = Entry(key: string, value: Json)

  /** Serialized width of one character inside a JSON string. */
  function EscapedWidth(c: char): nat {
    if c == '"' || c == '\\' || c == '\n' || c == '\r' || c == '\t' || c as int == 8 || c as int == 12 then 2
    else if c as int < 0x20 then 6
    else Width(c)
  }

  function EscapedLength(s: string): nat {
    if s == [] then 0 else EscapedWidth(s[0]) + EscapedLength(s[1..])
  }

  /** Length of the compact serialization. */
  function JsonLength(v: Json): nat
    decreases v, 1
  {
    match v
    case Null => 4
    case Bool(b) => if b then 4 else 5
    case Number(d) => Utf8Length(d)
    case Text(t) => 2 + EscapedLength(t)
    case Array(items) => 2 + ItemsLength(items)
    case Object(entries) => 2 + EntriesLength(entries)
  }

  function ItemsLength(items: seq<Json>): nat
    decreases items, 0
  {
    if items == [] then 0
    else JsonLength(items[0]) + (if |items| > 1 then 1 else 0) + ItemsLength(items[1..])
  }

  function EntriesLength(entries: seq<Entry>): nat
    decreases entries, 0
  {
    if entries == [] then 0
    else
      2 + EscapedLength(entries[0].key) + 1 + JsonLength(entries[0].value)
      + (if |entries| > 1 then 1 else 0) + EntriesLength(entries[1..])
  }

  function Lower(s: string): string {
    if s == [] then []
    else [if 'A' <= s[0] <= 'Z' then (s[0] as int + 32) as char else s[0]] + Lower(s[1..])
  }

  predicate IsSensitive(key: string) {
    Lower(key) in {
      "authorization", "credential", "password", "secret", "token", "api_key", "apikey",
      "access_token", "refresh_token"}
  }

  function SanitizeAt(san: Sanitizer, v: Json, depth: nat): Json
    decreases v, 1
  {
    if depth >= MAX_DEPTH then Text(TRUNCATION_MARKER)
    else match v
      case Text(t) => Text(SanitizeText(san, t))
      case Array(items) => Array(SanitizeItems(san, items, depth, MAX_ITEMS))
      case Object(entries) => Object(SanitizeEntries(san, entries, depth))
      case _ => v
  }

  function SanitizeItems(san: Sanitizer, items: seq<Json>, depth: nat, room: nat): (r: seq<Json>)
    ensures |r| <= room
    decreases items, 0
  {
    if items == [] || room == 0 then []
    else [SanitizeAt(san, items[0], depth + 1)] + SanitizeItems(san, items[1..], depth, room - 1)
  }

  /** A later key that sanitizes to the same text overwrites this one. */
  predicate Overwritten(san: Sanitizer, key: string, later: seq<Entry>) {
    exists j :: 0 <= j < |later| && SanitizeText(san, later[j].key) == SanitizeText(san, key)
  }

  function SanitizeEntries(san: Sanitizer, entries: seq<Entry>, depth: nat): seq<Entry>
    decreases entries, 0
  {
    if entries == [] then []
    else
      var e, rest := entries[0], SanitizeEntries(san, entries[1..], depth);
      if Overwritten(san, e.key, entries[1..]) then rest
      else
        var key := SanitizeText(san, e.key);
        var value :=
          if IsSensitive(key) && !e.value.Null? then Text(REDACTION_MARKER)
          else SanitizeAt(san, e.value, depth + 1);
        [Entry(key, value)] + rest
  }

  function SanitizeJson(san: Sanitizer, v: Json): Json {
    var r := SanitizeAt(san, v, 0);
    if JsonLength(r) > MAX_JSON_BYTES then Text(TRUNCATION_MARKER) else r
  }

  /** The validator's check on stored JSON. */
  predicate IsSanitizedJson(v: Json, depth: nat)
    decreases v, 1
  {
    if depth > MAX_DEPTH then false
    else if depth == MAX_DEPTH then v == Text(TRUNCATION_MARKER)
    else if JsonLength(v) > MAX_JSON_BYTES then false
    else match v
      case Text(t) => IsSanitizedText(t)
      case Array(items) => |items| <= MAX_ITEMS && ItemsPass(items, depth)
      case Object(entries) => EntriesPass(entries, depth)
      case _ => true
  }

  predicate ItemsPass(items: seq<Json>, depth: nat)
    decreases items, 0
  {
    items == [] || (IsSanitizedJson(items[0], depth + 1) && ItemsPass(items[1..], depth))
  }

  predicate EntriesPass(entries: seq<Entry>, depth: nat)
    decreases entries, 0
  {
    entries == []
    || ( && IsSanitizedText(entries[0].key)
         && (if IsSensitive(entries[0].key) && !entries[0].value.Null?
             then entries[0].value == Text(REDACTION_MARKER)
             else IsSanitizedJson(entries[0].value, depth + 1))
         && EntriesPass(entries[1..], depth))
  }

  // ---------------------------------------------------------------- when the two agree

  /**
   The input holds a null under a sensitive key of an object at the last depth, at a place the
   sanitizer reaches: not under another sensitive key, not behind the item limit, not overwritten.
   */
  predicate DeepNull(san: Sanitizer, v: Json, depth: nat)
    decreases v, 1
  {
    depth < MAX_DEPTH && match v
      case Array(items) => DeepNullItem(san, items, depth, MAX_ITEMS)
      case Object(entries) => DeepNullEntry(san, entries, depth)
      case _ => false
  }

  predicate DeepNullItem(san: Sanitizer, items: seq<Json>, depth: nat, room: nat)
    decreases items, 0
  {
    items != [] && room > 0 && (DeepNull(san, items[0], depth + 1) || DeepNullItem(san, items[1..], depth, room - 1))
  }

  predicate DeepNullEntry(san: Sanitizer, entries: seq<Entry>, depth: nat)
    decreases entries, 0
  {
    entries != []
    && ( || DeepNullEntry(san, entries[1..], depth)
         || ( && !Overwritten(san, entries[0].key, entries[1..])
              && if IsSensitive(SanitizeText(san, entries[0].key))
                 then entries[0].value.Null? && depth == MAX_DEPTH - 1
                 else DeepNull(san, entries[0].value, depth + 1)))
  }

  /** Within the size limit, a sanitized value passes exactly when the input has no such null. */
  lemma {:induction false} SanitizedPassesIff(san: Sanitizer, v: Json, depth: nat)
    requires depth <= MAX_DEPTH
    requires depth < MAX_DEPTH ==> JsonLength(SanitizeAt(san, v, depth)) <= MAX_JSON_BYTES
    ensures IsSanitizedJson(SanitizeAt(san, v, depth), depth) <==> !DeepNull(san, v, depth)
    decreases v, 1
  {
    if depth < MAX_DEPTH {
      match v
      case Text(t) => SanitizedTextPasses(san, t);
      case Array(items) => ItemsPassIff(san, items, depth, MAX_ITEMS);
      case Object(entries) => EntriesPassIff(san, entries, depth);
      case _ =>
    }
  }

  lemma {:induction false} ItemsPassIff(san: Sanitizer, items: seq<Json>, depth: nat, room: nat)
    requires depth < MAX_DEPTH
    requires ItemsLength(SanitizeItems(san, items, depth, room)) <= MAX_JSON_BYTES
    ensures ItemsPass(SanitizeItems(san, items, depth, room), depth) <==> !DeepNullItem(san, items, depth, room)
    decreases items, 0
  {
    if items != [] && room > 0 {
      var r := SanitizeItems(san, items, depth, room);
      assert r[1..] == SanitizeItems(san, items[1..], depth, room - 1);
      SanitizedPassesIff(san, items[0], depth + 1);
      ItemsPassIff(san, items[1..], depth, room - 1);
    }
  }

  lemma {:induction false} EntriesPassIff(san: Sanitizer, entries: seq<Entry>, depth: nat)
    requires depth < MAX_DEPTH
    requires EntriesLength(SanitizeEntries(san, entries, depth)) <= MAX_JSON_BYTES
    ensures EntriesPass(SanitizeEntries(san, entries, depth), depth) <==> !DeepNullEntry(san, entries, depth)
    decreases entries, 0
  {
    hide IsSensitive, SanitizeText, Overwritten, EscapedLength, IsSanitizedText;
    if entries != [] {
      var e := entries[0];
      if Overwritten(san, e.key, entries[1..]) {
        EntriesPassIff(san, entries[1..], depth);
      } else {
        var r := SanitizeEntries(san, entries, depth);
        assert r[1..] == SanitizeEntries(san, entries[1..], depth);
        EntriesPassIff(san, entries[1..], depth);
        SanitizedTextPasses(san, e.key);
        if !(IsSensitive(r[0].key) && !e.value.Null?) {
          SanitizedPassesIff(san, e.value, depth + 1);
        }
      }
    }
  }

  /** What a caller has to know about a value before capture. */
  predicate Archivable(san: Sanitizer, v: Json) {
    JsonLength(SanitizeAt(san, v, 0)) > MAX_JSON_BYTES || !DeepNull(san, v, 0)
  }

  /** The sanitizer's output passes the validator exactly for archivable values. */
  lemma {:induction false} SanitizeJsonPassesIff(san: Sanitizer, v: Json)
    ensures IsSanitizedJson(SanitizeJson(san, v), 0) <==> Archivable(san, v)
  {
    if JsonLength(SanitizeAt(san, v, 0)) > MAX_JSON_BYTES {
      MarkerTextPasses();
    } else {
      SanitizedPassesIff(san, v, 0);
    }
  }

  lemma {:induction false} MarkerTextPasses()
    ensures IsSanitizedJson(Text(TRUNCATION_MARKER), 0)
  {
    hide Utf8Length, EscapedLength;
    AsciiLength(TRUNCATION_MARKER);
    EscapedAtMostSix(TRUNCATION_MARKER);
  }

  lemma {:induction false} EscapedAtMostSix(s: string)
    ensures EscapedLength(s) <= 6 * |s|
  {
    if s != [] {
      EscapedAtMostSix(s[1..]);
    }
  }

  // ---------------------------------------------------------------- capture

  datatype LifecycleEvent = LifecycleEvent(sequence: nat, at: int, turnRunning: bool, turnId: string)
  datatype ToolCall = ToolCall(tool: string, arguments: Json, output: Json)
  datatype Turn = Turn(turnId: string, started: int, completed: int, input: string, output: string,
                       calls: seq<ToolCall>)
  datatype Diagnostic = Diagnostic(sequence: nat, at: int, code: string, text: string)

  /**
   Driver telemetry; `header` says whether identity, correlation, usage, retention, schema and capture
   time are accepted.
   */
  datatype Telemetry =
    Telemetry(header: bool, lifecycle: seq<LifecycleEvent>, turns: seq<Turn>, diagnostics: seq<Diagnostic>)

  datatype ArchivedTurn = ArchivedTurn(sequence: nat, duration: nat, turn: Turn)

  datatype Archive =
    Archive(header: bool, lifecycle: seq<LifecycleEvent>, turns: seq<ArchivedTurn>, diagnostics: seq<Diagnostic>)

  function Min(a: nat, b: nat): nat {
    if a <= b then a else b
  }

  /** What capture checks before it archives anything. */
  predicate InputAccepted(d: Telemetry) {
    && d.header
    && (forall i | 0 <= i < |d.lifecycle| :: d.lifecycle[i].sequence == i && d.lifecycle[i].at >= 0)
    && (forall i | 0 <= i < |d.diagnostics| :: d.diagnostics[i].sequence == i && d.diagnostics[i].at >= 0)
    && (forall i | 0 <= i < |d.turns| :: 0 <= d.turns[i].started <= d.turns[i].completed)
  }

  function ArchiveCall(san: Sanitizer, c: ToolCall): ToolCall {
    ToolCall(SanitizeText(san, c.tool), SanitizeJson(san, c.arguments), SanitizeJson(san, c.output))
  }

  function ArchiveTurn(san: Sanitizer, t: Turn, i: nat): ArchivedTurn
    requires t.started <= t.completed
  {
    ArchivedTurn(i, t.completed - t.started,
      Turn(SanitizeText(san, t.turnId), t.started, t.completed, SanitizeText(san, t.input), SanitizeText(san, t.output),
           seq(Min(|t.calls|, MAX_TOOL_CALLS), j requires 0 <= j < |t.calls| => ArchiveCall(san, t.calls[j]))))
  }

  function ArchiveOf(san: Sanitizer, d: Telemetry): Archive
    requires InputAccepted(d)
  {
    Archive(d.header,
      seq(Min(|d.lifecycle|, MAX_LIFECYCLE), i requires 0 <= i < |d.lifecycle| =>
        var e := d.lifecycle[i];
        if e.turnRunning then e.(turnId := SanitizeText(san, e.turnId)) else e),
      seq(Min(|d.turns|, MAX_TURNS), i requires 0 <= i < |d.turns| => ArchiveTurn(san, d.turns[i], i)),
      seq(Min(|d.diagnostics|, MAX_DIAGNOSTICS), i requires 0 <= i < |d.diagnostics| =>
        var e := d.diagnostics[i];
        e.(code := SanitizeText(san, e.code), text := SanitizeText(san, e.text))))
  }

  predicate CallPasses(c: ToolCall) {
    IsSanitizedText(c.tool) && IsSanitizedJson(c.arguments, 0) && IsSanitizedJson(c.output, 0)
  }

  predicate TurnPasses(t: ArchivedTurn, i: nat) {
    && t.sequence == i && 0 <= t.turn.started <= t.turn.completed
    && t.duration == t.turn.completed - t.turn.started
    && IsSanitizedText(t.turn.turnId) && IsSanitizedText(t.turn.input) && IsSanitizedText(t.turn.output)
    && |t.turn.calls| <= MAX_TOOL_CALLS
    && forall j | 0 <= j < |t.turn.calls| :: CallPasses(t.turn.calls[j])
  }

  /** The validator run on stored archives. */
  predicate ArchivePasses(a: Archive) {
    && a.header
    && |a.lifecycle| <= MAX_LIFECYCLE && |a.turns| <= MAX_TURNS && |a.diagnostics| <= MAX_DIAGNOSTICS
    && (forall i | 0 <= i < |a.lifecycle| ::
          && a.lifecycle[i].sequence == i && a.lifecycle[i].at >= 0
          && (a.lifecycle[i].turnRunning ==> IsSanitizedText(a.lifecycle[i].turnId)))
    && (forall i | 0 <= i < |a.turns| :: TurnPasses(a.turns[i], i))
    && (forall i | 0 <= i < |a.diagnostics| ::
          && a.diagnostics[i].sequence == i && a.diagnostics[i].at >= 0
          && IsSanitizedText(a.diagnostics[i].code) && IsSanitizedText(a.diagnostics[i].text))
  }

  datatype CaptureResult = Captured(archive: Archive) | Rejected

  function Capture(san: Sanitizer, d: Telemetry): CaptureResult {
    if !InputAccepted(d) then Rejected
    else if ArchivePasses(ArchiveOf(san, d)) then Captured(ArchiveOf(san, d))
    else Rejected
  }

  /** Every retained tool call of a turn carries archivable JSON. */
  predicate CallsArchivable(san: Sanitizer, t: Turn) {
    forall j | 0 <= j < |t.calls| && j < MAX_TOOL_CALLS ::
      Archivable(san, t.calls[j].arguments) && Archivable(san, t.calls[j].output)
  }

  lemma {:induction false} TurnPassesIff(san: Sanitizer, t: Turn, i: nat)
    requires 0 <= t.started <= t.completed
    ensures TurnPasses(ArchiveTurn(san, t, i), i) <==> CallsArchivable(san, t)
  {
    hide SanitizeText, IsSanitizedText, SanitizeJson, IsSanitizedJson, Archivable;
    SanitizedTextPasses(san, t.turnId);
    SanitizedTextPasses(san, t.input);
    SanitizedTextPasses(san, t.output);
    var a := ArchiveTurn(san, t, i).turn.calls;
    forall j | 0 <= j < |a|
      ensures CallPasses(a[j]) <==> Archivable(san, t.calls[j].arguments) && Archivable(san, t.calls[j].output)
    {
      SanitizedTextPasses(san, t.calls[j].tool);
      SanitizeJsonPassesIff(san, t.calls[j].arguments);
      SanitizeJsonPassesIff(san, t.calls[j].output);
    }
    if CallsArchivable(san, t) {
      assert forall j | 0 <= j < |a| :: CallPasses(a[j]);
    } else {
      var j :| 0 <= j < |t.calls| && j < MAX_TOOL_CALLS
        && !(Archivable(san, t.calls[j].arguments) && Archivable(san, t.calls[j].output));
      assert !CallPasses(a[j]);
    }
  }

  /** Capture accepts its own archive exactly when the input checks pass and the retained tool JSON is archivable. */
  lemma {:induction false} CaptureSucceedsIff(san: Sanitizer, d: Telemetry)
    ensures Capture(san, d).Captured?
            <==> InputAccepted(d)
                 && forall i | 0 <= i < |d.turns| && i < MAX_TURNS :: CallsArchivable(san, d.turns[i])
  {
    hide SanitizeText, IsSanitizedText, TurnPasses, CallsArchivable;
    if InputAccepted(d) {
      var a := ArchiveOf(san, d);
      forall i | 0 <= i < |a.lifecycle| && a.lifecycle[i].turnRunning ensures IsSanitizedText(a.lifecycle[i].turnId) {
        SanitizedTextPasses(san, d.lifecycle[i].turnId);
      }
      forall i | 0 <= i < |a.diagnostics|
        ensures IsSanitizedText(a.diagnostics[i].code) && IsSanitizedText(a.diagnostics[i].text)
      {
        SanitizedTextPasses(san, d.diagnostics[i].code);
        SanitizedTextPasses(san, d.diagnostics[i].text);
      }
      forall i | 0 <= i < |a.turns| ensures TurnPasses(a.turns[i], i) <==> CallsArchivable(san, d.turns[i]) {
        TurnPassesIff(san, d.turns[i], i);
      }
    }
  }

  // ---------------------------------------------------------------- the failing family is not empty

  /** `n` nested arrays around a value. */
  function Nested(n: nat, v: Json): Json {
    if n == 0 then v else Array([Nested(n - 1, v)])
  }

  lemma {:induction false} NestedSteps(san: Sanitizer, n: nat, v: Json, depth: nat)
    requires depth + n < MAX_DEPTH
    ensures DeepNull(san, Nested(n, v), depth) <==> DeepNull(san, v, depth + n)
    ensures SanitizeAt(san, Nested(n, v), depth) == Nested(n, SanitizeAt(san, v, depth + n))
    decreases n
  {
    hide SanitizeText, Overwritten, IsSensitive;
    if n > 0 {
      NestedSteps(san, n - 1, v, depth + 1);
      var items := [Nested(n - 1, v)];
      assert items[1..] == [] && items[0] == Nested(n - 1, v);
      assert !DeepNullItem(san, items[1..], depth, MAX_ITEMS - 1);
      assert SanitizeItems(san, items[1..], depth, MAX_ITEMS - 1) == [];
      assert SanitizeItems(san, items, depth, MAX_ITEMS) == [SanitizeAt(san, items[0], depth + 1)];
    }
  }

  lemma {:induction false} NestedLength(n: nat, v: Json)
    ensures JsonLength(Nested(n, v)) == 2 * n + JsonLength(v)
  {
    if n > 0 {
      NestedLength(n - 1, v);
      assert [Nested(n - 1, v)][1..] == [];
      assert ItemsLength([Nested(n - 1, v)]) == JsonLength(Nested(n - 1, v));
    }
  }

  /** A null under any sensitive key, 31 arrays deep: its truncation marker is rejected by the validator. */
  lemma {:induction false} DeepNullRejected(san: Sanitizer, key: string)
    requires IsSensitive(SanitizeText(san, key))
    ensures !IsSanitizedJson(SanitizeJson(san, Nested(31, Object([Entry(key, Null)]))), 0)
  {
    hide SanitizeText, Overwritten, IsSensitive, IsSanitizedJson, SanitizeJson;
    var v := Object([Entry(key, Null)]);
    LastObject(san, key);
    NestedSteps(san, 31, v, 0);
    NestedLength(31, SanitizeAt(san, v, 31));
    SanitizeJsonPassesIff(san, Nested(31, v));
  }

  lemma {:induction false} LastObject(san: Sanitizer, key: string)
    requires IsSensitive(SanitizeText(san, key))
    ensures DeepNull(san, Object([Entry(key, Null)]), 31)
    ensures JsonLength(SanitizeAt(san, Object([Entry(key, Null)]), 31)) <= 1000
  {
    hide SanitizeText, IsSensitive, EscapedLength;
    var entries := [Entry(key, Null)];
    assert entries[1..] == [];
    assert !Overwritten(san, key, entries[1..]);
    assert SanitizeEntries(san, entries[1..], 31) == [];
    var out := [Entry(SanitizeText(san, key), Text(TRUNCATION_MARKER))];
    assert SanitizeEntries(san, entries, 31) == out;
    assert out[1..] == [];
    SensitiveIsShort(SanitizeText(san, key));
    EscapedAtMostSix(SanitizeText(san, key));
    EscapedAtMostSix(TRUNCATION_MARKER);
    assert EntriesLength(out) == 3 + EscapedLength(out[0].key) + JsonLength(out[0].value);
  }

  lemma {:induction false} SensitiveIsShort(key: string)
    requires IsSensitive(key)
    ensures |key| <= 13
  {
    LowerKeepsLength(key);
  }

  lemma {:induction false} LowerKeepsLength(s: string)
    ensures |Lower(s)| == |s|
  {
    if s != [] {
      LowerKeepsLength(s[1..]);
    }
  }
}
