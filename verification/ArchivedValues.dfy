/**
 What is in an archive, in plain terms: which keys are masked and what every other entry, item and text
 becomes, the bounds on everything stored, and what capture keeps of a run. The nine sensitive names
 and all bounds are written out here once more, as the archive's readers know them.
 */
module ArchivedValues {
  import opened Redaction
  import opened Spelling
  import opened TelemetryArchive
  import Text = TelemetryText

  // ---------------------------------------------------------------- tokens

  const LEADS: seq<string> := ["wa_cap_v1.", "sk-", "ghp_", "Bearer "]
  const DELIMITERS: string := " \t\r\n\"',;)]}"

  lemma {:induction false} LeadTexts()
    ensures |Text.TOKEN_LEADS| == |LEADS|
    ensures forall i | 0 <= i < |LEADS| :: Ascii(LEADS[i]) == Text.TOKEN_LEADS[i]
  {
    assert Ascii("wa_cap_v1.") == Text.CAPABILITY_LEAD;
    assert Ascii("sk-") == Text.SK_LEAD;
    assert Ascii("ghp_") == Text.GHP_LEAD;
    assert Ascii("Bearer ") == Text.BEARER_LEAD;
  }

  lemma {:induction false} DelimiterIff(b: Byte)
    ensures Text.IsDelimiter(b) <==> exists j :: 0 <= j < |DELIMITERS| && DELIMITERS[j] as int == b as int
  {
    assert forall j | 0 <= j < |DELIMITERS| :: Text.IsDelimiter(Ascii(DELIMITERS)[j]);
    var all := Ascii(DELIMITERS);
    assert all == [32, 9, 13, 10, 34, 39, 44, 59, 41, 93, 125];
    if Text.IsDelimiter(b) {
      assert b in all;
      var j :| 0 <= j < |all| && all[j] == b;
      assert DELIMITERS[j] as int == b as int;
    }
  }

  /** Behind each of the four prefixes stands nothing, a delimiter, or the marker: never a token. */
  lemma {:induction false} TokensAreMasked(v: Bytes, secrets: seq<Bytes>, n: nat, i: nat)
    requires n < |LEADS|
    requires var r := Text.SanitizedBytes(v, secrets, Text.TOKEN_LEADS, REDACTED);
             i + |LEADS[n]| <= |r| && r[i..i + |LEADS[n]|] == Ascii(LEADS[n])
    ensures var behind := Text.SanitizedBytes(v, secrets, Text.TOKEN_LEADS, REDACTED)[i + |LEADS[n]|..];
            || behind == []
            || (exists j :: 0 <= j < |DELIMITERS| && DELIMITERS[j] as int == behind[0] as int)
            || Ascii("[REDACTED]") <= behind
  {
    LeadTexts();
    MarkerText();
    Text.FourPrefixesQualify();
    var lead := Text.TOKEN_LEADS[n];
    Text.AllPrefixesMasked(RedactAll(v, secrets, REDACTED), Text.TOKEN_LEADS, REDACTED, n);
    var r := Text.SanitizedBytes(v, secrets, Text.TOKEN_LEADS, REDACTED);
    hide Text.SanitizedBytes, RedactAll;
    assert lead <= r[i..] by { assert r[i..][..|lead|] == r[i..i + |lead|]; }
    var behind := r[i + |lead|..];
    if behind != [] {
      DelimiterIff(behind[0]);
    }
  }

  // ---------------------------------------------------------------- sensitive names

  const NAMES: seq<string> := [
    "authorization", "credential", "password", "secret", "token", "api_key", "apikey", "access_token",
    "refresh_token"]

  /** The letter, or its capital. */
  predicate SameLetter(c: char, letter: char) {
    c == letter || ('a' <= letter <= 'z' && c as int == letter as int - 32)
  }

  predicate SameIgnoringCase(key: string, name: string) {
    |key| == |name| && forall i | 0 <= i < |name| :: SameLetter(key[i], name[i])
  }

  /** One of the nine names, up to ASCII case. */
  predicate Named(key: string) {
    exists n :: 0 <= n < |NAMES| && SameIgnoringCase(key, NAMES[n])
  }

  lemma {:induction false} LowerIff(key: string, name: string)
    requires forall i | 0 <= i < |name| :: !('A' <= name[i] <= 'Z')
    ensures Lower(key) == name <==> SameIgnoringCase(key, name)
  {
    if key == [] || name == [] {
      LowerKeepsLength(key);
    } else {
      LowerIff(key[1..], name[1..]);
      var c := if 'A' <= key[0] <= 'Z' then (key[0] as int + 32) as char else key[0];
      assert Lower(key) == [c] + Lower(key[1..]) && name == [name[0]] + name[1..];
      assert c == name[0] <==> SameLetter(key[0], name[0]);
      assert Lower(key) == name <==> c == name[0] && Lower(key[1..]) == name[1..] by {
        if Lower(key) == name {
          assert Lower(key)[1..] == name[1..];
        }
      }
      ConsSame(key, name);
    }
  }

  lemma {:induction false} ConsSame(key: string, name: string)
    requires key != [] && name != []
    ensures SameIgnoringCase(key, name) <==> SameLetter(key[0], name[0]) && SameIgnoringCase(key[1..], name[1..])
  {
    if SameLetter(key[0], name[0]) && SameIgnoringCase(key[1..], name[1..]) {
      forall i | 0 <= i < |name| ensures SameLetter(key[i], name[i]) {
        if i > 0 {
          assert key[i] == key[1..][i - 1] && name[i] == name[1..][i - 1];
        }
      }
    }
    if SameIgnoringCase(key, name) {
      forall i | 0 <= i < |name[1..]| ensures SameLetter(key[1..][i], name[1..][i]) {
        assert SameLetter(key[i + 1], name[i + 1]);
      }
    }
  }

  /** The sanitizer and the validator look for exactly these names. */
  lemma {:induction false} NamedIffSensitive(key: string)
    ensures Named(key) <==> IsSensitive(key)
  {
    forall n | 0 <= n < |NAMES| ensures Lower(key) == NAMES[n] <==> SameIgnoringCase(key, NAMES[n]) {
      LowerIff(key, NAMES[n]);
    }
    hide Lower, SameIgnoringCase;
    assert Named(key) <==> exists n :: 0 <= n < |NAMES| && Lower(key) == NAMES[n];
    var l := Lower(key);
    assert NAMES[0] == "authorization" && NAMES[1] == "credential" && NAMES[2] == "password";
    assert NAMES[3] == "secret" && NAMES[4] == "token" && NAMES[5] == "api_key" && NAMES[6] == "apikey";
    assert NAMES[7] == "access_token" && NAMES[8] == "refresh_token";
  }

  // ---------------------------------------------------------------- everything stored

  predicate FineText(t: string) {
    && Utf8Length(t) <= 16384
    && forall i | 0 <= i < |t| ::
         t[i] == '\n' || t[i] == '\t' || (0x20 <= t[i] as int < 0x7f) || 0xa0 <= t[i] as int
  }

  /** A sensitive entry holds null, the redaction marker, or at the last depth the truncation marker. */
  predicate MaskedEntry(e: Entry, depth: nat) {
    Named(e.key) ==>
      e.value == Null || e.value == Text("[REDACTED]") || (depth == 31 && e.value == Text("[TRUNCATED]"))
  }

  /** Bounded in depth, width and text, with every sensitive entry masked, at every level. */
  predicate Fine(v: Json, depth: nat)
    decreases v, 1
  {
    && depth <= 32
    && (depth == 32 ==> v == Text("[TRUNCATED]") || v == Text("[REDACTED]"))
    && match v
       case Text(t) => FineText(t)
       case Array(items) => |items| <= 1024 && FineItems(items, depth)
       case Object(entries) => FineEntries(entries, depth)
       case _ => true
  }

  predicate FineItems(items: seq<Json>, depth: nat)
    decreases items, 0
  {
    items == [] || (Fine(items[0], depth + 1) && FineItems(items[1..], depth))
  }

  predicate FineEntries(entries: seq<Entry>, depth: nat)
    decreases entries, 0
  {
    entries == []
    || ( && FineText(entries[0].key) && MaskedEntry(entries[0], depth)
         && Fine(entries[0].value, depth + 1) && FineEntries(entries[1..], depth))
  }

  lemma {:induction false} MarkersAreFine()
    ensures FineText("[TRUNCATED]") && FineText("[REDACTED]")
  {
    hide Utf8Length;
    AsciiLength("[TRUNCATED]");
    AsciiLength("[REDACTED]");
  }

  lemma {:induction false} RedactedIsFine(depth: nat)
    requires depth <= 32
    ensures Fine(Text("[REDACTED]"), depth)
  {
    MarkersAreFine();
    hide FineText;
  }

  lemma {:induction false} SanitizedTextIsFine(t: string)
    requires IsSanitizedText(t)
    ensures FineText(t)
  {
    forall i | 0 <= i < |t|
      ensures t[i] == '\n' || t[i] == '\t' || (0x20 <= t[i] as int < 0x7f) || 0xa0 <= t[i] as int
    {
      assert !IsForbidden(t[i]);
    }
  }

  /** Whatever is sanitized is fine at every level. */
  lemma {:induction false} SanitizedIsFine(san: Sanitizer, v: Json, depth: nat)
    requires depth <= 32
    ensures Fine(SanitizeAt(san, v, depth), depth)
    decreases v, 1
  {
    MarkersAreFine();
    hide FineText, IsSanitizedText;
    if depth < 32 {
      match v
      case Text(t) =>
        SanitizedTextPasses(san, t);
        SanitizedTextIsFine(SanitizeText(san, t));
      case Array(items) => SanitizedItemsFine(san, items, depth, MAX_ITEMS);
      case Object(entries) => SanitizedEntriesFine(san, entries, depth);
      case _ =>
    }
  }

  lemma {:induction false} FineItemsMore(first: Json, rest: seq<Json>, depth: nat)
    requires Fine(first, depth + 1) && FineItems(rest, depth)
    ensures FineItems([first] + rest, depth)
  {
    hide Fine;
    assert ([first] + rest)[1..] == rest;
  }

  lemma {:induction false} FineEntriesMore(first: Entry, rest: seq<Entry>, depth: nat)
    requires FineText(first.key) && MaskedEntry(first, depth) && Fine(first.value, depth + 1)
    requires FineEntries(rest, depth)
    ensures FineEntries([first] + rest, depth)
  {
    hide Fine, FineText, MaskedEntry;
    assert ([first] + rest)[1..] == rest;
  }

  lemma {:induction false} NothingIsFine(depth: nat)
    ensures FineItems([], depth) && FineEntries([], depth)
  {
  }

  lemma {:induction false} SanitizedItemsFine(san: Sanitizer, items: seq<Json>, depth: nat, room: nat)
    requires depth < 32
    ensures FineItems(SanitizeItems(san, items, depth, room), depth)
    decreases items, 0
  {
    hide Fine, FineItems, SanitizeAt;
    NothingIsFine(depth);
    if items != [] && room > 0 {
      SanitizedIsFine(san, items[0], depth + 1);
      SanitizedItemsFine(san, items[1..], depth, room - 1);
      FineItemsMore(SanitizeAt(san, items[0], depth + 1), SanitizeItems(san, items[1..], depth, room - 1), depth);
    }
  }

  lemma {:induction false} SanitizedEntriesFine(san: Sanitizer, entries: seq<Entry>, depth: nat)
    requires depth < 32
    ensures FineEntries(SanitizeEntries(san, entries, depth), depth)
    decreases entries, 0
  {
    hide Fine, FineText, FineEntries, MaskedEntry, SanitizeText, SanitizeAt, Overwritten, IsSensitive, Named, EntryOf;
    NothingIsFine(depth);
    if entries != [] {
      var e := entries[0];
      SanitizedEntriesFine(san, entries[1..], depth);
      SanitizedIsFine(san, e.value, depth + 1);
      EntryIsMasked(san, e, depth);
      EntryIsFine(san, e, depth);
      FineEntriesMore(EntryOf(san, e, depth), SanitizeEntries(san, entries[1..], depth), depth);
    }
  }

  lemma {:induction false} EntryIsFine(san: Sanitizer, e: Entry, depth: nat)
    requires depth < 32 && Fine(SanitizeAt(san, e.value, depth + 1), depth + 1)
    ensures FineText(EntryOf(san, e, depth).key) && Fine(EntryOf(san, e, depth).value, depth + 1)
  {
    SanitizedTextPasses(san, e.key);
    SanitizedTextIsFine(SanitizeText(san, e.key));
    RedactedIsFine(depth + 1);
    hide SanitizeText, SanitizeAt, Named, Fine, FineText, IsSanitizedText;
  }

  /** What one entry becomes. */
  function EntryOf(san: Sanitizer, e: Entry, depth: nat): Entry {
    var key := SanitizeText(san, e.key);
    Entry(key, if Named(key) && e.value != Null then Text("[REDACTED]") else SanitizeAt(san, e.value, depth + 1))
  }

  lemma {:induction false} EntryIsMasked(san: Sanitizer, e: Entry, depth: nat)
    requires depth < 32
    ensures MaskedEntry(EntryOf(san, e, depth), depth)
    ensures var key := SanitizeText(san, e.key);
            EntryOf(san, e, depth)
            == Entry(key, if IsSensitive(key) && !e.value.Null? then Text(REDACTION_MARKER)
                          else SanitizeAt(san, e.value, depth + 1))
  {
    NamedIffSensitive(SanitizeText(san, e.key));
    hide SanitizeText, IsSensitive, Named;
  }

  /** What the validator accepts is fine at every level, and of bounded size. */
  lemma {:induction false} AcceptedIsFine(v: Json, depth: nat)
    requires IsSanitizedJson(v, depth)
    ensures Fine(v, depth) && (depth < 32 ==> JsonLength(v) <= 65536)
    decreases v, 1
  {
    MarkersAreFine();
    hide FineText, IsSanitizedText;
    if depth < 32 {
      match v
      case Text(t) => SanitizedTextIsFine(t);
      case Array(items) => AcceptedItemsFine(items, depth);
      case Object(entries) => AcceptedEntriesFine(entries, depth);
      case _ =>
    }
  }

  lemma {:induction false} AcceptedItemsFine(items: seq<Json>, depth: nat)
    requires depth < 32 && ItemsPass(items, depth)
    ensures FineItems(items, depth)
    decreases items, 0
  {
    if items != [] {
      AcceptedIsFine(items[0], depth + 1);
      AcceptedItemsFine(items[1..], depth);
    }
  }

  lemma {:induction false} AcceptedEntriesFine(entries: seq<Entry>, depth: nat)
    requires depth < 32 && EntriesPass(entries, depth)
    ensures FineEntries(entries, depth)
    decreases entries, 0
  {
    if entries != [] {
      var e := entries[0];
      NamedIffSensitive(e.key);
      RedactedIsFine(depth + 1);
      SanitizedTextIsFine(e.key);
      hide FineText, IsSanitizedText, IsSensitive, Named, Fine, IsSanitizedJson;
      AcceptedEntriesFine(entries[1..], depth);
      if !(IsSensitive(e.key) && !e.value.Null?) {
        AcceptedIsFine(e.value, depth + 1);
        NullOrPlain(e, depth);
      }
    }
  }

  lemma {:induction false} NullOrPlain(e: Entry, depth: nat)
    requires Named(e.key) ==> e.value.Null?
    ensures MaskedEntry(e, depth)
  {
  }

  // ---------------------------------------------------------------- nothing else changes

  /** No later key becomes the same text. */
  predicate LastOfItsKey(san: Sanitizer, entries: seq<Entry>, i: nat)
    requires i < |entries|
  {
    forall j | i < j < |entries| :: SanitizeText(san, entries[j].key) != SanitizeText(san, entries[i].key)
  }

  lemma {:induction false} LastMeansKept(san: Sanitizer, entries: seq<Entry>)
    requires entries != []
    ensures LastOfItsKey(san, entries, 0) <==> !Overwritten(san, entries[0].key, entries[1..])
  {
    hide SanitizeText;
    var rest := entries[1..];
    if Overwritten(san, entries[0].key, rest) {
      var j :| 0 <= j < |rest| && SanitizeText(san, rest[j].key) == SanitizeText(san, entries[0].key);
      assert entries[j + 1] == rest[j];
    } else {
      forall j | 0 < j < |entries| ensures SanitizeText(san, entries[j].key) != SanitizeText(san, entries[0].key) {
        assert rest[j - 1] == entries[j];
      }
    }
  }

  lemma {:induction false} LastInTail(san: Sanitizer, entries: seq<Entry>, i: nat)
    requires 0 < i < |entries|
    ensures LastOfItsKey(san, entries, i) <==> LastOfItsKey(san, entries[1..], i - 1)
  {
    hide SanitizeText;
    var rest := entries[1..];
    assert forall j | 0 < j < |entries| :: entries[j] == rest[j - 1];
    if LastOfItsKey(san, rest, i - 1) {
      forall j | i < j < |entries| ensures SanitizeText(san, entries[j].key) != SanitizeText(san, entries[i].key) {
        assert SanitizeText(san, rest[j - 1].key) != SanitizeText(san, rest[i - 1].key);
      }
    }
    if LastOfItsKey(san, entries, i) {
      forall j | i - 1 < j < |rest| ensures SanitizeText(san, rest[j].key) != SanitizeText(san, rest[i - 1].key) {
        assert SanitizeText(san, entries[j + 1].key) != SanitizeText(san, entries[i].key);
      }
    }
  }

  /** The entries of an object, each with its own sanitized value: the last of every key, in order. */
  function EntriesOf(san: Sanitizer, entries: seq<Entry>, depth: nat, i: nat): seq<Entry>
    requires i <= |entries|
    decreases |entries| - i
  {
    if i == |entries| then []
    else
      (if LastOfItsKey(san, entries, i) then [EntryOf(san, entries[i], depth)] else [])
      + EntriesOf(san, entries, depth, i + 1)
  }

  lemma {:induction false} EntriesOfTail(san: Sanitizer, entries: seq<Entry>, depth: nat, i: nat)
    requires 0 < i <= |entries|
    ensures EntriesOf(san, entries, depth, i) == EntriesOf(san, entries[1..], depth, i - 1)
    decreases |entries| - i
  {
    hide LastOfItsKey, EntryOf;
    if i < |entries| {
      LastInTail(san, entries, i);
      EntriesOfTail(san, entries, depth, i + 1);
      assert entries[1..][i - 1] == entries[i];
    }
  }

  /** An object keeps the last entry of every key, masked if its key is sensitive and sanitized otherwise. */
  lemma {:induction false} ObjectKeeps(san: Sanitizer, entries: seq<Entry>, depth: nat)
    requires depth < 32
    ensures SanitizeAt(san, Object(entries), depth) == Object(EntriesOf(san, entries, depth, 0))
  {
    EntriesKept(san, entries, depth);
  }

  lemma {:induction false} EntriesKept(san: Sanitizer, entries: seq<Entry>, depth: nat)
    requires depth < 32
    ensures SanitizeEntries(san, entries, depth) == EntriesOf(san, entries, depth, 0)
    decreases |entries|
  {
    if entries != [] {
      EntriesKept(san, entries[1..], depth);
      EntryIsMasked(san, entries[0], depth);
      LastMeansKept(san, entries);
      EntriesOfTail(san, entries, depth, 1);
      hide SanitizeText, SanitizeAt, IsSensitive, Overwritten, LastOfItsKey, EntryOf, MaskedEntry;
    }
  }

  /** An array keeps its first 1024 items, each sanitized one level down. */
  lemma {:induction false} ArrayKeeps(san: Sanitizer, items: seq<Json>, depth: nat)
    requires depth < 32
    ensures var v := SanitizeAt(san, Array(items), depth);
            && v.Array? && |v.items| == (if |items| <= 1024 then |items| else 1024)
            && forall i | 0 <= i < |v.items| :: v.items[i] == SanitizeAt(san, items[i], depth + 1)
  {
    ItemsKept(san, items, depth, MAX_ITEMS);
  }

  lemma {:induction false} ItemsKept(san: Sanitizer, items: seq<Json>, depth: nat, room: nat)
    ensures var r := SanitizeItems(san, items, depth, room);
            && |r| == (if |items| <= room then |items| else room)
            && forall i | 0 <= i < |r| :: r[i] == SanitizeAt(san, items[i], depth + 1)
    decreases |items|
  {
    hide SanitizeAt;
    if items != [] && room > 0 {
      ItemsKept(san, items[1..], depth, room - 1);
      var r, s := SanitizeItems(san, items, depth, room), SanitizeItems(san, items[1..], depth, room - 1);
      assert r == [SanitizeAt(san, items[0], depth + 1)] + s;
      forall i | 0 < i < |r| ensures r[i] == SanitizeAt(san, items[i], depth + 1) {
        assert r[i] == s[i - 1] && items[1..][i - 1] == items[i];
      }
    }
  }

  /** Text without a known secret, a token prefix or a control character, that fits, is archived as it is. */
  lemma {:induction false} PlainTextKept(san: Sanitizer, t: string)
    requires san.decodeLossy(san.encode(t)) == t && FineText(t)
    requires forall i | 0 <= i < |san.secrets| && san.secrets[i] != [] :: NoOccurrence(san.encode(t), san.secrets[i])
    requires forall i | 0 <= i < |Text.TOKEN_LEADS| :: NoOccurrence(san.encode(t), Text.TOKEN_LEADS[i])
    ensures SanitizeText(san, t) == t
  {
    var v := san.encode(t);
    Text.FourPrefixesQualify();
    NoneToRedact(v, san.secrets, REDACTED);
    NoTokens(v, Text.TOKEN_LEADS, REDACTED);
    CleanKeeps(t);
    hide RedactAll, Text.TokenPasses;
  }

  lemma {:induction false} CleanKeeps(t: string)
    requires FineText(t)
    ensures Clean(t) == t && Truncate(t) == t
  {
    forall i | 0 <= i < |t| ensures Clean(t)[i] == t[i] {
      assert !IsForbidden(t[i]);
    }
  }

  lemma {:induction false} NoTokens(v: Bytes, prefixes: seq<Bytes>, m: Bytes)
    requires forall i | 0 <= i < |prefixes| :: prefixes[i] != [] && NoOccurrence(v, prefixes[i])
    ensures Text.TokenPasses(v, prefixes, m) == v
    decreases |prefixes|
  {
    if prefixes != [] {
      NoTokens(v, prefixes[..|prefixes| - 1], m);
      NoToken(v, prefixes[|prefixes| - 1], m);
    }
  }

  lemma {:induction false} NoToken(v: Bytes, p: Bytes, m: Bytes)
    requires p != [] && NoOccurrence(v, p)
    ensures Text.RedactTokens(v, p, m) == v
    decreases |v|
  {
    if v != [] {
      OccurrencesInSuffix(v, p, 1);
      NoToken(v[1..], p, m);
      assert v[0..] == v && !(p <= v);
    }
  }

  /** JSON that needs no sanitizing: plain text, no sensitive entry but null, no key twice, within all bounds. */
  predicate PlainJson(san: Sanitizer, v: Json, depth: nat)
    decreases v, 1
  {
    depth < 32 && match v
    case Text(t) => SanitizeText(san, t) == t
    case Array(items) => |items| <= 1024 && PlainItems(san, items, depth)
    case Object(entries) => PlainEntries(san, entries, depth)
    case _ => true
  }

  predicate PlainItems(san: Sanitizer, items: seq<Json>, depth: nat)
    decreases items, 0
  {
    items == [] || (PlainJson(san, items[0], depth + 1) && PlainItems(san, items[1..], depth))
  }

  predicate PlainEntries(san: Sanitizer, entries: seq<Entry>, depth: nat)
    decreases entries, 0
  {
    entries == []
    || ( && SanitizeText(san, entries[0].key) == entries[0].key
         && (Named(entries[0].key) ==> entries[0].value == Null)
         && LastOfItsKey(san, entries, 0)
         && PlainJson(san, entries[0].value, depth + 1) && PlainEntries(san, entries[1..], depth))
  }

  lemma {:induction false} PlainJsonKept(san: Sanitizer, v: Json, depth: nat)
    requires PlainJson(san, v, depth)
    ensures SanitizeAt(san, v, depth) == v
    decreases v, 1
  {
    hide SanitizeText;
    match v
    case Array(items) => PlainItemsKept(san, items, depth, MAX_ITEMS);
    case Object(entries) => PlainEntriesKept(san, entries, depth);
    case _ =>
  }

  lemma {:induction false} PlainItemsKept(san: Sanitizer, items: seq<Json>, depth: nat, room: nat)
    requires PlainItems(san, items, depth) && |items| <= room
    ensures SanitizeItems(san, items, depth, room) == items
    decreases items, 0
  {
    hide SanitizeText;
    if items != [] {
      PlainJsonKept(san, items[0], depth + 1);
      PlainItemsKept(san, items[1..], depth, room - 1);
      hide SanitizeAt, PlainJson;
      assert items == [items[0]] + items[1..];
    }
  }

  lemma {:induction false} PlainEntriesKept(san: Sanitizer, entries: seq<Entry>, depth: nat)
    requires PlainEntries(san, entries, depth)
    ensures SanitizeEntries(san, entries, depth) == entries
    decreases entries, 0
  {
    hide SanitizeText;
    if entries != [] {
      var e := entries[0];
      PlainJsonKept(san, e.value, depth + 1);
      PlainEntriesKept(san, entries[1..], depth);
      LastMeansKept(san, entries);
      NamedIffSensitive(e.key);
      hide SanitizeAt, PlainJson, Overwritten, LastOfItsKey, Named, IsSensitive;
      assert entries == [e] + entries[1..];
    }
  }

  /** A whole value: plain JSON is archived unchanged, everything else is fine, too large becomes the marker. */
  lemma {:induction false} ArchivedJsonInPlainTerms(san: Sanitizer, v: Json)
    ensures Fine(SanitizeJson(san, v), 0)
    ensures PlainJson(san, v, 0) && JsonLength(v) <= 65536 ==> SanitizeJson(san, v) == v
    ensures SanitizeJson(san, v) == SanitizeAt(san, v, 0) || SanitizeJson(san, v) == Text("[TRUNCATED]")
    ensures JsonLength(SanitizeAt(san, v, 0)) > 65536 <==> SanitizeJson(san, v) != SanitizeAt(san, v, 0)
  {
    hide SanitizeAt, PlainJson, JsonLength, FineText, Fine;
    SanitizedIsFine(san, v, 0);
    TruncatedIsFine();
    MarkerIsShort();
    if PlainJson(san, v, 0) {
      PlainJsonKept(san, v, 0);
    }
  }

  lemma {:induction false} TruncatedIsFine()
    ensures Fine(Text("[TRUNCATED]"), 0)
  {
    MarkersAreFine();
    hide FineText;
  }

  lemma {:induction false} MarkerIsShort()
    ensures JsonLength(Text("[TRUNCATED]")) <= 65536
  {
    EscapedAtMostSix("[TRUNCATED]");
    hide EscapedLength;
  }

  // ---------------------------------------------------------------- what capture keeps

  function AtMost(n: nat, bound: nat): nat {
    if n <= bound then n else bound
  }

  /** A turn is archived under its place, with its own times, and with each text in its own place. */
  predicate KeepsTurn(san: Sanitizer, t: Turn, i: nat, a: ArchivedTurn) {
    && a.sequence == i && a.turn.started == t.started && a.turn.completed == t.completed
    && a.duration == t.completed - t.started
    && a.turn.turnId == SanitizeText(san, t.turnId)
    && a.turn.input == SanitizeText(san, t.input) && a.turn.output == SanitizeText(san, t.output)
    && |a.turn.calls| == AtMost(|t.calls|, 256)
    && forall j | 0 <= j < |a.turn.calls| ::
         && a.turn.calls[j].tool == SanitizeText(san, t.calls[j].tool)
         && a.turn.calls[j].arguments == SanitizeJson(san, t.calls[j].arguments)
         && a.turn.calls[j].output == SanitizeJson(san, t.calls[j].output)
  }

  /**
   Capture succeeds exactly for an accepted header, entries numbered from zero at non-negative times, turns
   that do not end before they start, and archivable JSON in the calls that are kept; and then the archive
   keeps the first 4096 transitions, 1024 turns, 256 calls of each and 2048 diagnostics, each in its place.
   */
  lemma {:induction false} CaptureInPlainTerms(san: Sanitizer, d: Telemetry)
    ensures Capture(san, d).Captured? <==>
      && d.header
      && (forall i | 0 <= i < |d.lifecycle| :: d.lifecycle[i].sequence == i && d.lifecycle[i].at >= 0)
      && (forall i | 0 <= i < |d.diagnostics| :: d.diagnostics[i].sequence == i && d.diagnostics[i].at >= 0)
      && (forall i | 0 <= i < |d.turns| :: 0 <= d.turns[i].started <= d.turns[i].completed)
      && (forall i, j | 0 <= i < |d.turns| && i < 1024 && 0 <= j < |d.turns[i].calls| && j < 256 ::
            Archivable(san, d.turns[i].calls[j].arguments) && Archivable(san, d.turns[i].calls[j].output))
    ensures Capture(san, d).Captured? ==>
      var a := Capture(san, d).archive;
      && |a.lifecycle| == AtMost(|d.lifecycle|, 4096) && |a.turns| == AtMost(|d.turns|, 1024)
      && |a.diagnostics| == AtMost(|d.diagnostics|, 2048)
      && (forall i | 0 <= i < |a.turns| :: KeepsTurn(san, d.turns[i], i, a.turns[i]))
      && (forall i | 0 <= i < |a.lifecycle| ::
            var e, o := a.lifecycle[i], d.lifecycle[i];
            e.sequence == o.sequence && e.at == o.at && e.turnRunning == o.turnRunning
            && e.turnId == if o.turnRunning then SanitizeText(san, o.turnId) else o.turnId)
      && (forall i | 0 <= i < |a.diagnostics| ::
            var e, o := a.diagnostics[i], d.diagnostics[i];
            e.sequence == o.sequence && e.at == o.at
            && e.code == SanitizeText(san, o.code) && e.text == SanitizeText(san, o.text))
  {
    hide SanitizeText, SanitizeJson, Archivable, ArchivePasses;
    CaptureSucceedsIff(san, d);
    if InputAccepted(d) {
      var a := ArchiveOf(san, d);
      forall i | 0 <= i < |a.turns| ensures KeepsTurn(san, d.turns[i], i, a.turns[i]) {
        assert a.turns[i] == ArchiveTurn(san, d.turns[i], i);
      }
      hide ArchiveTurn, KeepsTurn;
    }
  }
}
