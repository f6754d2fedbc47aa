/**
 Whether a known secret can be in archived text: behind the byte passes come lossy decoding, the
 replacement of control characters and truncation, each of which puts a fixed text in place of some
 stretches. What the conversions between bytes and text do is assumed to be what UTF-8 does.
 */
module TelemetrySecrecy {
  import opened Redaction
  import opened TelemetryArchive
  import Text = TelemetryText

  // ---------------------------------------------------------------- replacing stretches

  /** A stretch of text that is kept, or one that is replaced. */
  datatype Stretch = Kept(bytes: Bytes) | Gap(bytes: Bytes)

  function Source(parts: seq<Stretch>): Bytes {
    if parts == [] then [] else parts[0].bytes + Source(parts[1..])
  }

  function Shown(parts: seq<Stretch>, x: Bytes): Bytes {
    if parts == [] then [] else (if parts[0].Kept? then parts[0].bytes else x) + Shown(parts[1..], x)
  }

  /** `shown` is `source` with some stretches replaced by `x`. */
  ghost predicate Patched(source: Bytes, shown: Bytes, x: Bytes) {
    exists parts :: Source(parts) == source && Shown(parts, x) == shown
  }

  /** A text that avoids `x` and shows at the front was at the front. */
  lemma {:induction false} FrontWasThere(parts: seq<Stretch>, x: Bytes, t: Bytes)
    requires Apart(t, x) && t <= Shown(parts, x)
    ensures t <= Source(parts)
    decreases |parts|
  {
    if parts != [] && t != [] {
      var rest := Shown(parts[1..], x);
      if parts[0].Gap? {
        NotAtMarker(t, x, rest);
      } else if |t| > |parts[0].bytes| {
        var k := parts[0].bytes;
        Text.TailOfPrefix(t, k, rest);
        Text.ApartTail(t, x, |k|);
        FrontWasThere(parts[1..], x, t[|k|..]);
        assert t == k + t[|k|..];
      }
    }
  }

  lemma {:induction false} NotAtMarker(t: Bytes, x: Bytes, rest: Bytes)
    requires Apart(t, x) && t != []
    ensures !(t <= x + rest)
  {
    assert t[0..] == t && !Compatible(t[0..], x);
  }

  /** Replacing stretches by a text that a secret avoids brings no secret about. */
  lemma {:induction false} PatchHides(parts: seq<Stretch>, x: Bytes, s: Bytes)
    requires MarkerFree(s, x) && NoOccurrence(Source(parts), s)
    ensures NoOccurrence(Shown(parts, x), s)
    decreases |parts|
  {
    if parts != [] {
      var first, rest := parts[0], parts[1..];
      assert Source(parts)[|first.bytes|..] == Source(rest);
      OccurrencesInSuffix(Source(parts), s, |first.bytes|);
      PatchHides(rest, x, s);
      if first.Gap? {
        NoneBehindMarker(Shown(rest, x), s, x);
      } else {
        NoneBehindKept(first.bytes, rest, x, s);
      }
    }
  }

  lemma {:induction false} NoneBehindKept(k: Bytes, rest: seq<Stretch>, x: Bytes, s: Bytes)
    requires MarkerFree(s, x) && NoOccurrence(k + Source(rest), s) && NoOccurrence(Shown(rest, x), s)
    ensures NoOccurrence(k + Shown(rest, x), s)
  {
    var shown := Shown(rest, x);
    forall i | 0 <= i < |k + shown| ensures !(s <= (k + shown)[i..]) {
      if i >= |k| {
        assert (k + shown)[i..] == shown[i - |k|..];
      } else {
        var parts := [Kept(k[i..])] + rest;
        assert parts[1..] == rest;
        assert (k + shown)[i..] == k[i..] + shown == Shown(parts, x);
        assert (k + Source(rest))[i..] == k[i..] + Source(rest) == Source(parts);
        if s <= Shown(parts, x) {
          FrontWasThere(parts, x, s);
        }
      }
    }
  }

  lemma {:induction false} PatchedHides(source: Bytes, shown: Bytes, x: Bytes, s: Bytes)
    requires Patched(source, shown, x) && MarkerFree(s, x) && NoOccurrence(source, s)
    ensures NoOccurrence(shown, s)
  {
    var parts :| Source(parts) == source && Shown(parts, x) == shown;
    PatchHides(parts, x, s);
  }

  // ---------------------------------------------------------------- archived text

  predicate Joins(san: Sanitizer, a: string, b: string) {
    san.encode(a + b) == san.encode(a) + san.encode(b)
  }

  ghost predicate Decodes(san: Sanitizer, b: Bytes) {
    Patched(b, san.encode(san.decodeLossy(b)), san.encode([REPLACEMENT]))
  }

  /** Text is encoded character by character, and decoding only replaces what is no text. */
  ghost predicate ConvertsLikeUtf8(san: Sanitizer) {
    && (forall a, b :: Joins(san, a, b))
    && (forall b :: Decodes(san, b))
    && san.encode(REDACTION_MARKER) == REDACTED
  }

  /** The secret avoids everything the sanitizer puts into text. */
  predicate AvoidsInserted(san: Sanitizer, s: Bytes) {
    && MarkerFree(s, REDACTED)
    && MarkerFree(s, san.encode([REPLACEMENT]))
    && MarkerFree(s, san.encode(TRUNCATION_MARKER))
  }

  lemma {:induction false} EncodesEmpty(san: Sanitizer)
    requires ConvertsLikeUtf8(san)
    ensures san.encode([]) == []
  {
    var empty: string := [];
    assert Joins(san, empty, empty) && empty + empty == empty;
    assert |san.encode(empty)| == |san.encode(empty)| + |san.encode(empty)|;
  }

  /** The stretches of an encoded text in which control characters are replaced. */
  function CleanParts(san: Sanitizer, d: string): seq<Stretch> {
    if d == [] then []
    else
      var b := san.encode([d[0]]);
      [if IsForbidden(d[0]) then Gap(b) else Kept(b)] + CleanParts(san, d[1..])
  }

  lemma {:induction false} CleanIsPatch(san: Sanitizer, d: string)
    requires ConvertsLikeUtf8(san)
    ensures Source(CleanParts(san, d)) == san.encode(d)
    ensures Shown(CleanParts(san, d), san.encode([REPLACEMENT])) == san.encode(Clean(d))
    decreases |d|
  {
    if d == [] {
      EncodesEmpty(san);
    } else {
      CleanIsPatch(san, d[1..]);
      var c := if IsForbidden(d[0]) then REPLACEMENT else d[0];
      assert Joins(san, [d[0]], d[1..]) && Joins(san, [c], Clean(d[1..]));
      assert [d[0]] + d[1..] == d && [c] + Clean(d[1..]) == Clean(d);
      assert CleanParts(san, d)[1..] == CleanParts(san, d[1..]);
    }
  }

  lemma {:induction false} TruncateIsPatch(san: Sanitizer, d: string)
    requires ConvertsLikeUtf8(san)
    ensures Patched(san.encode(d), san.encode(Truncate(d)), san.encode(TRUNCATION_MARKER))
  {
    var x := san.encode(TRUNCATION_MARKER);
    if Truncate(d) == d {
      var parts := [Kept(san.encode(d))];
      assert parts[1..] == [] && Source([]) == [] && Shown([], x) == [];
      assert san.encode(d) + [] == san.encode(d);
      assert Source(parts) == san.encode(d) && Shown(parts, x) == san.encode(d);
    } else {
      var k := Fitting(d, MAX_TEXT_BYTES - |TRUNCATION_MARKER|);
      var a, b := san.encode(d[..k]), san.encode(d[k..]);
      assert Joins(san, d[..k], d[k..]) && Joins(san, d[..k], TRUNCATION_MARKER) && d[..k] + d[k..] == d;
      TwoParts(a, b, x);
      var parts := [Kept(a), Gap(b)];
      assert Source(parts) == san.encode(d) && Shown(parts, x) == san.encode(Truncate(d));
    }
  }

  lemma {:induction false} TwoParts(a: Bytes, b: Bytes, x: Bytes)
    ensures Source([Kept(a), Gap(b)]) == a + b && Shown([Kept(a), Gap(b)], x) == a + x
  {
    var parts := [Kept(a), Gap(b)];
    assert parts[1..] == [Gap(b)] && [Gap(b)][1..] == [];
    assert b + [] == b && x + [] == x && Source([]) == [] && Shown([], x) == [];
    assert Source([Gap(b)]) == b;
    assert Shown([Gap(b)], x) == x + Shown([], x);
  }

  /** No known secret is in archived text, through all stages. */
  lemma {:induction false} ArchivedTextHides(san: Sanitizer, text: string, s: Bytes)
    requires ConvertsLikeUtf8(san) && AllMarkerFree(san.secrets, REDACTED)
    requires s in san.secrets && AvoidsInserted(san, s)
    ensures NoOccurrence(san.encode(SanitizeText(san, text)), s)
  {
    Text.FourPrefixesQualify();
    var bytes := Text.SanitizedBytes(san.encode(text), san.secrets, Text.TOKEN_LEADS, REDACTED);
    Text.SanitizedBytesSafe(san.encode(text), san.secrets, Text.TOKEN_LEADS, REDACTED);
    hide Text.SanitizedBytes, NoOccurrence, MarkerFree, AllMarkerFree, Truncate;
    assert NoOccurrence(bytes, s);
    var lossy := san.decodeLossy(bytes);
    assert Decodes(san, bytes);
    PatchedHides(bytes, san.encode(lossy), san.encode([REPLACEMENT]), s);
    CleanIsPatch(san, lossy);
    PatchHides(CleanParts(san, lossy), san.encode([REPLACEMENT]), s);
    TruncateIsPatch(san, Clean(lossy));
    PatchedHides(san.encode(Clean(lossy)), san.encode(Truncate(Clean(lossy))), san.encode(TRUNCATION_MARKER), s);
  }

  // ---------------------------------------------------------------- archived JSON

  /** No string and no key of the value holds the secret. Numbers are not text. */
  predicate Hides(san: Sanitizer, v: Json, s: Bytes)
    decreases v, 1
  {
    match v
    case Text(t) => NoOccurrence(san.encode(t), s)
    case Array(items) => HidesItems(san, items, s)
    case Object(entries) => HidesEntries(san, entries, s)
    case _ => true
  }

  predicate HidesItems(san: Sanitizer, items: seq<Json>, s: Bytes)
    decreases items, 0
  {
    items == [] || (Hides(san, items[0], s) && HidesItems(san, items[1..], s))
  }

  predicate HidesEntries(san: Sanitizer, entries: seq<Entry>, s: Bytes)
    decreases entries, 0
  {
    entries == []
    || ( && NoOccurrence(san.encode(entries[0].key), s)
         && Hides(san, entries[0].value, s)
         && HidesEntries(san, entries[1..], s))
  }

  lemma {:induction false} NoneInMarker(m: Bytes, s: Bytes)
    requires MarkerFree(s, m)
    ensures NoOccurrence(m, s)
  {
    forall k | 0 <= k < |m| ensures !(s <= m[k..]) {
      assert !Compatible(m[k..], s);
    }
  }

  ghost predicate Sanitizes(san: Sanitizer, s: Bytes) {
    && ConvertsLikeUtf8(san) && AllMarkerFree(san.secrets, REDACTED)
    && s in san.secrets && AvoidsInserted(san, s)
  }

  lemma {:induction false} SanitizedHides(san: Sanitizer, v: Json, depth: nat, s: Bytes)
    requires Sanitizes(san, s)
    ensures Hides(san, SanitizeAt(san, v, depth), s)
    decreases v, 1
  {
    hide NoOccurrence, SanitizeText;
    if depth >= MAX_DEPTH {
      NoneInMarker(san.encode(TRUNCATION_MARKER), s);
    } else {
      match v
      case Text(t) => ArchivedTextHides(san, t, s);
      case Array(items) => SanitizedItemsHide(san, items, depth, MAX_ITEMS, s);
      case Object(entries) => SanitizedEntriesHide(san, entries, depth, s);
      case _ =>
    }
  }

  lemma {:induction false} SanitizedItemsHide(san: Sanitizer, items: seq<Json>, depth: nat, room: nat, s: Bytes)
    requires Sanitizes(san, s)
    ensures HidesItems(san, SanitizeItems(san, items, depth, room), s)
    decreases items, 0
  {
    if items != [] && room > 0 {
      SanitizedHides(san, items[0], depth + 1, s);
      SanitizedItemsHide(san, items[1..], depth, room - 1, s);
      hide Hides, SanitizeAt, Sanitizes;
      var r := SanitizeItems(san, items, depth, room);
      assert r[1..] == SanitizeItems(san, items[1..], depth, room - 1);
    }
  }

  lemma {:induction false} SanitizedEntriesHide(san: Sanitizer, entries: seq<Entry>, depth: nat, s: Bytes)
    requires Sanitizes(san, s)
    ensures HidesEntries(san, SanitizeEntries(san, entries, depth), s)
    decreases entries, 0
  {
    if entries != [] {
      var e := entries[0];
      SanitizedEntriesHide(san, entries[1..], depth, s);
      SanitizedHides(san, e.value, depth + 1, s);
      ArchivedTextHides(san, e.key, s);
      NoneInMarker(REDACTED, s);
      hide SanitizeText, SanitizeAt, NoOccurrence, Overwritten, IsSensitive;
      assert Hides(san, Text(REDACTION_MARKER), s);
      hide Hides;
      var rest := SanitizeEntries(san, entries[1..], depth);
      if !Overwritten(san, e.key, entries[1..]) {
        var r := SanitizeEntries(san, entries, depth);
        assert r[1..] == rest;
      }
    }
  }

  /** No known secret is in a string or key of archived JSON. */
  lemma {:induction false} ArchivedJsonHides(san: Sanitizer, v: Json, s: Bytes)
    requires Sanitizes(san, s)
    ensures Hides(san, SanitizeJson(san, v), s)
  {
    SanitizedHides(san, v, 0, s);
    NoneInMarker(san.encode(TRUNCATION_MARKER), s);
  }

  /** A number that fits is archived as it is, whatever secret its digits spell. */
  lemma {:induction false} NumbersAreKept(san: Sanitizer, digits: string)
    ensures SanitizeJson(san, Number(digits)) == Number(digits) <==> Utf8Length(digits) <= 65536
  {
  }
}
