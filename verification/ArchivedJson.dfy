/**
 Archived JSON as it is written out: the compact serialization, character by character, against the
 length that the sanitizer and the validator compute without writing it.
 */
module ArchivedJson {
  import opened TelemetryArchive

  const HEX: string := "0123456789abcdef"

  /** One character inside a string (section 7 of RFC 8259), in its shortest form. */
  function EscapedChar(c: char): string {
    if c == '"' then "\\\""
    else if c == '\\' then "\\\\"
    else if c == '\n' then "\\n"
    else if c == '\r' then "\\r"
    else if c == '\t' then "\\t"
    else if c as int == 8 then "\\b"
    else if c as int == 12 then "\\f"
    else if c as int < 0x20 then "\\u00" + [HEX[c as int / 16], HEX[c as int % 16]]
    else [c]
  }

  function EscapedText(s: string): string {
    if s == [] then [] else EscapedChar(s[0]) + EscapedText(s[1..])
  }

  function Quoted(s: string): string {
    "\"" + EscapedText(s) + "\""
  }

  function Written(v: Json): string
    decreases v, 1
  {
    match v
    case Null => "null"
    case Bool(b) => if b then "true" else "false"
    case Number(digits) => digits
    case Text(t) => Quoted(t)
    case Array(items) => "[" + WrittenItems(items) + "]"
    case Object(entries) => "{" + WrittenEntries(entries) + "}"
  }

  function WrittenItems(items: seq<Json>): string
    decreases items, 0
  {
    if items == [] then ""
    else if |items| == 1 then Written(items[0])
    else Written(items[0]) + "," + WrittenItems(items[1..])
  }

  function WrittenEntries(entries: seq<Entry>): string
    decreases entries, 0
  {
    if entries == [] then ""
    else
      var first := Quoted(entries[0].key) + ":" + Written(entries[0].value);
      if |entries| == 1 then first else first + "," + WrittenEntries(entries[1..])
  }

  lemma {:induction false} LengthOfBoth(a: string, b: string)
    ensures Utf8Length(a + b) == Utf8Length(a) + Utf8Length(b)
    decreases |a|
  {
    if a == [] {
      assert a + b == b;
    } else {
      assert (a + b)[1..] == a[1..] + b;
      LengthOfBoth(a[1..], b);
    }
  }

  lemma {:induction false} AsciiText(s: string)
    requires forall i | 0 <= i < |s| :: s[i] as int < 0x80
    ensures Utf8Length(s) == |s|
    decreases |s|
  {
    if s != [] {
      AsciiText(s[1..]);
    }
  }

  lemma {:induction false} EscapedCharLength(c: char)
    ensures Utf8Length(EscapedChar(c)) == EscapedWidth(c)
  {
    if c as int < 0x80 {
      AsciiText(EscapedChar(c));
    } else {
      assert [c][1..] == [];
    }
  }

  lemma {:induction false} EscapedTextLength(s: string)
    ensures Utf8Length(EscapedText(s)) == EscapedLength(s)
    decreases |s|
  {
    if s != [] {
      EscapedTextLength(s[1..]);
      EscapedCharLength(s[0]);
      LengthOfBoth(EscapedChar(s[0]), EscapedText(s[1..]));
    }
  }

  lemma {:induction false} QuotedLength(s: string)
    ensures Utf8Length(Quoted(s)) == 2 + EscapedLength(s)
  {
    EscapedTextLength(s);
    Enclosed("\"", EscapedText(s), "\"");
  }

  lemma {:induction false} Enclosed(open: string, s: string, close: string)
    requires |open| == 1 == |close| && open[0] as int < 0x80 && close[0] as int < 0x80
    ensures Utf8Length(open + s + close) == 2 + Utf8Length(s)
  {
    LengthOfBoth(open + s, close);
    LengthOfBoth(open, s);
    AsciiText(open);
    AsciiText(close);
  }

  /** The computed length of a value is the number of UTF-8 bytes of its compact serialization. */
  lemma {:induction false} LengthIsWritten(v: Json)
    ensures JsonLength(v) == Utf8Length(Written(v))
    decreases v, 1
  {
    hide Utf8Length, Quoted;
    match v
    case Null => AsciiText("null");
    case Bool(b) =>
      AsciiText("true");
      AsciiText("false");
    case Number(digits) =>
    case Text(t) => QuotedLength(t);
    case Array(items) =>
      ItemsWritten(items);
      Enclosed("[", WrittenItems(items), "]");
    case Object(entries) =>
      EntriesWritten(entries);
      Enclosed("{", WrittenEntries(entries), "}");
  }

  lemma {:induction false} Separated(first: string, rest: string)
    ensures Utf8Length(first + "," + rest) == Utf8Length(first) + 1 + Utf8Length(rest)
    ensures Utf8Length(first + ":" + rest) == Utf8Length(first) + 1 + Utf8Length(rest)
  {
    LengthOfBoth(first + ",", rest);
    LengthOfBoth(first, ",");
    LengthOfBoth(first + ":", rest);
    LengthOfBoth(first, ":");
    AsciiText(",");
    AsciiText(":");
  }

  lemma {:induction false} ItemsWritten(items: seq<Json>)
    ensures ItemsLength(items) == Utf8Length(WrittenItems(items))
    decreases items, 0
  {
    AsciiText("");
    hide Utf8Length, Written, JsonLength;
    if items != [] {
      LengthIsWritten(items[0]);
      ItemsWritten(items[1..]);
      if |items| > 1 {
        Separated(Written(items[0]), WrittenItems(items[1..]));
      }
    }
  }

  lemma {:induction false} EntriesWritten(entries: seq<Entry>)
    ensures EntriesLength(entries) == Utf8Length(WrittenEntries(entries))
    decreases entries, 0
  {
    AsciiText("");
    hide Utf8Length, Written, JsonLength, EscapedLength, Quoted;
    if entries != [] {
      var e := entries[0];
      LengthIsWritten(e.value);
      EntriesWritten(entries[1..]);
      QuotedLength(e.key);
      Separated(Quoted(e.key), Written(e.value));
      if |entries| > 1 {
        Separated(Quoted(e.key) + ":" + Written(e.value), WrittenEntries(entries[1..]));
      }
    }
  }

  /** Archived JSON takes up at most 65536 bytes, and only what would take up more is cut. */
  lemma {:induction false} ArchivedJsonFits(san: Sanitizer, v: Json)
    ensures Utf8Length(Written(SanitizeJson(san, v))) <= 65536
    ensures Utf8Length(Written(SanitizeAt(san, v, 0))) <= 65536 ==> SanitizeJson(san, v) == SanitizeAt(san, v, 0)
    ensures Utf8Length(Written(SanitizeAt(san, v, 0))) > 65536 ==> SanitizeJson(san, v) == Text("[TRUNCATED]")
  {
    LengthIsWritten(SanitizeJson(san, v));
    LengthIsWritten(SanitizeAt(san, v, 0));
    LengthIsWritten(Text(TRUNCATION_MARKER));
    hide JsonLength, Written, SanitizeAt;
    MarkerTextPasses();
  }
}
