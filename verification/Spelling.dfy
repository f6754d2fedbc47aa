/** Text written out as the bytes it consists of. */
module Spelling {
  import opened Redaction

  function Ascii(s: string): (b: Bytes)
    requires forall i | 0 <= i < |s| :: s[i] < 128 as char
    ensures |b| == |s| && forall i | 0 <= i < |s| :: b[i] as int == s[i] as int
  {
    seq(|s|, i requires 0 <= i < |s| => s[i] as int as Byte)
  }

  /** The marker in use. */
  lemma {:induction false} MarkerText()
    ensures REDACTED == Ascii("[REDACTED]")
  {
  }
}
