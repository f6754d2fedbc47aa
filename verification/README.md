# Verified model of Word Arena's agent runtime and services

Word Arena lets autonomous agents play a word game. This project models the parts of it whose
correctness is hardest to see from one function at a time, and proves what they promise over all
inputs, all chunkings, all interleavings and all runs:

- **Redaction.dfy, RedactingStream.dfy, SingleSecret.dfy, SecretPairs.dfy, Reports.dfy,
  RedactingProcess.dfy, ProcessRuns.dfy** — secrets are removed from the two output streams of an agent process while the
  streams are still arriving. From the script of any process to the answers of any number of calls, no
  secret is handed on across a chunk, a line or the flush at exit, and at an exit the answers are the
  one-shot redaction of what was read. The side conditions are exact, each with the run that fails
  beyond it: for one secret a newline inside it or text around the marker that can hold it, for two
  secrets that the second can use up the front of the first, a secret longer than 16385 bytes, and
  output after an exit. For lists, that secrets avoid the marker and each other is a sufficient
  condition.
- **TelemetryText.dfy, TelemetryArchive.dfy, TelemetrySecrecy.dfy, ArchivedValues.dfy,
  ArchivedJson.dfy** — the telemetry sanitizer: no known secret is left in archived text, and the
  sanitizer against the validator that was written separately. Capturing accepts its own archive exactly
  when no retained tool JSON has a null under a sensitive key at the last depth; that family of inputs is
  really rejected. What an archive holds is also stated without the sanitizer: which keys are masked,
  what every other entry keeps, and that the computed length is the length of the JSON as written.
- **Lifecycle.dfy, DriverTelemetry.dfy, Turns.dfy, GenericDriver.dfy, HarnessRuns.dfy,
  NativeHarness.dfy, LineDecoder.dfy** — the two agent drivers, and what one turn and one harness run mean. Every await may be cancelled, fail, or be dropped by the caller. A driver's log
  obeys a law about three consecutive entries; from the law follow absorbing termination, that an
  abandoned turn is never taken up again, that a turn is always probed for, and that recorded turns
  are exactly completed turns, across any chain of checkpoints and restores.
- **Budget.dfy, BudgetedDriver.dfy** — saturating meters over a whole run, and the process and driver
  wrappers that charge one shared controller; what a whole run of turns begins, hears and returns.
- **Invalidation.dfy** — the WebSocket invalidation protocol as interleaved steps of writers and
  sockets over a lossy bounded channel.
- **TokenBucket.dfy** — exact integer refill with a carried remainder, and the earliest retry.
- **EventStream.dfy** — draining server-sent events (section 9.2.5 of the WHATWG HTML Standard) out
  of arbitrarily cut chunks, with what exactly was forwarded when a chunk ends the stream.
- **Rating.dfy, Export.dfy, Capability.dfy, Ordering.dfy** — rating-period cross-checks, the ordered
  export stream, and the capability wire format that three parts of the system recognise separately.
- **Process.dfy, Integers.dfy, Spelling.dfy** — values shared by everything that supervises a process,
  machine integers, and text written out as bytes.

Conventions: bytes are `Byte`, text is `string` where characters matter and `Bytes` where the code
works on bytes. What a clock, an adapter, a process, a cancellation token, serde, SHA-256 or the
floating-point rating step does is a parameter; `Await` and `Kill` say how an await ends. Sorting in
the standard library is a stable insertion sort here. Where a Rust method changes its fields, the
model is a class with those fields; ghost fields record the run so far.

Findings where the code does not meet the obvious reading:

- `take_line` hands on the first line of a secret that has a newline inside it (`ExactNewlineCondition`).
- Overlapping secrets never leak, but the text around them can depend on how the stream was cut. For
  two secrets this is settled: all runs are right exactly when the first secret occurs in the second,
  or no proper front of the first ends with the second or is an ending of it (`PairStreamsIff`).
- A secret that the flush at an exit cuts in two is handed on in the clear if the process writes again
  (`ExitCutLeaks`). No secret ever is, over any number of exits, exactly when every secret holds a byte
  that is a secret by itself (`LivesWithholdIff`); each life by itself is redacted at once.
- A secret that is a proper part of the marker, such as `REDACTED`, is wrapped again by every read
  (`MarkerPartGrows`). One secret is redacted right in all runs exactly when it is the marker itself, or
  has no inner newline, cannot start in a marker, and no front of it that stays in front of a replaced
  one can go on with a marker (`SingleSecretIff`).
- With a secret of more than 16385 bytes, five reads of at most 4096 bytes can make `next_event` answer
  with empty output for ever, without reading again (`ExactProgressCondition`, `LongSecretStalls`).
- JSON numbers are archived as they are, whatever secret their digits spell (`NumbersAreKept`).
- `capture` rejects its own archive for a null under a sensitive key at depth 31 (`DeepNullRejected`).
- A budget limit of `u64::MAX` never refuses anything, because the counter saturates there (`LimitHoldsIff`).
- `refill_bucket` refuses a clock difference beyond `i64`, which a refill on the way would have split
  or, at the two ends of the clock, hidden by filling the bucket (`PathIndependentIff`). The
  subtraction is taken to wrap, as in a release build.
- `resume` of the generic driver reports success for a driver whose turn was dropped half-way. Success
  means that a turn can run exactly when no turn or termination was dropped before
  (`GenericCommandDriver.Resume`); otherwise every later turn is refused, whatever is called, and no
  checkpoint can be taken until the driver is terminated (`CallsAfterDrop`).
- A malformed event makes the forwarder drop the good frames that the same chunk completed, and only
  those (`LostFrames`), so what is forwarded depends on the chunking exactly when a good frame stands
  in front of the malformed one (`CutsDecideIff`).

## Model

| member | source | states |
|---|---|---|
| Redaction.RedactBytes | crates/agent-runtime/src/workspace.rs:1152-1165 | the splice loops over all secrets compute, secret by secret, the left-to-right replacement of every non-overlapping occurrence |
| Redaction.RedactOne | crates/agent-runtime/src/workspace.rs:1154-1162 | the inner loop terminates although the buffer can grow, and is one replacement pass |
| Redaction.OnlyOccurrencesChange | crates/agent-runtime/src/workspace.rs:1152-1165 | the text between replaced occurrences is kept: pieces joined by the secret are the input, joined by the marker the output |
| Redaction.RedactAppend | crates/agent-runtime/src/workspace.rs:1081-1084 | redacting what was already redacted, with more text behind it, equals redacting everything once |
| Redaction.RedactAllAppend | crates/agent-runtime/src/workspace.rs:1081-1084 | the same for a list of secrets that cannot overlap each other |
| Redaction.PassesCommute | crates/agent-runtime/src/workspace.rs:1153 | the passes of two non-overlapping secrets commute |
| Redaction.AllPassesLeaveNone | crates/agent-runtime/src/workspace.rs:1152-1165 | after all passes no secret of the list occurs, even if an earlier pass was followed by others |
| Redaction.SealedKept | crates/agent-runtime/src/workspace.rs:1067-1084 | text in which no secret can start, whatever follows, is never touched by later redaction |
| RedactingStream.RunIsSafe | crates/agent-runtime/src/workspace.rs:1061-1145 | in every run the buffer holds no secret and none can start in what was handed on |
| RedactingStream.NoSecretDelivered | crates/agent-runtime/src/workspace.rs:1061-1145 | no secret occurs in the bytes handed on, inside or across events, nor across the flush at exit |
| RedactingStream.RunAgrees | crates/agent-runtime/src/workspace.rs:1061-1145 | at every point of every run of a list for which two reads are redacted as one, delivered text plus the future of the buffer is the redaction of everything read |
| RedactingStream.StreamingIsOneShot | crates/agent-runtime/src/workspace.rs:1061-1165 | for secrets that cannot overlap, every way of cutting the input and every hand-on in between, the delivered stream is the one-shot redaction |
| RedactingStream.StreamingIff | crates/agent-runtime/src/workspace.rs:1061-1165 | for any list of one-line, marker-avoiding secrets, all runs are right exactly when all pairs of reads are redacted as their concatenation |
| RedactingStream.ExactNewlineCondition | crates/agent-runtime/src/workspace.rs:1061-1065 | for a secret that avoids the marker, all runs are right exactly when no newline is inside the secret |
| RedactingStream.InnerNewlineLeaks | crates/agent-runtime/src/workspace.rs:1061-1065 | the run that hands on such a secret in the clear |
| SecretPairs.PairStreamsIff | crates/agent-runtime/src/workspace.rs:1081-1084 | all runs over two secrets are right exactly when the first occurs in the second, or no proper front of the first ends with the second or is an ending of it |
| SecretPairs.HarmlessAppends | crates/agent-runtime/src/workspace.rs:1152-1165 | for such a pair redacting a redacted text with more behind it is redacting everything once |
| SecretPairs.HarmfulPairDependsOnCuts | crates/agent-runtime/src/workspace.rs:1081-1084 | for every other pair, two reads ending in the first secret whose streamed text differs from the one-shot text, with the marker in use |
| RedactingStream.LivesWithholdIff | crates/agent-runtime/src/workspace.rs:1086-1100 | over any number of lives, each flushed at its exit, no secret is handed on exactly when every secret holds a byte that is a secret by itself |
| RedactingStream.OneSecretWithheldIff | crates/agent-runtime/src/workspace.rs:1086-1100 | for one secret that is exactly when it has one byte |
| SingleSecret.SingleSecretIff | crates/agent-runtime/src/workspace.rs:1061-1165 | for any one secret and any marker all runs are right exactly when the secret is the marker, or has no inner newline and is clear of the marker |
| SingleSecret.ClearIff | crates/agent-runtime/src/workspace.rs:1152-1165 | a secret is clear exactly when no text that the replacement leaves holds it |
| SingleSecret.ClearRunAgrees | crates/agent-runtime/src/workspace.rs:1061-1145 | for a clear one-line secret delivered text plus the future of the buffer is the redaction of everything read, at every point of every run |
| SingleSecret.ClashFails | crates/agent-runtime/src/workspace.rs:1152-1165 | for every other secret but the marker, one read that is redacted wrongly once it is flushed |
| RedactingStream.MarkerPartGrows | crates/agent-runtime/src/workspace.rs:1081-1084 | every read makes the buffer longer then, even one that brings nothing |
| RedactingStream.ExactProgressCondition | crates/agent-runtime/src/workspace.rs:1067-1079 | no run reaches an over-full buffer without a line that is held back whole, exactly when the longest secret has at most 16385 bytes; otherwise one read reaches it |
| RedactingStream.StuckStays | crates/agent-runtime/src/workspace.rs:1061-1079 | a line or chunk step leaves such a stream as it is |
| RedactingProcesses.TakeLine | crates/agent-runtime/src/workspace.rs:1061-1065 | a line is taken exactly when there is a newline, is never empty, and is the Line step of the stream model |
| RedactingProcesses.TakeBoundedChunk | crates/agent-runtime/src/workspace.rs:1067-1079 | a chunk is taken exactly beyond 16384 bytes; chunk and rest are the buffer; empty exactly when the longest secret holds everything back |
| RedactingProcesses.PlainSecretsQualify | crates/agent-runtime/src/workspace.rs:1157 | secrets without newline and brackets that are no part of the marker meet all side conditions |
| RedactingProcesses.RedactingProcess.constructor | crates/agent-runtime/src/workspace.rs:1051-1059 | nothing read, queued or handed on |
| RedactingProcesses.RedactingProcess.ReadStdout | crates/agent-runtime/src/workspace.rs:1081-1084 | appending re-redacts the buffer and keeps the stream on its run |
| RedactingProcesses.RedactingProcess.QueueExit | crates/agent-runtime/src/workspace.rs:1086-1100 | what is left of standard output, then of standard error, each redacted and left out when empty, then the exit |
| RedactingProcesses.RedactingProcess.TakeReady | crates/agent-runtime/src/workspace.rs:1119-1133 | what is ready goes out in this order: queued events, lines of standard output and error, bounded chunks; nothing exactly when none is ready; what goes out is handed on and no longer held; a stuck stream yields an empty chunk |
| RedactingProcesses.RedactingProcess.NextEvent | crates/agent-runtime/src/workspace.rs:1116-1145 | no report is lost, made up or read twice, and exactly the answer is handed on; whenever everything is handed on each stream is its lives redacted at once; no secret over all events if exits are final or secrets are covered; a stuck stream reads nothing and stays stuck, any other call makes progress |
| ProcessRuns.Calls | crates/agent-runtime/src/workspace.rs:1116-1145 | any process and any number of calls: all answers together hold no secret and are the front of the one-shot redaction of exactly the reports read, all of it when the last is an exit; a call waits only when nothing is left to read |
| ProcessRuns.ReadOut | crates/agent-runtime/src/workspace.rs:1116-1145 | calling until nothing more is reported ends; the answers hold every exit and failure in order, no empty output, and the one-shot redaction of the whole script when it ends in an exit |
| ProcessRuns.ExitCutLeaks | crates/agent-runtime/src/workspace.rs:1086-1100 | a process that exits in the middle of a secret and writes the rest: the answers hold the secret in the clear |
| ProcessRuns.LongSecretStalls | crates/agent-runtime/src/workspace.rs:1116-1145 | with a secret beyond 16385 bytes, a process whose reads of at most 4096 bytes leave the wrapper stuck: any number of calls answer with empty output and never read what follows |
| TelemetryText.RedactPrefixedTokens | crates/agent-runtime/src/telemetry.rs:772-800 | the in-place loop terminates and replaces every token behind the prefix |
| TelemetryText.TokenEnd | crates/agent-runtime/src/telemetry.rs:779-787 | the inner loop stops at the first delimiter |
| TelemetryText.OnlyTokensChange | crates/agent-runtime/src/telemetry.rs:772-800 | a pass changes nothing but whole tokens, up to the next delimiter, that stand right behind the prefix |
| TelemetryText.PassMasks | crates/agent-runtime/src/telemetry.rs:772-800 | after its pass every occurrence of a prefix is followed by the end, a delimiter or the marker |
| TelemetryText.LaterPassKeeps | crates/agent-runtime/src/telemetry.rs:570-572 | a later prefix pass keeps what an earlier one established |
| TelemetryText.AllPrefixesMasked | crates/agent-runtime/src/telemetry.rs:570-572 | after all passes every occurrence of every prefix is closed |
| TelemetryText.PrefixPassCreatesNone | crates/agent-runtime/src/telemetry.rs:567-572 | a prefix pass never brings a removed secret back |
| TelemetryText.SanitizedBytesSafe | crates/agent-runtime/src/telemetry.rs:565-572 | behind both stages no known secret is left and every prefix is closed |
| TelemetryText.FourPrefixesQualify | crates/agent-runtime/src/telemetry.rs:570 | the four prefixes in use meet every side condition with the marker in use |
| TelemetrySecrecy.ArchivedTextHides | crates/agent-runtime/src/telemetry.rs:565-588 | through byte passes, lossy decoding, control replacement and truncation no known secret is left that avoids the inserted texts |
| TelemetrySecrecy.ArchivedJsonHides | crates/agent-runtime/src/telemetry.rs:590-642 | nor in any string or key of archived JSON |
| TelemetrySecrecy.PatchHides | crates/agent-runtime/src/telemetry.rs:573-588 | replacing any stretches by a text the secret avoids brings no secret about |
| TelemetrySecrecy.NumbersAreKept | crates/agent-runtime/src/telemetry.rs:601-642 | a number is archived as it is |
| TelemetryArchive.TruncateFits | crates/agent-runtime/src/telemetry.rs:802-817 | truncation fits the limit, keeps the longest prefix that leaves room for the marker, and leaves fitting text alone |
| TelemetryArchive.SanitizedTextPasses | crates/agent-runtime/src/telemetry.rs:565-588 | sanitized text always passes the validator's text check |
| TelemetryArchive.SanitizedPassesIff | crates/agent-runtime/src/telemetry.rs:601-642 | a sanitized value within the size limit passes the validator at its depth exactly when the input has no null under a sensitive key at the last depth; which keys are sensitive is NamedIffSensitive |
| TelemetryArchive.SanitizeJsonPassesIff | crates/agent-runtime/src/telemetry.rs:590-599 | the same for the whole value with its size limit |
| TelemetryArchive.CaptureSucceedsIff | crates/agent-runtime/src/telemetry.rs:305-368 | capture returns an archive exactly when its input checks pass and all retained tool JSON is archivable |
| TelemetryArchive.TurnPassesIff | crates/agent-runtime/src/telemetry.rs:418-479 | an archived turn passes the validator exactly when its retained calls are archivable |
| TelemetryArchive.DeepNullRejected | crates/agent-runtime/src/telemetry.rs:841-869 | a null under any sensitive key, 31 arrays deep, is rejected by the validator after sanitizing |
| ArchivedValues.NamedIffSensitive | crates/agent-runtime/src/telemetry.rs:819-831 | a key is sensitive exactly when it equals one of the nine names, character by character, up to ASCII case |
| ArchivedValues.SanitizedIsFine | crates/agent-runtime/src/telemetry.rs:601-642 | at every level of a sanitized value, an entry under one of the nine names holds null, the redaction marker or, at the last depth, the truncation marker; depth, items and texts are within their bounds |
| ArchivedValues.AcceptedIsFine | crates/agent-runtime/src/telemetry.rs:834-869 | the same of everything the validator accepts |
| ArchivedValues.ObjectKeeps | crates/agent-runtime/src/telemetry.rs:620-640 | an object keeps, in order, the last entry of every sanitized key, masked exactly under the nine names and sanitized otherwise |
| ArchivedValues.ArrayKeeps | crates/agent-runtime/src/telemetry.rs:612-619 | an array keeps its first 1024 items, each sanitized |
| ArchivedValues.ArchivedJsonInPlainTerms | crates/agent-runtime/src/telemetry.rs:590-642 | archived JSON is fine at every level; plain JSON that fits is archived unchanged, and only what does not fit is replaced, by the truncation marker |
| ArchivedValues.TokensAreMasked | crates/agent-runtime/src/telemetry.rs:570-572 | behind each of the four prefixes, letter by letter, stands the end, one of the eleven delimiters or the marker |
| ArchivedValues.CaptureInPlainTerms | crates/agent-runtime/src/telemetry.rs:305-368 | when capture succeeds, and then which events, turns, diagnostics and tool calls it keeps, each text in its own place, and the bounds on everything |
| ArchivedJson.LengthIsWritten | crates/agent-runtime/src/telemetry.rs:590-599 | the length both sides compute is the number of UTF-8 bytes of the compact serialization, escapes included |
| ArchivedJson.ArchivedJsonFits | crates/agent-runtime/src/telemetry.rs:590-599 | archived JSON takes up at most 65536 bytes as written, and only a value that would take up more is cut |
| Lifecycle.TerminatedIsFinal | crates/agent-runtime/src/driver.rs:1048-1075 | Terminated is absorbing for the rest of a life; a native driver never logs again |
| Lifecycle.AbandonedIsFinal | crates/agent-runtime/src/driver.rs:1048-1075 | once a termination was begun behind a start or turn that had not ended, the log only alternates between terminating and that state until it is terminated |
| Lifecycle.NoTurnAfterAbandoned | crates/agent-runtime/src/driver.rs:1048-1075 | no turn completes behind such a termination |
| Lifecycle.LivesJoin | crates/agent-runtime/src/driver.rs:634-731 | the logs of a saved and a restored driver together obey the law of one life |
| Lifecycle.CompletedTurnsJoin | crates/agent-runtime/src/driver.rs:634-731 | the turns completed before and after a restore add up |
| Lifecycle.ProbedBeforeTurn | crates/agent-runtime/src/harness.rs:862-895 | every running turn, and every Ready, is preceded in its life by a passed probe with no crash in between |
| DriverTelemetry.HistoryLogged | crates/agent-runtime/src/driver.rs:733-740 | a lawful transition keeps the history |
| DriverTelemetry.HistoryTurn | crates/agent-runtime/src/driver.rs:981-989 | recording a turn and becoming Ready keeps the history |
| DriverTelemetry.HistoryComposes | crates/agent-runtime/src/driver.rs:634-731 | any chain of checkpoints and restores leaves one history |
| DriverTelemetry.TurnsAreCompletions | crates/agent-runtime/src/driver.rs:893-993 | over a whole life the recorded turns are exactly, and in order, the turns that ran to completion |
| Turns.AnswerIsOneLine | crates/agent-runtime/src/driver.rs:927-993 | a successful turn's standard output was one line and its newline and nothing else, and that line parses to the answer |
| Turns.TurnOnRecord | crates/agent-runtime/src/driver.rs:893-995 | however its awaits end, a turn leaves at most one beginning on record, and exactly when it returns an output one more recorded turn, with the request's identity and input and the output's text and tool calls |
| Turns.TurnInPlainTerms | crates/agent-runtime/src/driver.rs:893-995 | what a turn is refused for and with which error; that any other one is logged, that an output is recorded with its own request, and which state belongs to which reply |
| Turns.FirstLoudReadDecides | crates/agent-runtime/src/driver.rs:927-993 | the first read that ends the listening decides: a drop, a cancellation, an error, an exit, too much output, or the line, judged; everything from standard error before it is noted |
| Turns.JudgeIsVerdict | crates/agent-runtime/src/driver.rs:955-990 | a line is answered exactly for one framed line that parses, has schema 1 and names this turn; each other case has its own error |
| Turns.StderrIsNoted | crates/agent-runtime/src/driver.rs:943-947 | every read of standard error is one numbered diagnostic, in order, and nothing else changes |
| Turns.EndsInPlainTerms | crates/agent-runtime/src/driver.rs:752-796 | a cancellation terminates and a failure crashes the driver; which diagnostics each leaves |
| GenericDriver.CheckpointsRestore | crates/agent-runtime/src/driver.rs:709-731 | every reachable stable state yields a checkpoint that restore accepts |
| GenericDriver.RestoreWithProcessSpec | crates/agent-runtime/src/driver.rs:634-701 | restores exactly the checkpoints that pass the checks; the restored driver's checkpoint is the one it came from |
| GenericDriver.GenericCommandDriver.constructor | crates/agent-runtime/src/driver.rs:531-580 | a pending driver with a one-entry log |
| GenericDriver.GenericCommandDriver.TakeCheckpoint | crates/agent-runtime/src/driver.rs:709-731 | succeeds exactly in stable states and is always restorable |
| GenericDriver.GenericCommandDriver.CancellationError | crates/agent-runtime/src/driver.rs:752-769 | terminated and nothing held, or dropped during the kill with nothing changed |
| GenericDriver.GenericCommandDriver.ProtocolFailure | crates/agent-runtime/src/driver.rs:771-796 | crashed and nothing held, or dropped during the kill with nothing changed |
| GenericDriver.GenericCommandDriver.Start | crates/agent-runtime/src/driver.rs:853-891 | the outcome, record and held process for every way the spawn can end |
| GenericDriver.GenericCommandDriver.AwaitAnswer | crates/agent-runtime/src/driver.rs:927-993 | the reading loop over the decoder is: collect until a newline, which must complete exactly one line |
| GenericDriver.GenericCommandDriver.RequestTurn | crates/agent-runtime/src/driver.rs:893-995 | result, record, state and held process of a turn for every end of every await; an output is recorded last with this request's identity and input and the output's own text and calls; the decoder is empty whenever the driver is ready |
| GenericDriver.GenericCommandDriver.Resume | crates/agent-runtime/src/driver.rs:997-1046 | reattach, replacement or restart, with exactly one restart counted for each new process; a failed or dropped attempt leaves the driver resumable; success means a turn can run, exactly when no turn or termination was dropped before |
| GenericDriver.GenericCommandDriver.Respawn | crates/agent-runtime/src/driver.rs:825-838 | a failed or dropped replacement changes nothing |
| GenericDriver.GenericCommandDriver.Terminate | crates/agent-runtime/src/driver.rs:1048-1075 | idempotent when terminated; a failed kill goes back to the state before, a dropped one stays terminating |
| GenericDriver.CallsAfterDrop | crates/agent-runtime/src/driver.rs:853-1075 | after an operation was dropped half-way, any series of start, resume, terminate and turn calls has each of its turns refused and none recorded, stays in that state until terminated, and gives a checkpoint exactly when terminated |
| HarnessRuns.CollectedAll | crates/agent-runtime/src/harness.rs:524-567 | a completed run captured all standard output up to the exit, within the bound, and the size of standard error |
| HarnessRuns.FirstEndDecides | crates/agent-runtime/src/harness.rs:524-567 | the first read that is not output, or goes beyond the bound, decides how a run ends; an exit captures everything before it and its gravest finding |
| HarnessRuns.ExitsMeans | crates/agent-runtime/src/harness.rs:511-567 | a run exits only if it was started, its input closed, and an exit followed bounded output, all of which it captured |
| HarnessRuns.RunErrorsInPlainTerms | crates/agent-runtime/src/harness.rs:511-592 | a run goes unanswered exactly when its future was dropped while it was awaited or in the kill; a probe passes its error on, and calls a harness that could not be started unavailable |
| HarnessRuns.UnfinishedInPlainTerms | crates/agent-runtime/src/harness.rs:511-592 | a run that did not exit leaves the record alone, terminated, or crashed with nothing noted, by its reply |
| HarnessRuns.ExitedTurnInPlainTerms | crates/agent-runtime/src/harness.rs:752-835 | a turn whose process exited answers exactly on a successful exit with an answer in its output, which is recorded under this turn and leaves it ready; every other case crashes with its own error and diagnostic |
| HarnessRuns.ExitedProbeInPlainTerms | crates/agent-runtime/src/harness.rs:593-649 | a probe whose process exited is ready exactly on success with the expected, supported version; which error and diagnostics every other case leaves |
| NativeHarness.TurnsAreProbed | crates/agent-runtime/src/harness.rs:404-435 | since its creation or restore a driver only entered turns behind a probe of its own that passed, with no crash in between |
| NativeHarness.NativeHarnessDriver.Restore | crates/agent-runtime/src/harness.rs:404-435 | a restored driver's checkpoint is the one it came from, and a restored Ready needs a probe |
| NativeHarness.NativeHarnessDriver.TakeCheckpoint | crates/agent-runtime/src/harness.rs:452-469 | succeeds exactly in stable states and passes the restore checks |
| NativeHarness.NativeHarnessDriver.RunProcess | crates/agent-runtime/src/harness.rs:511-568 | result and record for every end of every await of one process run; nothing but a cancellation that came through is recorded |
| NativeHarness.NativeHarnessDriver.CollectOutput | crates/agent-runtime/src/harness.rs:524-567 | the accumulating loop is the bounded collection of standard output |
| NativeHarness.NativeHarnessDriver.Probe | crates/agent-runtime/src/harness.rs:570-649 | ready exactly after a run that exits successfully and reports the expected, supported version; which error, exit and diagnostics every other end leaves |
| NativeHarness.NativeHarnessDriver.Start | crates/agent-runtime/src/harness.rs:847-860 | only a pending driver probes |
| NativeHarness.NativeHarnessDriver.Resume | crates/agent-runtime/src/harness.rs:878-896 | nothing to do when ready and probed; otherwise only a passing probe makes it ready |
| NativeHarness.NativeHarnessDriver.RequestTurn | crates/agent-runtime/src/harness.rs:728-799 | refused without a probe; an output comes only from a successful exit, leaves the driver ready, and is recorded with this request; result and record for every other end; no process is held in a stable state |
| NativeHarness.NativeHarnessDriver.Terminate | crates/agent-runtime/src/harness.rs:898-922 | as for the generic driver |
| NativeHarness.NativeCallsAfterDrop | crates/agent-runtime/src/harness.rs:728-922 | the same for the native driver, which only a termination changes at all |
| LineDecoder.SplitInverse | crates/agent-runtime/src/driver.rs:1100-1111 | the newline split loses nothing and leaves no newline in a line or the rest |
| LineDecoder.SplitAppend | crates/agent-runtime/src/driver.rs:1094-1112 | splitting an extension is splitting the old rest with the new text behind it |
| LineDecoder.DrainLines | crates/agent-runtime/src/driver.rs:1100-1111 | the drain loop yields the trimmed lines in order, or fails exactly when one is empty |
| LineDecoder.JsonLineDecoder.Push | crates/agent-runtime/src/driver.rs:1094-1112 | all frames so far plus the buffer are the newline split of all input so far; no frame is empty or holds a newline; the bound holds; a refused size changes nothing |
| Budget.MeterIsTotal | crates/agent-runtime/src/budget.rs:380-390 | a meter is the exact total cut off at u64::MAX |
| Budget.RefusalLasts | crates/agent-runtime/src/budget.rs:380-404 | once a charge is refused, every later charge of that dimension is |
| Budget.LimitHoldsIff | crates/agent-runtime/src/budget.rs:380-404 | no run is granted more than the limit, exactly when the limit is below u64::MAX |
| Budget.BudgetController.AddAndCheck | crates/agent-runtime/src/budget.rs:380-440 | a charge adds to the counter of its dimension and no other, fails exactly when that counter exceeds the budget's own field for it, and the failure is reported with both |
| Budget.ReadInPlainTerms | crates/agent-runtime/src/budget.rs:570-588 | a read within the limit is passed on and charged; beyond it, and on a timeout, the limit error stands in its place unless the kill was cancelled or dropped |
| Budget.BudgetController.RecordWallTimeout | crates/agent-runtime/src/budget.rs:353-361 | at most one wall-time event per run, beyond the limit |
| Budget.BudgetController.NextEvent | crates/agent-runtime/src/budget.rs:566-588 | exactly the bytes handed on are granted, every byte read is charged, output is refused exactly beyond the limit, and a timeout is reported |
| Budget.BudgetController.Hear | crates/agent-runtime/src/budget.rs:566-588 | one read under cancellation is the metering function of the read, what was consumed and the limit; no other meter moves |
| Budget.BudgetController.HearAll | crates/agent-runtime/src/workspace.rs:676-684 | the reads of one turn on the shared controller are the metering function of the raw reads; exactly the bytes heard are granted |
| Budget.MeteredFaithfully | crates/agent-runtime/src/budget.rs:566-588 | everything heard came from the process, read by read; the turn reads exactly until it has heard enough; every byte taken is charged |
| Budget.MeteredWithin | crates/agent-runtime/src/budget.rs:566-588 | what a turn hears stays within what was left of the limit |
| Budget.ListensWhileBuffered | crates/agent-runtime/src/driver.rs:927-960 | a turn that has heard enough does not depend on later reads, one that has not is still listening |
| BudgetedDriver.BudgetedAgentDriver.RequestTurn | crates/agent-runtime/src/budget.rs:643-689 | a turn starts exactly while the attempts counted are within `attempts`, an output is returned only within `toolCalls`; a started turn is an inner turn over exactly the metered reads, with its reply passed on, mapped or replaced as the limits say; an exceeded budget terminates the driver, and a timeout is reported |
| BudgetedDriver.BudgetedTurnBegins | crates/agent-runtime/src/budget.rs:643-689 | a metered turn begins at most one inner turn on record, and none if it was refused |
| BudgetedDriver.BudgetedAgentDriver.RunTurns | crates/agent-runtime/src/budget.rs:643-689 | over any run of turns exactly as many start as are left of `attempts`, and the inner driver begins no more; the tool calls of all replies stay within `toolCalls` and the bytes all turns heard from their own processes within `outputBytes` |
| Invalidation.StepKeepsInv | apps/server/src/transport.rs:146-168 | every step of every party keeps the protocol invariant |
| Invalidation.SentVersionsIncrease | apps/server/src/transport.rs:1034-1069 | in every interleaving the versions sent on a socket are committed and strictly increase above the client's version |
| Invalidation.DrainedSocketIsCurrent | apps/server/src/transport.rs:973-1069 | in every interleaving a drained socket has caught up with every marker on its channel, lost ones included; which markers are there is PublishedHolds |
| Invalidation.WorldRecordsSteps | apps/server/src/transport.rs:146-168 | in every run a game's version is the number of its commits, and its channel holds exactly the versions the steps published, in order |
| Invalidation.PublishedReachesSocket | apps/server/src/transport.rs:158-168 | in every run, a version published by any step has reached the client of every drained socket of that game |
| Invalidation.ReadVersionsReachClient | apps/server/src/transport.rs:1029-1069 | a version that a socket read at a snapshot or after a loss reaches its client before the socket listens on |
| Invalidation.NewestIsSent | apps/server/src/transport.rs:1034-1069 | once the newest commit is published, it is the last version sent on every drained socket whose client came with less |
| Invalidation.LossIsReportedIff | apps/server/src/transport.rs:1050-1069 | a loss is reported exactly when more than 64 markers are unread, and leaves the newest 64; otherwise one marker is taken, and sent exactly if it is news |
| Invalidation.CatchUp | apps/server/src/transport.rs:1043-1069 | with the writers paused, a bounded number of the socket's own enabled steps, which touch nothing else, ends drained and current, or closed exactly when it was closed or the client claimed a future version |
| Invalidation.OwnStepAdvances | apps/server/src/transport.rs:973-1069 | a live socket's next step is enabled, keeps the invariant and brings it closer, and closes it exactly for a client that claimed a future version |
| TokenBucket.RefillIsIdeal | crates/application/src/scheduler.rs:283-320 | the width-limited arithmetic never saturates in range and equals the unbounded refill |
| TokenBucket.RefillCases | crates/application/src/scheduler.rs:283-320 | a refill is refused exactly for a clock that ran back, a zero or negative policy field, or a wait beyond i64; what every other refill returns |
| TokenBucket.RefillPathIndependent | crates/application/src/scheduler.rs:283-320 | a refill on the way changes nothing |
| TokenBucket.AnyScheduleIsOneRefill | crates/application/src/scheduler.rs:283-320 | any nondecreasing series of refills equals one refill at the last time |
| TokenBucket.PathIndependentIff | crates/application/src/scheduler.rs:302-303 | path independence holds exactly when the policy is refused, the bucket is full, the clock difference fits, or it spans the whole clock and the longest fitting wait does not fill the bucket |
| TokenBucket.SpentIsPaidFor | crates/application/src/scheduler.rs:283-320 | in any run of attempts, tokens spent and left are paid for by the start and the elapsed time |
| TokenBucket.SpendingBound | crates/application/src/scheduler.rs:283-320 | spending never exceeds capacity plus what the elapsed time and the carried remainder earned |
| TokenBucket.SpendingBoundExact | crates/application/src/scheduler.rs:283-320 | from any state a refill leaves, spending never exceeds capacity plus floor(elapsed * refill / interval) |
| TokenBucket.AcquireSettles | crates/application/src/scheduler.rs:311-319 | every refill and take leaves less than one token of remainder, and none when full |
| TokenBucket.RetryIsEarliest | crates/application/src/scheduler.rs:322-339 | for an empty bucket a refill yields a token exactly from the returned time on |
| TokenBucket.RetryIsLeast | crates/application/src/scheduler.rs:322-339 | from any bucket and time, the returned time is the least at which remainder and refills make up an interval: now while a token is left, none when the clock ends before |
| EventStream.NextEventBoundary | apps/cli/src/bridge.rs:310-318 | the boundary found is the first of either kind; none is found only if there is none |
| EventStream.BoundaryStable | apps/cli/src/bridge.rs:310-318 | the first boundary of a text is the first boundary of every extension |
| EventStream.DrainSseEvents | apps/cli/src/bridge.rs:292-308 | the drain loop yields block after block until no boundary is left or one is malformed |
| EventStream.DrainAppend | apps/cli/src/bridge.rs:292-308 | draining an extension is draining first, then draining the rest with the new text behind it |
| EventStream.DrainIsBlockwise | apps/cli/src/bridge.rs:292-308 | cut at its blank lines, a text yields one frame for every event with data and nothing for the others, in order, with the rest; or the frames in front of the first malformed event |
| EventStream.TextIsBlocks | apps/cli/src/bridge.rs:310-318 | every text is such events and a rest without a blank line |
| EventStream.BlankLines | apps/cli/src/bridge.rs:311-312 | the two blank lines as they are written |
| EventStream.ForwardSse | apps/cli/src/bridge.rs:241-278 | the pending-buffer loop with its checks, chunk by chunk |
| EventStream.ForwardedIsPrefix | apps/cli/src/bridge.rs:241-278 | the frames forwarded are always the first frames of the whole text |
| EventStream.ForwardedExactly | apps/cli/src/bridge.rs:241-278 | for every chunking of anything: which chunk ends the stream as no text, too large or malformed, if any, and that exactly the frames of the text before it were forwarded |
| EventStream.LostFrames | apps/cli/src/bridge.rs:271-276 | on a malformed event the frames lost are exactly the good ones its own chunk completed; all are forwarded exactly when there are none |
| EventStream.ChunkingIrrelevant | apps/cli/src/bridge.rs:241-308 | a text within the bound gives the same frames, rest and failure for every chunking between characters, up to the good frames lost on failure |
| EventStream.CutsDecideIff | apps/cli/src/bridge.rs:241-308 | all chunkings of a malformed text forward the same exactly when no good frame stands before the malformed event |
| EventStream.ParseSse | apps/cli/src/bridge.rs:280-290 | a finished body is drained as if closed by a blank line when anything but whitespace is left |
| Rating.CheckMatches | crates/application/src/rating.rs:190-203 | accepts exactly well-formed matches with distinct identities |
| Rating.CheckUpdates | crates/application/src/rating.rs:204-216 | accepts exactly well-formed updates with distinct entrants |
| Rating.Collect | crates/application/src/rating.rs:217-244 | collects what every entrant has to list, or fails exactly when an entrant is not updated |
| Rating.CompareLists | crates/application/src/rating.rs:245-255 | comparing sorted copies accepts exactly equal multisets of opponents |
| Rating.Validate | crates/application/src/rating.rs:179-257 | accepts exactly the periods whose parts are valid and in which every update lists every opponent as often as the matches make them meet |
| Rating.AcceptedIffFair | crates/application/src/rating.rs:179-257 | the collected and sorted lists agree exactly when, for every update and opponent, the number of entries is the number of matches that give this rating and score, from either side |
| Rating.ScoreIsConserved | crates/application/src/rating.rs:217-255 | an accepted period lists two entries per match, and their scores add up to SCORE_SCALE per match |
| Rating.AcceptancePermutes | crates/application/src/rating.rs:179-257 | acceptance does not depend on the arrangement of matches or updates |
| Rating.Derive | crates/application/src/rating.rs:264-275 | rejects what validation rejects, else rates the sorted updates and reports the first failure |
| Rating.DerivedPermutes | crates/application/src/rating.rs:264-275 | the derived list, failures included, is the same for every arrangement |
| Rating.DeriveSucceedsIff | crates/application/src/rating.rs:264-275 | a list is derived exactly when the period is accepted and every step succeeds; otherwise the error is that of the first failing entrant in order |
| Rating.DerivedInOrder | crates/application/src/rating.rs:264-275 | one entry per entrant in strictly increasing order, rated from that entrant's own update |
| Ordering.SortEqualIff | crates/application/src/rating.rs:246-254 | two lists sort to the same list exactly when they have the same elements |
| Export.PaddedOrder | crates/application/src/export.rs:652-656 | zero-padded numbers compare as numbers |
| Export.RatingKeyOrder | crates/application/src/export.rs:652-656 | rating keys order by pool, then by period number, for all u64 periods |
| Export.KeyOrder | crates/application/src/export.rs:644-672 | keys order by kind, then by identity; the order of the kinds is KindsInOrder |
| Export.KindsInOrder | crates/application/src/export.rs:644-672 | public replays come before operator replays, then tournament results, standings, ratings, public and operator analytics |
| Export.KeysAreWritten | crates/application/src/export.rs:644-672 | every key is its numbered head and its identity; a rating key ends in the period, in 20 decimal digits |
| Export.KeyIdentifies | crates/application/src/export.rs:644-672 | different records have different keys |
| Export.StreamOrder | crates/application/src/export.rs:339-348 | in a written stream records come by kind and identity, and none comes twice |
| Export.JsonlExporter.constructor | crates/application/src/export.rs:310-331 | an empty stream with zero accounting |
| Export.JsonlExporter.Write | crates/application/src/export.rs:339-371 | succeeds exactly when the envelope is verified, its key is above the last one's, it serializes, both limits hold and the writer takes the line; each error exactly in its own case; a rejected write leaves the accounting unchanged, and the late counter overflow cannot happen |
| Export.ExportAll | crates/application/src/export.rs:339-371 | a list of envelopes is written completely exactly when all are sound, their keys increase, and the limits hold; the stream is then their lines |
| Export.JsonlExporter.Finish | crates/application/src/export.rs:378-392 | the summary counts and digests exactly the lines written |
| Capability.SplitJoin | crates/application/src/capability.rs:195-198 | splitting at dots and joining are inverse |
| Capability.RecognisersAgree | crates/agent-runtime/src/authority.rs:217-225 | the token parser, the seat-capability check and the byte scanner accept exactly the same texts |
| Capability.ValidWireIsCanonical | crates/agent-runtime/src/workspace.rs:246-250 | the seat-capability check accepts exactly the canonical tokens, and the parser returns their identifier |
| Capability.ScannerIsCanonical | crates/agent-runtime/src/authority.rs:217-225 | the scanner's fixed offsets accept exactly the canonical tokens |
| Capability.RecognisedIff | crates/application/src/capability.rs:186-207 | all three accept exactly: "wa_cap_v1.", 32 lower-case hex digits, a dot, 64 lower-case hex digits |
| Capability.EncodeHex | crates/application/src/capability.rs:548-556 | the loop writes two lower-case digits per byte |
| Capability.HexRoundTrip | crates/application/src/capability.rs:548-563 | the digits are lower-case hex and stand for the bytes |
| Capability.IssuedIsAccepted | crates/application/src/capability.rs:186-207 | every issued token is accepted by all three and parses back to its identifier |
| Capability.MaterialIdentifies | crates/application/src/capability.rs:186-192 | different material gives different tokens |
| Capability.NewPolicy | crates/agent-runtime/src/authority.rs:133-148 | builds the registry exactly when all digests differ |
| Capability.FindIsFirstHit | crates/agent-runtime/src/authority.rs:150-158 | a match is reported exactly when a window is a registered token, and it is the first such window |
| Capability.FindReports | crates/agent-runtime/src/authority.rs:150-158 | a scan reports the authority registered for the first registered token in the bytes, and nothing exactly when there is none |
| Capability.EmbeddedTokenFound | crates/agent-runtime/src/authority.rs:150-158 | a registered issued token is found wherever it is embedded |

## Left out

- The rules engine, tournaments, statistics, application service and SQLite repositories are not part of this model.
- Glicko-2 arithmetic in crates/application/src/rating.rs is a parameter of the derived ratings; `f64` is not modelled.
- SHA-256, serde, lossy UTF-8 decoding, version parsing, stderr classification and identifier checks are parameters.
- Timestamps in lifecycle, turn and diagnostic records of the drivers, and the message texts of driver diagnostics; diagnostics carry their code and, for standard error, the raw bytes.
- The sanitizer's counters of what it changed, which nothing reads back.
- Mutex poisoning in the budget controller, reported usage and network metering, which are single charges, and the timeout around spawning.
- Redaction.RedactAllAppend: asks that no two secrets can overlap, which is enough but not needed; the exact condition on the secrets is proved for two of them.
- RedactingStream.StreamingIsOneShot: for lists it asks that secrets avoid the marker and each other; beyond one secret and marker-avoiding pairs only the condition on pairs of reads is exact.
- TelemetrySecrecy.ArchivedTextHides: what UTF-8 encoding and lossy decoding do is assumed, not modelled.
- EventStream.CutsDecideIff: takes it from UTF-8 that a cut behind a newline is between characters.
- LineDecoder.DrainLines: works on a copy of the buffer that is stored back, not on the buffer in place.
- Invalidation.StepKeepsInv: sockets and channels are values of a state machine, because steps of several tasks interleave.
- Authentication, connection limits, pings and message encoding of the WebSocket endpoint.
- The envelope checks of crates/application/src/export.rs, settled by single branches: an envelope says how its verification ends.
- Sandboxing, process spawning, command lines, the MCP gateway, the CLI and the web client.
