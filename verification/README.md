# Verified models of the service portfolio

This project models the stateful and the parsing parts of the services and proves what they promise, for all
inputs and all runs. Code that changes variables step by step is modelled by classes and loops, and each method
is proved equal to a function on values; the theorems are about those functions and about histories of them.
Times are whole milliseconds. `dafny verify dfyconfig.toml` checks everything.

| files | what they model |
|---|---|
| `YamlTree`, `YamlLines`, `K8sYaml`, `K8sYamlRoundTrip` | the YAML subset parser of the manifest checks: block prints with scalars in any spelling, the parser, and the proof that it reads every such document, comments included |
| `Json`, `JsonPrint`, `SdkYaml`, `YamlAgreement`, `YamlBlankLines`, `YamlLeniency` | the loader of the SDK generator, which tells JSON (the grammar of RFC 8259, written out and recognised) from YAML, the exact condition under which it agrees with the other parser, and what it makes of blank lines, comments and documents that the other parser rejects |
| `StoredZip`, `StoredZipReader` | the writer of uncompressed archives, a reader after sections 4.3.7, 4.3.12 and 4.3.16 of the PKWARE APPNOTE, and the exact bounds of the round trip |
| `Breakers`, `BreakerHistory` | the circuit breaker, and its refinement of a specification that looks only at what happened |
| `RateLimit` | the sliding-window limiters of two services against counts over the full history |
| `AuditRing`, `Csv`, `Metrics` | the audit ring against the log that it caches, the CSV export with a reader, the counters and their label keys |
| `ToolCalls` | the gateway's call path as steps between two `await`s, and its state as a class |
| `ToolCallRuns`, `ToolCallBreaker`, `ToolCallAdmission`, `ToolCallReplies`, `ToolCallAccounts` | arbitrary interleavings of calls, health checks, reloads, reconnections and the shutdown: probes, records, limits, circuit decisions, admission, replies, accounting |
| `StdioClient` | the JSON-RPC client over a child process with its racing answers, timers, write errors and exits |
| `Sessions`, `SessionRuns`, `SessionHistory` | the session store with its two insertion-ordered maps, the requests that use it, and their answers told by the requests before |
| `TenantKeys`, `TenantKeyRuns` | key rotation with a grace time against the history of issued keys |
| `SpecWatch` | the watcher of a remote document against a server that keeps sections 13.1.2 and 15.4.5 of RFC 9110 |
| `Wrappers`, `Numbers`, `Text` | option and result types, rounding, text functions of Python and JavaScript |

Where the code and what it promises part, the code is modelled and the exact condition is proved:

- The manifest parser's "tabs not supported" error cannot occur (`scripts/check-k8s.py:160-161`):
  `TabsAreNeverRejected`.
- The loader of the SDK generator sends a document that starts with a brace or bracket, or that neither its name
  nor a colon after its first line shows to be YAML, to the JSON parser, although the other parser reads it
  (`bets/a-sdk-mcp-gen/src/yaml.js:10-17`), and the two read `True`, `NULL` and fractions differently:
  `LoadersAgree` and `BraceKeyIsRejected`.
- That loader drops without an error what does not continue its first block (`bets/a-sdk-mcp-gen/src/yaml.js:130-136`):
  `RestIsDropped`, `DeeperRowEndsMapping`. It reads `host:8080` as the key `host:808` with the value `ost:8080`, since
  the slices are taken with the index -1 (`bets/a-sdk-mcp-gen/src/yaml.js:146-148`): `ColonNeedsSpace`.
- A list item `- key:` without a value swallows the keys below it (`scripts/check-k8s.py:232-264`); when the key
  reads as null instead say `BareFirstKeyIsNull` and `BareFirstKeyTakesSiblings`, for both parsers. The canonical
  print therefore spells out `null`.
- The archive writer truncates counts and offsets silently: `RoundTripIffFits` gives the exact bounds.
- CSV headers are written without quotes: `RoundTripIffPlainColumns`.
- A client that waits exactly the announced Retry-After of the rate limiter can be refused again, since a hit that
  is exactly 60000 ms old still counts: `RetryAfterBoundary`.
- A child process that a signal from elsewhere ends leaves no exit code, so the client accepts requests for it
  (`bets/b-mcp-gateway/src/upstream.js:244`): `RequestsAfterExit`.
- Label sets can share a counter, because a tenant or a tool may hold the separator of the key, a bar followed by
  `tool=`: `KeysCollideExactlyWhen`, and for whole runs `LabelCountsAreExact`.
- Counters move before the audit file is written, so a failed write leaves them ahead: `CountersAgreeWithFile`.
- A tombstone is forgotten after as many further terminations as the cap, and an expired session id is accepted
  as new after it was reported once: `CapForgetsTermination` and `ExpiredIsForgotten`; `AnswersFollowLives` says
  exactly when an id is forgotten.
- The watcher notes a new body before it generates from it, so a failure is not tried again, and the body before it
  is generated a second time when it returns: `FailureIsNotRetried`, `RepeatsExactlyOnReturn` and, with an input,
  `ReturnAfterFailureRepeats`; `CurrentExactlyWhen` says when the generated code is up to date.

## Model

| member | source | states |
|---|---|---|
| K8sYaml.StripComment | scripts/check-k8s.py:78-102 | the character loop keeps exactly the text before the first `#` outside quotes, escapes in double quotes skipped, without trailing white space |
| K8sYaml.ReadRows | scripts/check-k8s.py:153-165 | the line loop yields the numbered rows of the text that are not blank after comment stripping, or the error of the first rejected line |
| K8sYaml.TabsAreNeverRejected | scripts/check-k8s.py:160-161 | the "tabs not supported" error is dead code: no line can raise it |
| K8sYaml.ReadValueBlock | scripts/check-k8s.py:175-183 | the recursive descent ends on every input, and its result and its end row are those of the specification functions |
| K8sYaml.ReadMap | scripts/check-k8s.py:186-209 | the loop over the keys of one indent builds the mapping of the specification, later keys replacing earlier ones in place, or raises its error |
| K8sYaml.ReadSeq | scripts/check-k8s.py:212-268 | the loop over the dash lines of one indent builds the sequence of the specification |
| K8sYaml.ReadItem | scripts/check-k8s.py:223-267 | one dash line with everything that belongs to it: nested block, mapping started on the line, or scalar |
| K8sYaml.ReadDocument | scripts/check-k8s.py:271-278 | a document is the block at its first row and nothing else: rows left over are an error |
| K8sYamlRoundTrip.UnescapeInvertsEscape | scripts/check-k8s.py:114-122 | the chained replacements through a NUL placeholder undo a one-pass escape of every text without NUL |
| K8sYamlRoundTrip.StripKeeps | scripts/check-k8s.py:78-102 | a line that ends in bland text or in a quoted text, whatever `#` and quotes the text holds, loses the comment behind it and nothing else |
| K8sYamlRoundTrip.ParseScalarInverts | scripts/check-k8s.py:105-126 | every way to write a scalar is read as the core schema of YAML 1.2.2 says: texts without quotes, between single and between double quotes, the four spellings of null, the three of each boolean, integers |
| K8sYamlRoundTrip.SplitKeyExactly | scripts/check-k8s.py:129-141 | which lines are cut into which key and rest: one that starts with a quote when a colon follows the closing quote, blanks aside, any other at its first colon; all others are errors |
| K8sYamlRoundTrip.BlockParses | scripts/check-k8s.py:175-183 | given the rows of a printed collection and any rows of smaller indent after them, the parser returns the collection and stops at the first row after it |
| K8sYamlRoundTrip.MapParses | scripts/check-k8s.py:186-209 | the same for the entries of a mapping, after any entries read before, for both loops that read entries |
| K8sYamlRoundTrip.SeqParses | scripts/check-k8s.py:212-268 | the same for the items of a sequence, after any items read before |
| K8sYamlRoundTrip.MapItemParses | scripts/check-k8s.py:232-264 | a mapping that starts on the line of its dash is read back with all its keys |
| K8sYamlRoundTrip.EntryExactly | scripts/check-k8s.py:144-150 | which items of a list are mappings: no quote in front, something before the first colon, and a colon at the end or before a space |
| K8sYamlRoundTrip.BareFirstKeyIsNull | scripts/check-k8s.py:232-264 | an item that is a bare key reads as that key with null, and ends there, exactly when no row follows at the column of its siblings or deeper, whatever the following rows hold |
| K8sYamlRoundTrip.BareFirstKeyTakesSiblings | scripts/check-k8s.py:232-264 | an item whose first key has no text takes the keys below it, its siblings by their column, as its value: it reads as null followed by them exactly when there are none |
| K8sYamlRoundTrip.TrailingRowIsRejected | scripts/check-k8s.py:271-278 | a row behind the block of the document that does not continue it, at a smaller column or at its own with a dash behind a mapping or without one behind a sequence, is an error that names its line |
| K8sYamlRoundTrip.DeeperRowIsRejected | scripts/check-k8s.py:186-209 | a row deeper than a key that has its value on its own line is an error that names its line, whatever was read before |
| K8sYamlRoundTrip.ParseReadsDocument | scripts/check-k8s.py:153-278 | every document whose lines are those of a printed collection, each scalar written in any of these ways, with comments, trailing blanks, blank lines and comment lines anywhere, is read as the collection that it says |
| K8sYamlRoundTrip.ParseInvertsPrint | scripts/check-k8s.py:271-278 | parsing the block print of a tree gives what it says, and exactly the tree when no scalar is spelt out: null, booleans, integers, texts without NUL and exotic line breaks, nonempty sequences, nonempty mappings with distinct plain keys |
| SdkYaml.StripCommentLoop | bets/a-sdk-mcp-gen/src/yaml.js:25-37 | the loop keeps the text before the first `#` outside quotes that starts a word |
| SdkYaml.Reader.MoveToText | bets/a-sdk-mcp-gen/src/yaml.js:57-68 | `peek` moves the shared index to the next line that is not blank and no further |
| SdkYaml.Reader.ReadBlock | bets/a-sdk-mcp-gen/src/yaml.js:70-170 | `parseBlock` ends on every input; its result and the final shared index are those of the specification functions |
| SdkYaml.Reader.ReadArray | bets/a-sdk-mcp-gen/src/yaml.js:73-126 | the list loop |
| SdkYaml.Reader.ReadItem | bets/a-sdk-mcp-gen/src/yaml.js:80-123 | one list item: inline mapping, nested block or scalar |
| SdkYaml.Reader.ReadSiblings | bets/a-sdk-mcp-gen/src/yaml.js:97-115 | the keys that continue a mapping started on a dash line |
| SdkYaml.Reader.ReadMapping | bets/a-sdk-mcp-gen/src/yaml.js:129-169 | the mapping loop, and its error with the line number |
| SdkYaml.ReadYaml | bets/a-sdk-mcp-gen/src/yaml.js:172-176 | a document that is no mapping and no list is an error |
| YamlBlankLines.BlankLinesSayNothing | bets/a-sdk-mcp-gen/src/yaml.js:21-177 | what the YAML loader makes of a document depends only on the indents and texts of its lines that hold text: two documents that differ in blank lines, comments, blanks at line ends or the kind of line end are both rejected or give the same tree |
| YamlBlankLines.YamlReadsDocument | bets/a-sdk-mcp-gen/src/yaml.js:21-177 | the YAML loader itself reads every document whose lines are those of a printed tree of the common sublanguage, scalars without quotes, between single or between double quotes, with comments, trailing blanks, blank lines and comment lines anywhere, as the tree that its own schema says |
| YamlAgreement.BareFirstKeyIsNull | bets/a-sdk-mcp-gen/src/yaml.js:80-115 | a list item that is a bare key reads as that key with null exactly when the next text line, if there is one, is not indented more than the dash |
| YamlAgreement.BareFirstKeyTakesSiblings | bets/a-sdk-mcp-gen/src/yaml.js:80-115 | a list item whose first key has no text takes the keys below it, its siblings by their column, as its value: it reads as null followed by them exactly when there are none |
| YamlAgreement.CanonicalIsNotJson | bets/a-sdk-mcp-gen/src/yaml.js:10-17 | no canonical document of the common sublanguage is JSON, so each one that is sent to the JSON parser is rejected |
| YamlAgreement.LoadInvertsPrint | bets/a-sdk-mcp-gen/src/yaml.js:6-177 | the exported loader, for every print of the common sublanguage and every file name: what the print says when it takes the document for YAML, a JSON error otherwise |
| JsonPrint.IsJsonExactlyWhenWritten | bets/a-sdk-mcp-gen/src/yaml.js:10-17 | the recogniser that stands for `JSON.parse` accepts exactly the texts that the grammar of RFC 8259 derives, with any blanks, escapes and number forms |
| JsonPrint.LoadsEveryCollection | bets/a-sdk-mcp-gen/src/yaml.js:6-12 | every object and array written as JSON is loaded, under every file name, with any white space or a byte order mark around it |
| YamlAgreement.LoadersAgree | bets/a-sdk-mcp-gen/src/yaml.js:6-177 | on every print of the common sublanguage the two loaders of the repository give the same tree exactly when the document starts with neither brace nor bracket, the file name ends in .yaml or .yml or some line after the first holds a colon, and no scalar without quotes is a capitalised word, a number with a fraction or an integer beyond 53 bits; common are scalars in any spelling, nested mappings and sequences, no sequence directly in a sequence |
| YamlAgreement.BraceKeyIsRejected | bets/a-sdk-mcp-gen/src/yaml.js:10-12 | an input on which they differ: a key that starts with a brace |
| YamlLeniency.NamesYamlExactly | bets/a-sdk-mcp-gen/src/yaml.js:13-14 | a file name shows a YAML document exactly when it ends in .yaml or .yml, the case of each letter aside |
| YamlLeniency.LaterColonExactly | bets/a-sdk-mcp-gen/src/yaml.js:14-14 | a document shows itself to be YAML exactly when a colon stands behind a line feed or carriage return with no line end between |
| YamlLeniency.RestIsDropped | bets/a-sdk-mcp-gen/src/yaml.js:129-176 | a document ends where its first block ends: behind a printed mapping an item at the first column, and behind a list a line that is none, is dropped with everything below, where the other parser reports an error |
| YamlLeniency.DeeperRowEndsMapping | bets/a-sdk-mcp-gen/src/yaml.js:130-134 | a row deeper than a key that has its value on its own line ends the mapping, whatever was read before, where the other parser reports an error |
| YamlLeniency.LineWithoutColonIsRejected | bets/a-sdk-mcp-gen/src/yaml.js:129-138 | what is an error: behind a printed mapping a line at its column that is no item and holds no colon, and the error names that line |
| YamlLeniency.FlowIsOneValue | bets/a-sdk-mcp-gen/src/yaml.js:155-159 | a value that starts with a brace or bracket goes to the JSON parser with its whole text, and the mapping goes on behind its line |
| YamlLeniency.QuotesExactly | bets/a-sdk-mcp-gen/src/yaml.js:44-55 | a scalar with a quote at an end is what stands between two like quotes, nothing escaped and whatever quotes stand inside; with a quote at one end only it is the text as it stands, and a single quote character is the empty text |
| YamlLeniency.ColonNeedsSpace | bets/a-sdk-mcp-gen/src/yaml.js:142-159 | a plain line whose colons neither end it nor stand before a space is read as an entry whose key is the line without its last character; no such document is read alike by the two parsers |
| YamlLeniency.ReadsShiftedEntry | bets/a-sdk-mcp-gen/src/yaml.js:146-159 | the value of this entry is the line without its first character, read as a scalar |
| YamlLeniency.SiblingKeepsColon | bets/a-sdk-mcp-gen/src/yaml.js:97-115 | in the keys that continue a list item such a line is split in another way: it is the key as a whole, and null when nothing deeper follows |
| StoredZip.WriteStoredZip | bets/a-sdk-mcp-gen/src/archive.js:125-190 | the loop with its running offset writes the local records, the central records and the end record of the list, for every list |
| StoredZip.RecordsSnoc | bets/a-sdk-mcp-gen/src/archive.js:134-176 | the offset in each central record is the summed length of the local records before it |
| StoredZipReader.EndFields | bets/a-sdk-mcp-gen/src/archive.js:179-188 | a reader finds the counts, the size and the start of the central directory in the last 22 bytes, truncated to their fields |
| StoredZipReader.CentralsRead | bets/a-sdk-mcp-gen/src/archive.js:134-176 | walking the central directory and following each stored offset recovers the files in order, when all of them fit |
| StoredZipReader.RoundTripIffFits | bets/a-sdk-mcp-gen/src/archive.js:108-190 | the archive reads back as the same names, bytes and order if and only if the number of files, every name and the two directory offsets fit their fields; the writer itself truncates silently |
| Breakers.BreakerOfSetting | bets/b-mcp-gateway/src/breaker.js:20-63 | a new breaker works with the numbers that the setting holds, from one up and rounded down, and with 3 failures and 2000 ms in place of anything else; it is on exactly when configured, not disabled and not set to the threshold 0 |
| Breakers.CircuitBreaker.constructor | bets/b-mcp-gateway/src/breaker.js:51-63 | the initial four variables |
| Breakers.CircuitBreaker.Allow | bets/b-mcp-gateway/src/breaker.js:65-82 | new state and answer of `allow` |
| Breakers.CircuitBreaker.RecordSuccess | bets/b-mcp-gateway/src/breaker.js:84-91 | new state of `recordSuccess` |
| Breakers.CircuitBreaker.RecordFailure | bets/b-mcp-gateway/src/breaker.js:93-108 | new state of `recordFailure`, and whether it opened the circuit |
| Breakers.CircuitBreaker.ReadyPayload | bets/b-mcp-gateway/src/breaker.js:110-152 | a readiness probe opens a due circuit half, consumes no probe, and answers 503 exactly in the open state |
| Breakers.CircuitBreaker.RetryAfterSeconds | bets/b-mcp-gateway/src/breaker.js:159-167 | new state and value of `retryAfterSeconds` |
| Breakers.RetryAfterIsExact | bets/b-mcp-gateway/src/breaker.js:154-167 | waiting a whole number of seconds is enough if and only if it is at least the announced number |
| BreakerHistory.BreakerRefinesHistory | bets/b-mcp-gateway/src/breaker.js:20-108 | with any setting, after every history, late results included: closed exactly when fewer failures than the threshold that was set followed the last success; a call is let through exactly when closed, or the pause that was set has passed since the last failure and none was let through since it |
| BreakerHistory.ReadinessByHistory | bets/b-mcp-gateway/src/breaker.js:110-152 | a readiness probe gets 503 exactly when the threshold of failures was reached after the last success and the pause since the last failure is running, else 200 |
| BreakerHistory.RetryByHistory | bets/b-mcp-gateway/src/breaker.js:154-167 | the announced seconds are the least that bring the pause since the last failure to its end, and one without a running pause |
| BreakerHistory.SwitchedOffIsTransparent | bets/b-mcp-gateway/src/breaker.js:65-108 | a circuit that is switched off lets every call through and reports no opening |
| BreakerHistory.ObservationsAreInvisible | bets/b-mcp-gateway/src/breaker.js:65-167 | leaving out all health checks, readiness probes and Retry-After computations of a history changes no later answer of `allow` or `recordFailure` |
| BreakerHistory.LateSuccessCloses | bets/b-mcp-gateway/src/breaker.js:84-91 | a success that arrives after the circuit opened closes it at once |
| RateLimit.RateLimiter.Prune | bets/b-mcp-gateway/src/policy.js:337-339 | the filter keeps exactly the hits of the window, in order |
| RateLimit.RateLimiter.Check | bets/b-mcp-gateway/src/policy.js:337-343 | new hits and verdict of `check` |
| RateLimit.RateLimiter.RetryAfterSeconds | bets/b-mcp-gateway/src/policy.js:348-354 | new hits and value of `retryAfterSeconds` |
| RateLimit.DecidesByFullHistory | bets/b-mcp-gateway/src/policy.js:332-343 | the limiter, which forgets old hits, decides each call as a count over everything it ever admitted would |
| RateLimit.NoWindowExceedsLimit | bets/b-mcp-gateway/src/policy.js:332-343 | no closed interval of 60000 ms ever holds more admitted calls than the limit |
| RateLimit.AdmittedAgainAfterOldest | bets/b-mcp-gateway/src/policy.js:337-343 | after a refusal and with nothing else admitted, a call is admitted exactly when the oldest hit is more than 60000 ms old |
| RateLimit.RetryByFullHistory | bets/b-mcp-gateway/src/policy.js:344-354 | the announced seconds are counted from the oldest call ever admitted that the window still holds |
| RateLimit.RetryAfterBoundary | bets/b-mcp-gateway/src/policy.js:344-354 | the announced seconds are the least that bring the oldest hit to 60 s; waiting exactly that long suffices if and only if its age was no whole number of seconds or 60 s already; one millisecond more always suffices |
| RateLimit.SlidingWindowRateLimiter.Check | bets/e-otel-ai-cost/src/rate-limit.js:57-70 | new hits a key and verdict of `check` |
| RateLimit.KeysAreIsolated | bets/e-otel-ai-cost/src/rate-limit.js:43-70 | in every interleaved trace the verdicts and retry values of a key are those of a limiter that sees this key alone |
| RateLimit.NoLimitAdmits | bets/e-otel-ai-cost/src/rate-limit.js:57-60 | requests without a positive limit are always admitted and change no later answer |
| RateLimit.LimitersAgree | bets/e-otel-ai-cost/src/rate-limit.js:43-70 | on one key with one positive limit this limiter and the `RateLimiter` of the gateway answer alike, verdict and retry value |
| RateLimit.TenantRateLimiters.Get | bets/b-mcp-gateway/src/policy.js:358-370 | the limiter of a tenant is kept until its limit changes; no two tenants share one |
| RateLimit.TenantRateLimiters.Clear | bets/b-mcp-gateway/src/policy.js:371-373 | a cleared registry starts anew |
| RateLimit.LimiterOfStreak | bets/b-mcp-gateway/src/policy.js:358-370 | whatever limits the calls carried, a tenant has the limiter of its own calls since its limit last changed |
| RateLimit.TenantsAreIsolated | bets/b-mcp-gateway/src/policy.js:358-370 | while its limit is unchanged a tenant has the limiter of its own calls, whatever other tenants do and however their limits change |
| AuditRing.Ring.constructor | bets/b-mcp-gateway/src/audit-export.js:139-147 | the ring of a starting server is the tail of the log file |
| AuditRing.Ring.Push | bets/b-mcp-gateway/src/audit-export.js:72-83 | the new ring: the row appended, and the oldest rows over the cap dropped |
| AuditRing.RingIsTailOfLog | bets/b-mcp-gateway/src/audit-export.js:72-147 | a ring loaded from a file that then received rows equals the last rows of the file with these rows appended, all of them when the cap is 0 |
| AuditRing.FilterAuditEvents | bets/b-mcp-gateway/src/audit-export.js:97-122 | the successive filter passes and the limit give the last matches of the conjunction of the parameters |
| AuditRing.QueryFinds | bets/b-mcp-gateway/src/audit-export.js:97-117 | a row is in the answer exactly when it is in the log, its tenant, its tool and its time are those asked for |
| AuditRing.LimitKeepsLast | bets/b-mcp-gateway/src/audit-export.js:97-122 | a limit up to a million leaves the last matches, and zero, a negative one or none leaves all |
| AuditRing.RingAnswers | bets/b-mcp-gateway/src/audit-export.js:97-147 | the matches in the ring are a suffix of those in the log, and ring and log give the same limited answer if and only if the ring holds as many matches as the limit or none was dropped |
| Csv.WriteCsv | bets/b-mcp-gateway/src/audit-export.js:189-208 | the loop over the events builds the header and one line an event |
| Csv.ReadInvertsWrite | bets/b-mcp-gateway/src/audit-export.js:177-208 | a reader after section 2 of RFC 4180 recovers every cell of every row, for cells with quotes, commas, CR and LF |
| Csv.RoundTripIffPlainColumns | bets/b-mcp-gateway/src/audit-export.js:177-208 | the whole export, header included, reads back if and only if no column name needs quoting: the header is written without quotes |
| Csv.GatewayExportsReadBack | bets/b-mcp-gateway/src/audit-export.js:177-213 | both exports of the gateway are read back as their column names and, for each event in order, the values of its columns: the decision as true or false, `args` in place of missing `arguments`, empty cells for missing values |
| Metrics.MetricsStore.IncToolCall | bets/b-mcp-gateway/src/metrics.js:28-38 | the sample of the label key goes up by one, or is appended |
| Metrics.ReplayCounts | bets/b-mcp-gateway/src/metrics.js:28-38 | the samples of any list of calls sum up to their number, and each key counts the calls with this key |
| Metrics.KeysCollideExactlyWhen | bets/b-mcp-gateway/src/metrics.js:10-34 | a label set as it is stored, without empty labels, shares its key with another one exactly when the text `tool=` after a bar stands in its tenant behind the start or in its tool before the end |
| Metrics.KeyCountsAreExact | bets/b-mcp-gateway/src/metrics.js:28-38 | the count under a key is the number of calls with one label set exactly when no call with another one has this key |
| ToolCalls.Server.constructor | bets/b-mcp-gateway/src/server.js:309-342 | the initial state of the gateway, with the ring loaded from the audit file |
| ToolCalls.Server.RecordAudit | bets/b-mcp-gateway/src/server.js:168-191 | ring first, then the gauge, then the file, whose write may fail after the other two |
| ToolCalls.Server.CheckLimiter | bets/b-mcp-gateway/src/server.js:493-495 | the limiter of the tenant is fetched and asked; the limiters of the others keep their hits |
| ToolCalls.Server.BeginToolCall | bets/b-mcp-gateway/src/server.js:469-561 | the part of a call up to the `await` of the tool: new state and answer, gate after gate |
| ToolCalls.Server.EndToolCall | bets/b-mcp-gateway/src/server.js:562-614 | the part of a call after the tool answered: new state and answer |
| ToolCalls.Server.ConnectUpstream | bets/b-mcp-gateway/src/server.js:369-383 | a reconnection replaces the breaker under the calls in flight |
| ToolCalls.Server.ReloadPolicy | bets/b-mcp-gateway/src/server.js:398-406 | a reload replaces the policy and forgets all limiters |
| ToolCalls.Server.BeginShutdown | bets/b-mcp-gateway/src/server.js:1487-1489 | only the flag changes |
| ToolCallAdmission.RunTold | bets/b-mcp-gateway/src/server.js:469-592 | in every run the circuit has seen exactly the questions and results, and the calls in flight are exactly those, with their tenants and tools, that the steps alone tell |
| ToolCallAdmission.AdmittedByHistory | bets/b-mcp-gateway/src/server.js:469-561 | in every run the calls that reach the upstream are exactly those at whose beginning the policy in force allowed the tool, the calls granted to the tenant in the closed last 60 s were fewer than its limit, a connected upstream was to answer for the tool, no shutdown had begun and the history of the circuit let a call through; all of it told by the steps before and not by the state |
| ToolCallReplies.OpenMeans | bets/b-mcp-gateway/src/server.js:557-562 | the calls in flight are those that some step began and the steps before it let through, and that no step has ended since |
| ToolCallReplies.AnsweredByHistory | bets/b-mcp-gateway/src/server.js:469-556 | in every run status, Retry-After and audit row of a call that is turned away follow from the steps before it: 403 for the policy in force, 429 for the rate with the seconds until the oldest granted call leaves the window, 503 for shutdown, 503 for the circuit with the seconds until its pause ends, 500 when the row cannot be written; a shutdown leaves no row |
| ToolCallReplies.EndsByHistory | bets/b-mcp-gateway/src/server.js:562-614 | in every run a call in flight is answered and recorded under the tenant and tool of the step that began it: 200 for a result, 504 for an upstream timeout, 500 without a row for any other error |
| ToolCallRuns.HalfOpenNeverSticks | bets/b-mcp-gateway/src/server.js:520-592 | in every run: a blocking probe is a call in flight of the current half-open period, no period lets two calls through, and without upstream calls in flight only a running pause refuses a call, across breaker replacement too |
| ToolCallRuns.EveryCallRecordsOnce | bets/b-mcp-gateway/src/server.js:557-592 | in every run each admitted upstream call reports exactly one outcome to a breaker, when it ends, and none before |
| ToolCallRuns.ShutdownDrains | bets/b-mcp-gateway/src/server.js:520-528 | after `beginShutdown` the set of upstream calls in flight only shrinks |
| ToolCallRuns.TenantLimitHolds | bets/b-mcp-gateway/src/server.js:493-516 | in every run a tenant is refused for its rate exactly when the calls granted to it since the last reload and since its limit last changed fill the last 60 s, and no 60 s hold more of them than the limit |
| ToolCallBreaker.BreakerFollowsTale | bets/b-mcp-gateway/src/server.js:529-592 | the breaker of every run is the one that its own questions, results and observations since the last reconnection produce |
| ToolCallBreaker.CircuitFollowsHistory | bets/b-mcp-gateway/src/server.js:529-556 | in every run a call that gets as far as the breaker is refused exactly when the history of upstream results and admissions since the last reconnection says so |
| ToolCallBreaker.CircuitRetryIsExact | bets/b-mcp-gateway/src/server.js:529-556 | the Retry-After of an open circuit is the least number of seconds that suffices; during a probe it is 1 and promises nothing |
| ToolCallAccounts.CountersAgreeWithFile | bets/b-mcp-gateway/src/server.js:469-614 | in every run the sum of `tool_calls_total` and the rate-limit, circuit-open and timeout counters equal the tool-call rows of the file with these reasons since the start plus the rows whose write failed |
| ToolCallAccounts.RingCachesFile | bets/b-mcp-gateway/src/server.js:168-191 | while all audit writes succeed the ring is the tail of the file and the gauge its length |
| ToolCallAccounts.LabelCountsAreExact | bets/b-mcp-gateway/src/metrics.js:10-38 | in every run the count under a label set is the number of recorded calls with exactly these labels if and only if no recorded call with other labels has the same key; so it is for labels without an ambiguous `tool=` after a bar, whatever else was recorded, and when neither its tenant nor any of the run holds this text behind its start |
| StdioClient.StdioUpstream.Request | bets/b-mcp-gateway/src/upstream.js:240-272 | a request gets the next id; it is refused when the child is known to be gone, else it waits with an armed timer |
| StdioClient.StdioUpstream.OnLine | bets/b-mcp-gateway/src/upstream.js:212-227 | a message settles the waiter of its id, if there is one |
| StdioClient.StdioUpstream.OnExit | bets/b-mcp-gateway/src/upstream.js:233-238 | the loop over the waiters rejects each of them, then the table is empty |
| StdioClient.StdioUpstream.OnTimer | bets/b-mcp-gateway/src/upstream.js:249-254 | a timer settles its own request only |
| StdioClient.StdioUpstream.OnWriteError | bets/b-mcp-gateway/src/upstream.js:265-270 | a failed write settles its own request only, and only while it waits |
| StdioClient.EachRequestSettlesOnce | bets/b-mcp-gateway/src/upstream.js:207-272 | under every interleaving the table holds exactly the unsettled sent requests, no request is settled twice, and a timer is armed exactly for the waiting ones |
| StdioClient.SettledByOwnAnswer | bets/b-mcp-gateway/src/upstream.js:212-227 | a request settled by an answer got exactly the result or error of a message with its own id that came while it was pending |
| StdioClient.EverySettlementHasItsCause | bets/b-mcp-gateway/src/upstream.js:207-272 | whatever settled a request is one step of the run: its answer, its timer, its failed write, the end of the child with the exit code while it waited, or a child known to be gone when it was made |
| StdioClient.RequestsAfterExit | bets/b-mcp-gateway/src/upstream.js:233-247 | after the exit nothing is pending; the next request fails at once if and only if the child had an exit code or had been closed before, so not after a signal from elsewhere |
| StdioClient.DeadStaysDead | bets/b-mcp-gateway/src/upstream.js:233-247 | once the client knows that the child has ended nothing becomes pending again |
| Sessions.SessionStore.Touch | bets/b-mcp-gateway/src/mcp-http.js:168-174 | the id leaves the tombstones and goes to the end of the live map, then the cap is applied |
| Sessions.SessionStore.Drop | bets/b-mcp-gateway/src/mcp-http.js:181-196 | new maps and status of `drop` |
| Sessions.SessionStore.Check | bets/b-mcp-gateway/src/mcp-http.js:199-213 | new maps and status of `check` |
| Sessions.SessionStore.List | bets/b-mcp-gateway/src/mcp-http.js:223-259 | the expired ids are pruned, the others sorted and cut |
| Sessions.SessionStore.DropOldestFrom | bets/b-mcp-gateway/src/mcp-http.js:156-162 | the loop drops from the front until the cap holds |
| SessionRuns.EveryRunIsValid | bets/b-mcp-gateway/src/mcp-http.js:142-262 | over every run of touch, drop, check and list: live and terminated ids are disjoint, both maps keep to the cap, and insertion order is last-seen order |
| SessionRuns.EvictionIsLeastRecent | bets/b-mcp-gateway/src/mcp-http.js:156-174 | touching keeps the id; an eviction takes out one id, a least recently seen one, exactly when a new id enters a full map |
| SessionRuns.ListingIsNewestPrefix | bets/b-mcp-gateway/src/mcp-http.js:223-259 | a listing counts exactly the unexpired live ids and shows the newest of them, in order, up to the limit |
| SessionHistory.AnswersFollowLives | bets/b-mcp-gateway/src/mcp-http.js:156-214 | in every run, with any cap, the answer to a POST or DELETE with an id follows from the requests and answers before it: a POST is accepted exactly when nothing is known of the id or it was accepted less than the time to live ago; a terminated id is not found; an id is forgotten exactly when it is found expired, when as many others as the cap are live after it, or when as many sessions as the cap were terminated after it |
| SessionHistory.NoCapNoOthers | bets/b-mcp-gateway/src/mcp-http.js:156-162 | without a cap that answer depends only on the requests that concern the id and on the listings |
| SessionRuns.TerminationIsFinal | bets/b-mcp-gateway/src/server.js:1349-1391 | after a termination every POST and DELETE with the id is answered with session_not_found, until as many further sessions as the cap have been terminated; for ever without a cap |
| SessionRuns.CapForgetsTermination | bets/b-mcp-gateway/src/mcp-http.js:181-196 | the bound is exact: the termination that reaches the cap wipes the tombstone and the id is accepted again |
| SessionRuns.ExpiredIsForgotten | bets/b-mcp-gateway/src/mcp-http.js:199-213 | an expired id is reported once and accepted as unknown by the next request |
| SessionRuns.WithoutId | bets/b-mcp-gateway/src/server.js:1349-1391 | an initializing POST without an id makes its generated id live, and any other request without an id changes nothing |
| TenantKeys.RotateTenantApiKey | bets/b-mcp-gateway/src/policy.js:230-266 | the list after rotating in place and the new key; unknown and empty ids change nothing |
| TenantKeyRuns.RotationIssues | bets/b-mcp-gateway/src/policy.js:230-266 | a rotation after any run installs and returns, for the first tenant with the id, the first key drawn unless it is empty or in use, then the second unless in use, then the third; the key in use becomes the previous one for the grace time; nothing else changes |
| TenantKeyRuns.UnknownIsRefused | bets/b-mcp-gateway/src/policy.js:230-243 | an id that no tenant has, or none, changes nothing and gets no key |
| TenantKeyRuns.FreshInputsIssueFreshKeys | bets/b-mcp-gateway/src/policy.js:219-254 | when the generator repeats neither itself nor a loaded key, no key is issued twice |
| TenantKeys.TenantRecord.Replace | bets/b-mcp-gateway/src/policy.js:247-262 | the new fields of one tenant: key, old key and end of its grace time |
| TenantKeys.FindTenantByApiKey | bets/b-mcp-gateway/src/policy.js:207-216 | the first tenant that the key opens, now |
| TenantKeyRuns.FindsByHistory | bets/b-mcp-gateway/src/policy.js:198-266 | after any rotations with fresh draws, from any loaded configuration, a key finds a tenant exactly when the history of the keys drawn for it says so |
| TenantKeyRuns.IthKeyWorks | bets/b-mcp-gateway/src/policy.js:198-266 | the i-th key of a tenant works exactly when it is the current one, or the one before and the grace time of its rotation is not over |
| TenantKeyRuns.OneOwner | bets/b-mcp-gateway/src/policy.js:207-216 | with fresh draws, a key that finds a tenant at one point of a run finds no other tenant at any point of it, at any time |
| TenantKeyRuns.RotationIsLocal | bets/b-mcp-gateway/src/policy.js:230-266 | rotating the key of one tenant changes no lookup that finds another one |
| SpecWatch.UrlWatch.Tick | bets/a-sdk-mcp-gen/src/cli.js:516-559 | new watch state and, if there is one, the body generated from |
| SpecWatch.ChangeIsChange | bets/a-sdk-mcp-gen/src/fetch-spec.js:106-129 | over every run on an honest server an answered poll is classified as a change exactly when the body differs from the one before, whichever of 304, entity tag and hash decides |
| SpecWatch.GeneratesOnChange | bets/a-sdk-mcp-gen/src/fetch-spec.js:89-148 | over every run the watcher generates from exactly the bodies that differ from the body before them, without the empty and the failing ones |
| SpecWatch.GeneratedIsCurrent | bets/a-sdk-mcp-gen/src/fetch-spec.js:89-148 | when every body generates, the last generated body is the server's, and none is generated twice in a row |
| SpecWatch.CurrentExactlyWhen | bets/a-sdk-mcp-gen/src/cli.js:526-546 | after every poll of every run on an honest server the last generated body is the server's exactly when the last new document was not empty and generated, or is the one that was the last to generate before it |
| SpecWatch.RepeatsExactlyOnReturn | bets/a-sdk-mcp-gen/src/cli.js:526-546 | over every run on an honest server a body is generated twice in a row exactly when a poll brings back, as a new document that generates, the one that was the last to generate, all new ones in between having been empty or failing |
| SpecWatch.FailureIsNotRetried | bets/a-sdk-mcp-gen/src/cli.js:532-547 | a body that failed is not tried again while the server keeps it |

## Left out

- YamlAgreement.LoadersAgree: mappings are compared in the order in which they were written; JavaScript moves keys that look like array indices to the front, which is not modelled, and the key `__proto__` is excluded.
- K8sYamlRoundTrip.ParseInvertsPrint: texts with NUL are excluded because the parser uses NUL as its placeholder, and line-break characters other than LF because it splits lines at them.
- K8sYaml.ReadDocument: decimal digits outside ASCII, which Python also reads as integers, and its limit on the length of integer texts are not modelled.
- SdkYaml.ReadYaml: a flow collection goes to the JSON parser of the platform and is kept as its text, its rejection is not modelled; for whole documents the JSON grammar decides whether they are accepted, and the value is kept as its text; decimal numbers and integers beyond 53 bits are kept as their text.
- StoredZip.WriteStoredZip: walking the directory and writing the file are left out; the list of files is the input, and the checksum is any function.
- ToolCalls.Server.BeginToolCall: the redaction of audit rows and arguments, webhooks, and the HTTP layer that finds tenant and tool are left out; a row is its tenant, tool, time and reason, and redaction is taken to leave these alone; a limit is an integer.
- ToolCalls.Server.EndToolCall: whether a result or an error is a timeout, a lost connection or a 5xx is an input, not derived from its fields.
- ToolCalls.Server.ReloadPolicy: reading the policy file, which can fail before anything changes, is left out.
- StdioClient.StdioUpstream.OnLine: lines that are no JSON, or JSON without a known id, are steps without effect; the line `null`, on which the handler raises an error, and the failure to start the child are not modelled; results and errors are texts.
- SessionHistory.AnswersFollowLives: an id that the server generates is taken not to be that of a remembered terminated session.
- SessionRuns.ListingIsNewestPrefix: the comparison of ids by locale is any order that a ranking of the ids gives, and the displayed ages and dates are left out.
- TenantKeys.RotateTenantApiKey: writing the policy file and generating keys are left out; the keys that the generator yields are inputs, and freshness is a condition of the theorems about runs.
- SpecWatch.UrlWatch.Tick: fetching with its redirects and limits is left out; polls do not overlap, as the `inflight` flag sees to; SHA-256 is taken to be injective.
- Csv.WriteCsv: values that are no text enter as the text they are converted to.
- AuditRing.FilterAuditEvents: parsing of dates is left out; a bound is a time, and a bad date, which raises an error, is not modelled.
- Metrics.MetricsStore.IncToolCall: the counters of HTTP requests, webhooks and refused addresses, and the text format of the metrics page are left out.
- Client address lookup, CORS, routing, command lines, configuration defaults and the report formats other than CSV: input, output or single branches.
- Code generation, cost arithmetic and the checks of manifests, charts and dashboards: fixed lists or code that the parts above do not depend on.
- Pattern-based redaction and metric-name scanners: their meaning is that of the regular expressions they use.
