# OpencodeProxy: verified model

OpencodeProxy is a single-instance proxy that spreads inference requests over a pool of
upstream keys and fails over when a key's quota is spent or its credential is dead. This
project models its stateful cores and proves properties of them over every input, every run
and, for the key pool, every interleaving.

`dafny verify dfyconfig.toml` checks everything.

| file | what it holds |
|---|---|
| `TextClock.dfy` | instants written as trimmed RFC 3339 text (sections 5.1 and 5.6 of RFC 3339) and compared as strings |
| `TextForm.dfy` | the fields of such a text, which read back as the instant |
| `KeyStore.dfy` | the `keys` and `quota_events` tables, each statement's effect (`Apply`), the selections, and the class `Store` that performs the statements in place |
| `Verdict.dfy` | error verdicts, what one key's answer makes the proxy write, the walk over a snapshot |
| `KeyPool.dfy` | the pool under concurrency: requests, model listings, key tests, the scheduler and the administrator as processes over one table, one statement a step |
| `StepEffects.dfy` | what the steps of the pool's processes read and write, column by column |
| `Cooling.dfy` | how long a spent key rests, over every interleaving, and when requests try it again |
| `SequentialRuns.dfy` | runs of whole operations: health, failover accounting, stickiness, model listing |
| `Uninterrupted.dfy` | every such run is a run of the interleaved system in which nobody interrupts |
| `Sse.dfy` | splitting a byte stream into server-sent events with a size limit, and reading an event's data (sections 9.2.5 and 9.2.6 of the WHATWG HTML Standard) |
| `EventBytes.dfy` | where an event ends and what data it carries, said of the bytes alone |
| `Forwarding.dfy` | forwarding an event stream to the client, with its commit point |
| `Inference.dfy` | a whole inference request, with what the client gets and what is recorded |
| `Replies.dfy` | what the client gets and what is recorded, told from the exchanges alone |
| `Jsonc.dfy`, `JsoncTokens.dfy` | the comment stripper of the client installers, in its Python and PowerShell forms, and what it means for a document |
| `Identity.dfy`, `IdentityRuns.dfy`, `IdentityRecord.dfy` | the identity manager with its file, whole lives of an instance, and what is handed out and kept in them |
| `Enrollment.dfy` | one-time pairing tickets |
| `Usage.dfy` | the token usage accumulator |
| `Classifier.dfy` | the error classifier's patterns, what they can span, and the strings of a JSON body |
| `Phrases.dfy` | what the patterns find in a message, in plain words, and so which verdict it draws |
| `Arrangements.dfy` | a three-state scanner over the arrangements of a list, and when all arrangements end alike |
| `VerdictOrder.dfy` | the classifier's verdict on a body whose strings arrive in any order |
| `KeyImport.dfy`, `ImportAnswer.dfy` | importing a list of keys, and what the answer says of each line |
| `WhiteSpace.dfy` | the tables of white space the components use, compared |
| `Wrappers.dfy`, `Json.dfy` | options and lists of them, an induction over stretches of time, and JSON values |

Where the code falls short of what one would expect of it, the model follows the code. A
lemma exhibits the failing input and another says exactly when the code meets the
expectation:

| failing input | exact condition |
|---|---|
| `DueIsNotChronological` | `DueExactly` |
| `ActiveCanCool` | `ActiveUsableExactly` |
| `UnstoredProbesAgain` | `ProbeSpacing` (sufficient: the earlier check was stored) |
| `StatusCanDiffer` | `RecordedStatusExactly` |
| `MixedRelayHappens` | `MixedRelayExactly` |
| `BodyLostLeavesNoTrace` | `AttemptsMatchCalls` |
| `StripNotIdempotent` | `StripIdempotentExactly` |
| `ScriptsCanDiffer` | `StrippersAgreeExactly` |
| `AtomsCanJoin` | `TokensKeptExactly` |
| `SetupCanLockOut` | `AgreementExactly` |
| `CompleteFallsBack` | `StateIsLastObjects` |
| `AnthropicTotalCanWrap` | `AnthropicTotalExactly` |
| `OrderCanMatter` | `OrderDoesNotMatterExactly` |
| `DuplicateNotStored` | `DuplicateIsStoredExactly` |

Surroundings enter as parameters: instants, upstream exchanges, whether a write is stored,
what a secret decrypts to, random draws, the outcome of writing a file, key fingerprints and
hashes (taken as injective where a lemma says so), and the classifier's verdict inside the
request model (whose own patterns are modelled in `Classifier.dfy` and `VerdictOrder.dfy`).

## Model

| member | source | states |
|---|---|---|
| TextClock.DateOf | internal/store/sqlite.go:202 | the calendar date printed for a day number is valid and numbers that very day |
| TextClock.DatesInOrder | internal/store/sqlite.go:202 | calendar order is day order |
| TextClock.InRangeIsFourDigits | internal/store/sqlite.go:202 | the range of the results below is exactly the instants printed with a year of at most four digits |
| TextForm.TextReads | internal/store/sqlite.go:202 | between years 0 and 9999 an instant is written as four digits of a year, five fields of two and at most nine fraction digits with no zero at their end, and these read back as that instant |
| TextClock.TextOrder | internal/store/sqlite.go:202 | between years 0 and 9999, text order is time order exactly unless the earlier fraction is a prefix of the later one inside one second |
| TextClock.TextIsInjective | internal/store/sqlite.go:202 | no two instants share a text |
| TextClock.DueExactly | internal/store/sqlite.go:351-354 | exactly when the textual release test passes, inside one second and across seconds |
| TextClock.DueBounds | internal/store/sqlite.go:339-354 | a key is never released a full second early and never held a full second late |
| TextClock.DueIsNotChronological | internal/store/sqlite.go:352 | in every second both errors occur: a later deadline is due on the whole second, a deadline on the whole second is not due later in it |
| KeyStore.ApplyKeepsSound | internal/store/sqlite.go:204-354 | every statement keeps one active row at most, active rows enabled, cooling rows with a deadline, ids below the counter, fingerprints unique, events pointing at rows |
| KeyStore.ApplyKeepsIdentity | internal/store/sqlite.go:53-72 | ids are never reused and a row's fingerprint, secret and creation time never change |
| KeyStore.ApplyFrame | internal/store/sqlite.go:280-349 | a statement that names a row leaves every other row alone, except that activation demotes |
| KeyStore.OrderedFacts | internal/store/sqlite.go:356-388 | a selection lists each row its WHERE wants once and no other, each pair in the order of its ORDER BY |
| KeyStore.SelectsExactly | internal/store/sqlite.go:216-388 | a list is the selection exactly when it holds the wanted rows, once each, ascending on the columns: eligible keys active before standby, valid keys reachable before the rest, and then by priority and id, lower first |
| KeyStore.ActiveHeadsListing | internal/store/sqlite.go:357 | an active eligible key is the first of the eligible keys, whatever the priorities |
| KeyStore.Store.Create | internal/store/sqlite.go:204-214 | the insert's effect; a taken fingerprint is rejected and changes nothing |
| KeyStore.Store.Update | internal/store/sqlite.go:280-290 | the columns an update sets; disabling takes the active role |
| KeyStore.Store.Delete | internal/store/sqlite.go:292-295 | the row and its quota events go, nothing else |
| KeyStore.Store.Activate | internal/store/sqlite.go:297-315 | demote all, promote one; a failed activation leaves the tables as they were |
| KeyStore.Store.Check | internal/store/sqlite.go:317-320 | the columns a control-plane check sets, and that it sets no other |
| KeyStore.Store.Use | internal/store/sqlite.go:322-325 | a used key is valid, reachable, available and has no deadline |
| KeyStore.Store.Invalidate | internal/store/sqlite.go:327-330 | a dead key loses its role |
| KeyStore.Store.Cool | internal/store/sqlite.go:332-349 | row and event together or neither; the row cools until the very time given, in the window given, and is standby, whatever else it holds is kept |
| KeyStore.Store.HalfOpenDue | internal/store/sqlite.go:351-354 | exactly the due cooling rows turn half-open |
| KeyStore.Store.Select | internal/store/sqlite.go:356-388 | the loop over the rows returns the wanted rows, once each, ascending on the columns |
| Verdict.CallsFollowSnapshot | internal/proxy/service.go:85-93 | the upstream is called for exactly the keys of the snapshot up to the one whose answer ends the request, but for those it cannot decrypt, in order and once each |
| KeyPool.StepKeepsInv | internal/proxy/service.go:71-74 | the pool invariant survives every step of every process |
| KeyPool.PoolSafety | internal/proxy/service.go:71-179 | in every reachable state of every interleaving the tables are sound and every remembered key still means the same row, or a row that is gone |
| KeyPool.StaleWriteHitsOwnRow | internal/proxy/service.go:420-445 | a write from a stale snapshot reaches the row of the identity it saw or no row, and spoils no other |
| KeyPool.ActiveUsableExactly | internal/store/sqlite.go:297-354 | a statement spoils a usable active key exactly when it activates a row that is cooling or invalid at that moment |
| KeyPool.ActiveUsableOverRuns | internal/proxy/service.go:439-445 | without such an activation the active key is usable throughout any interleaving |
| KeyPool.ActiveCanCool | internal/proxy/service.go:121-122 | from an empty installation, two requests can leave the active key cooling |
| KeyPool.AvailableOnlyByServing | internal/proxy/service.go:120-123 | a key turns available only by serving an inference, and never turns unknown again |
| KeyPool.AvailableHasServed | internal/proxy/service.go:165-168 | over whole runs, an available key has served since it was not |
| KeyPool.ControlPlaneLeavesQuota | internal/proxy/service.go:321-398 | model listing and tests short of the probe leave all quota fields and events alone |
| KeyPool.StepKeepsSpacing | internal/scheduler/scheduler.go:35-63 | the probe-spacing invariant survives every step |
| KeyPool.ProbeSpacing | internal/scheduler/scheduler.go:45-60 | under fixed settings and every interleaving, a key under scheduled test was listed half-open, enabled, with its override or else the setting on, and no check younger than the interval at the pass's clock; and its probe follows an earlier scheduled one whose check was stored by at least the interval, stamp to stamp |
| KeyPool.NextTestsExactly | internal/scheduler/scheduler.go:46-60 | the head of the queue goes under test exactly when it is half-open, enabled, allowed by its override or else the setting, and never checked or checked at least the interval ago; otherwise it is skipped and nothing else changes |
| KeyPool.PassReadsAll | internal/scheduler/scheduler.go:37-45 | a pass takes up every row, by priority and id, with the settings and the time read then |
| KeyPool.ScheduledAsListed | internal/scheduler/scheduler.go:46-60 | in every reachable state, whatever the settings did meanwhile, a key under scheduled test has these fields by the settings and the clock its pass started with |
| KeyPool.UnstoredProbesAgain | internal/proxy/service.go:395 | when the check is not stored, the scheduler's next pass probes the key again at once |
| StepEffects.RefusalExactly | internal/proxy/service.go:420-437 | the row of a refused key: a dead credential is invalid, a spent quota cools until the time named, or else for the probe interval, or else for 900 seconds; standby either way |
| StepEffects.RefusedStep | internal/proxy/service.go:110-117 | the step that writes a refusal writes that row, and the request goes on to its next key |
| StepEffects.SnapshotReads | internal/proxy/service.go:71-74 | under the mutex a request reads exactly the eligible rows, in order |
| StepEffects.TestWrites | internal/proxy/service.go:372-418 | what each outcome of a key test writes, column by column, and that it writes nothing else |
| StepEffects.TestGoesOn | internal/proxy/service.go:395-398 | a test goes on to the probe exactly when the catalogue was listed and a probe was asked for |
| StepEffects.ListingReads | internal/proxy/service.go:329-333 | a model listing reads exactly the enabled rows without a dead credential, reachable ones first |
| StepEffects.ListingWrites | internal/proxy/service.go:334-360 | what each outcome of one of its keys writes, and whether it goes on |
| Cooling.ReleaseInTime | internal/store/sqlite.go:351-354 | a release a full second before a row's deadline leaves it alone, one a full second after it makes it half-open and keeps the rest of it |
| Cooling.SpentKeyRests | internal/store/sqlite.go:332-357 | under every interleaving, from the step that records a spent quota with a reset time, no selection of eligible keys has that key until a second before that time, unless it was marked used or spent again in between |
| Cooling.ReadmittedExactly | internal/store/sqlite.go:351-357 | a request tries a key exactly when it is enabled, not dead, and its rest, if any, is over by the text of the clock |
| Cooling.ReadmittedInTime | internal/store/sqlite.go:351-357 | so a request a second after the deadline tries it, and one a second before does not |
| SequentialRuns.OpKeepsHealthy | internal/proxy/service.go:48-199 | a whole operation leaves the active key enabled, valid and not cooling |
| SequentialRuns.RunKeepsHealthy | internal/proxy/service.go:48-199 | so does any run of whole operations |
| SequentialRuns.FailoverShrinks | internal/proxy/service.go:110-117 | a stored failover takes exactly its key from the eligible ones |
| SequentialRuns.FailoversExactly | internal/proxy/service.go:110-156 | a failover is counted for each key a request turns away from because of its answer, and for nothing else any operation does |
| SequentialRuns.GainOnlyBy | internal/store/sqlite.go:356-357 | only creating, updating, checking, using and half-opening make a key eligible |
| SequentialRuns.FailoverBound | internal/proxy/service.go:150-156 | failovers of a run, plus the keys eligible at its end, are at most the keys eligible at its start plus the gains |
| SequentialRuns.ActiveAfterIs | internal/proxy/service.go:110-123 | who is active after a walk: the served key, nobody, or whoever was |
| SequentialRuns.InferRoles | internal/proxy/service.go:85-179 | after a request the active key is exactly that one |
| SequentialRuns.Stickiness | internal/store/sqlite.go:357 | through any stretch without key failures and administrator, each request contacts the active key first and only |
| SequentialRuns.ModelsIgnoreQuota | internal/proxy/service.go:329-360 | tables that differ in quota fields only give model listing the same choices and the same statements |
| Uninterrupted.OpAlone | internal/proxy/service.go:71-179 | from a state in which nobody is under way, the interleaved system can do to the tables exactly what a whole operation does, be it a request, a key test, a model listing, a scheduler pass or the administrator's, with its instants ascending |
| Uninterrupted.RunAlone | internal/scheduler/scheduler.go:35-63 | every run of whole operations is such a run of the interleaved system |
| Sse.ScanShape | internal/proxy/service.go:292-305 | an accepted event has one blank line, at its end, and at most max+2 bytes |
| Sse.AcceptedExactly | internal/proxy/service.go:292-305 | an event is read whole exactly when the bytes before its blank line fit the limit |
| Sse.Reader.ReadLine | internal/proxy/service.go:295 | a line up to and with its line feed, or what is left |
| Sse.Reader.ReadEvent | internal/proxy/service.go:292-305 | the loop reads what `Scan` says and moves the reader that far |
| Sse.SplitLossless | internal/proxy/service.go:292-305 | repeated reads cut the stream so that the pieces join to it again, short of an oversized event |
| Sse.SplitUnique | internal/proxy/service.go:292-305 | there is no other way to cut the stream at its blank lines |
| Sse.ReadData | internal/proxy/service.go:307-319 | the loop over the lines returns the trimmed data values joined by line feeds |
| Sse.DataRoundTrip | internal/proxy/service.go:307-319 | values written as data lines are read back |
| EventBytes.ScanExactly | internal/proxy/service.go:292-305 | a read stops exactly just past the first `\n` or `\r\n` that makes a line of its own, unless an earlier line ends beyond the limit; with neither it takes everything |
| EventBytes.LinesExactly | internal/proxy/service.go:308 | dividing at line feeds is the one way to write an event as lines joined by them |
| EventBytes.ValueExactly | internal/proxy/service.go:309-316 | a line yields a value exactly when it reads `data:`, white space, the value, white space, and the value is neither empty nor `[DONE]` |
| EventBytes.DataExactly | internal/proxy/service.go:307-319 | a text is the data of an event exactly when it is the values its lines carry, all of them in order, joined by line feeds |
| Forwarding.ForwardStream | internal/proxy/service.go:229-290 | the method reports, commits and sends what `Forward` says |
| Forwarding.ForwardLossless | internal/proxy/service.go:229-290 | an uncommitted stream sends nothing; a committed one sends the stream's bytes in order up to the break, to the end, or to the last whole event before an oversized one |
| Forwarding.RestNotes | internal/proxy/service.go:263-289 | whatever room the client has, the loop charges the last quota or auth verdict among the events it reads and notes the data of all of them |
| Forwarding.ChargedIsLast | internal/proxy/service.go:268-274 | the verdict charged is the last quota or auth verdict among the reads |
| Forwarding.RestEnds | internal/proxy/service.go:275-289 | the loop ends with a write error exactly when there is more to send than the client takes, and else with the error of its last read, the stream's end being none |
| Forwarding.ReportExactly | internal/proxy/service.go:229-290 | the whole report told from the events: a failed first read, a first event that charges the key, or else the verdict of the last later event that does, with the data of all events |
| Inference.RecordKeyFailure | internal/proxy/service.go:420-437 | a dead credential invalidates, a spent quota cools until the named reset or the fallback |
| Inference.StreamTurn | internal/proxy/service.go:107-140 | one turn with an event stream: table, client and telemetry |
| Inference.BodyTurn | internal/proxy/service.go:142-178 | one turn with a plain body: table, client and telemetry, as `Replies` tells them from the exchange |
| Inference.WalkKeys | internal/proxy/service.go:81-198 | the loop over the snapshot; every upstream call was made in snapshot order while the client had been sent nothing |
| Inference.ServeRequest | internal/proxy/service.go:71-199 | table, calls, client and telemetry once the request is read, including an empty or unreadable snapshot and the 200 that ends an unwritten reply |
| Inference.HandleInference | internal/proxy/service.go:48-199 | the whole request: an oversized or unreadable body is refused with a 413 before anything else happens |
| Inference.HandleIsInfer | internal/proxy/service.go:71-179 | its effect on the tables is the run model's operation, so all results on runs hold of it |
| Inference.OneSource | internal/proxy/service.go:85-197 | all body bytes the client gets come from one attempt or are the proxy's own message |
| Inference.RelayedExactly | internal/proxy/service.go:181-197 | when every turn moves on, the client gets the headers of the last refusal outside a stream, the status and words of the last refusal, or a 503 and the proxy's own words; and the request is recorded as failed with the last refusal's kind |
| Inference.ExhaustedSaysSomething | internal/proxy/service.go:181-197 | a client still connected then never gets an empty reply, for all keys and exchanges |
| Inference.MixedRelayExactly | internal/proxy/service.go:184-195 | when every turn moves on, the client gets one attempt's header and another's words exactly when the last refusal was inside a stream and an earlier one was not |
| Inference.MixedRelayHappens | internal/proxy/service.go:184-195 | a plain refusal and then one inside a stream |
| Inference.AttemptsMatchCalls | internal/proxy/service.go:145-148 | one attempt is recorded per call, in order, but for an unreadable body, and only that request is never finished |
| Inference.BodyLostLeavesNoTrace | internal/proxy/service.go:145-148 | a body that breaks off: a call was made, no attempt is recorded, the request never finished |
| Inference.RecordedStatusExactly | internal/proxy/service.go:131-138 | the recorded status is the one the client receives, unless the stream's first read failed and the upstream's status was not the 200 that an unwritten reply becomes |
| Inference.StatusCanDiffer | internal/proxy/service.go:131-138 | an upstream 201 whose stream fails at once: 201 on record, 200 received |
| Inference.FirstReadFailureServes | internal/proxy/service.go:233-235 | such a stream gives the client an empty 200 and still counts as served |
| Replies.GoesOnExactly | internal/proxy/service.go:85-158 | a request goes on to the next key exactly when this one's secret is lost or the upstream refused it for quota or credential, in a body or in the first event of a stream |
| Replies.ServesExactly | internal/proxy/service.go:107-178 | a key is marked as serving exactly after a stream without a refusal in any event noted, or an answer below 400 that is none |
| Replies.RefusalIsTheVerdict | internal/proxy/service.go:110-156 | a refusal is recorded with its own verdict at the time of the attempt |
| Replies.AnswerReachesClient | internal/proxy/service.go:160-178 | an ordinary answer, after any number of refused keys: the client gets its very header, status and body, as far as the limit and the connection go, and it is recorded with the key that gave it |
| Replies.StreamReachesClient | internal/proxy/service.go:107-140 | a stream that is not refused: header and status once the first event is read, then its bytes through the last whole event, as far as the connection goes |
| Replies.StreamOutcomeExactly | internal/proxy/service.go:118-138 | why a request that ended in a stream is recorded as it is |
| Replies.LostConnectionReply | internal/proxy/service.go:95-105 | a connection that fails: a 502 in the proxy's words, and no further key |
| Replies.UnreadableReply | internal/proxy/service.go:142-148 | an answer that breaks off: a 502 in other words, and no finish on record |
| Replies.NoKeyReply | internal/proxy/service.go:75-80 | no key to try: a 503, and the upstream is not called |
| Replies.AttemptsTellTruth | internal/proxy/service.go:95-178 | every recorded attempt names the key, status and outcome of the exchange that was had with it |
| Jsonc.PyUncomment | internal/httpapi/client-install.sh:52-83 | the first Python scanner removes comments as `Uncomment` says |
| Jsonc.PyUncomma | internal/httpapi/client-install.sh:84-117 | the second removes trailing commas as `Uncomma` says |
| Jsonc.PyStrip | internal/httpapi/client-install.sh:52-117 | both passes together |
| Jsonc.PsUncommentLoop | internal/httpapi/client-install.ps1:11-34 | the first PowerShell scanner |
| Jsonc.PsUncommaLoop | internal/httpapi/client-install.ps1:36-60 | the second PowerShell scanner |
| Jsonc.PsStrip | internal/httpapi/client-install.ps1:9-61 | both passes together, and the empty object exactly for a text of nothing but white space |
| Jsonc.StrippersAgreeExactly | internal/httpapi/client-install.ps1:26-31 | with white space of its own for each, PowerShell's output is Python's plus one line feed exactly when the text ends inside a line comment, if and only if no comma trails under one of them only |
| Jsonc.ScriptsAgree | internal/httpapi/client-install.ps1:56 | they agree so on every text without the separators U+001C to U+001F |
| Jsonc.ScriptsCanDiffer | internal/httpapi/client-install.sh:105-113 | a comma, a file separator and a brace: only Python drops the comma |
| Jsonc.SeparatorsDiffer | internal/httpapi/client-install.ps1:50-57 | a comma, a character, a brace: the scripts differ on it exactly when the character is one of the four separators |
| Jsonc.UncommentLeavesNone | internal/httpapi/client-install.sh:52-83 | the output holds no comment opener outside a string, for any text |
| Jsonc.UncommentIdempotent | internal/httpapi/client-install.sh:52-83 | removing comments twice is removing them once |
| Jsonc.UncommaMakesNone | internal/httpapi/client-install.sh:84-117 | removing commas never makes a comment |
| Jsonc.StripIdentityExactly | internal/httpapi/client-install.sh:52-117 | stripping is the identity exactly on texts without comments and trailing commas |
| Jsonc.StripIdempotentExactly | internal/httpapi/client-install.sh:52-117 | stripping twice is stripping once exactly unless a comma stands before a trailing comma |
| Jsonc.StripNotIdempotent | internal/httpapi/client-install.sh:105-113 | the smallest such text |
| JsoncTokens.StripRender | internal/httpapi/client-install.sh:52-117 | a document loses its comments and trailing commas; tokens, strings and white space stay, in order |
| JsoncTokens.TokensOfKept | internal/httpapi/client-install.sh:105-113 | the tokens kept are all but the commas right before a closing bracket |
| JsoncTokens.StrictUntouched | internal/httpapi/client-install.sh:52-117 | strict JSON passes through unchanged |
| JsoncTokens.LexRender | internal/httpapi/client-install.sh:52-117 | reading a document back gives its tokens when no two atoms touch, and fewer when some do |
| JsoncTokens.TokensKeptExactly | internal/httpapi/client-install.sh:77-81 | the stripped text reads as the kept tokens exactly unless two atoms are kept apart by comments alone |
| JsoncTokens.AtomsCanJoin | internal/httpapi/client-install.sh:77-81 | two numbers around a block comment become one |
| Identity.Manager.Open | internal/identity/manager.go:81-92 | opening takes the file's state, cipher included |
| Identity.Manager.Persist | internal/identity/manager.go:390-423 | what the file holds after each way of writing it |
| Identity.Manager.Initialize | internal/identity/manager.go:131-171 | the setup and its rollback |
| Identity.Manager.RotateAccessKey | internal/identity/manager.go:228-259 | the rotation and its rollback |
| Identity.Manager.AppendToken | internal/identity/manager.go:299-301 | append in place or into a larger array |
| Identity.Manager.RemoveToken | internal/identity/manager.go:367 | compaction in place removes exactly that element |
| Identity.Manager.IssueClientToken | internal/identity/manager.go:267-309 | the issue and its rollback to the copy |
| Identity.Manager.RenameClientToken | internal/identity/manager.go:324-347 | the renaming and its rollback; before setup a good name dereferences nil |
| Identity.Manager.RevokeClientToken | internal/identity/manager.go:349-375 | the revocation and its rollback to the copy, despite the compaction |
| Identity.Manager.AuthenticateProxy | internal/identity/manager.go:187-203 | master before the first client whose hash matches |
| Identity.FindIsFirst | internal/identity/manager.go:355-361 | the search finds the first client with the id, or there is none |
| IdentityRuns.WritesNothingNewExactly | internal/identity/manager.go:131-375 | a call that reaches its write leaves the state as it was exactly when it is idle: a rotation to the same key and salt or a renaming to the same name, at the stored instant |
| IdentityRuns.AgreementExactly | internal/identity/manager.go:419-422 | from agreement, a call ends with memory and file different exactly when it writes, fails after the rename, and is not idle |
| IdentityRuns.FailureKeeps | internal/identity/manager.go:160-164 | a failed call leaves the memory as it was, and the file unless it failed after the rename |
| IdentityRuns.MemoryIsDisk | internal/identity/manager.go:390-423 | without such failures memory equals file after any run |
| IdentityRuns.SettledAgrees | internal/identity/manager.go:81-92 | whatever failed, the next completed write or restart restores the equality |
| IdentityRuns.SetupCanLockOut | internal/identity/manager.go:419-422 | a setup that fails after the rename, and a restart: through any sequence of setups and restarts the key no call returned is the only password and every setup is refused |
| IdentityRuns.AlwaysSized | internal/identity/manager.go:267-283 | at most 100 client tokens and names of 1 to 80 characters, in memory and file, in every run |
| IdentityRuns.OneSetup | internal/identity/manager.go:131-136 | at most one setup succeeds in any run |
| IdentityRuns.MasterExactly | internal/identity/manager.go:194-196 | the key most recently handed out, and it alone, is master key and admin password |
| IdentityRuns.AcceptedExactly | internal/identity/manager.go:187-203 | any other token is client c's exactly when it was issued for c and c was not revoked since |
| IdentityRuns.OnlyIssueAndRevokeMatter | internal/identity/manager.go:228-347 | setup, rotation, renaming and restart change for no token whose it is |
| IdentityRecord.SucceedsExactly | internal/identity/manager.go:131-375 | each call succeeds exactly when its own guards hold and its write goes through |
| IdentityRecord.FailsBecause | internal/identity/manager.go:131-375 | and each error is returned exactly for its reason |
| IdentityRecord.WrittenExactly | internal/identity/manager.go:131-375 | what a successful call hands out and writes: a setup's drawn key and its kept master key as recovery key; the other calls leave master key, access flag and setup time alone |
| IdentityRecord.MasterKeyForGood | internal/identity/manager.go:131-171 | the file's master key, once set, is there for good, and memory never has another |
| IdentityRecord.RecoveryKeyOpens | internal/identity/manager.go:139-171 | at every moment of a run with clean failures the key that seals the upstream keys is the recovery key that was handed out |
| IdentityRecord.NamesKept | internal/identity/manager.go:267-347 | in every such run each client bears the name it was last given |
| IdentityRecord.AcceptedByName | internal/identity/manager.go:187-203 | so a token is accepted under the name its client was last given |
| Enrollment.EnrollmentStore.Create | internal/httpapi/client_setup.go:43-60 | purging while walking the map, in any order, then adding the ticket |
| Enrollment.EnrollmentStore.Consume | internal/httpapi/client_setup.go:62-75 | the ticket is gone either way and returned only in time |
| Enrollment.CreateClientEnrollment | internal/httpapi/client_setup.go:89-112 | the request's answer and effect |
| Enrollment.ClientEnroll | internal/httpapi/client_setup.go:114-149 | the request's answer and effect |
| Enrollment.PurgeUnnoticed | internal/httpapi/client_setup.go:53-57 | every answer is that of a store that never purges |
| Enrollment.AcceptedExactly | internal/httpapi/client_setup.go:62-75 | a ticket is accepted exactly when it was created, not spent since, and the clock is not past its expiry |
| Enrollment.AcceptedWithin | internal/httpapi/client_setup.go:43-75 | told from the requests: a ticket is accepted exactly when an earlier request created it, none spent it since, and the clock has gone on by 600 seconds at most; the answer bears that request's name |
| Enrollment.RedeemedInTime | internal/httpapi/client_setup.go:71-73 | an accepted ticket was created at most ten minutes before and never spent |
| Enrollment.RedeemedOnce | internal/httpapi/client_setup.go:70 | no ticket is accepted twice, even if issuing failed |
| Enrollment.TicketsConserved | internal/httpapi/client_setup.go:133-142 | tickets stored plus accepted never exceed tickets created, and tokens given never exceed tickets accepted |
| Enrollment.NameKept | internal/httpapi/client_setup.go:97-104 | the client gets the very name the ticket was opened with |
| Usage.UsageAccumulator.ObserveJSON | internal/proxy/usage.go:18-31 | an event adds its usage objects, root before message, to those observed |
| Usage.UsageAccumulator.ObserveUsage | internal/proxy/usage.go:33-102 | one more object observed |
| Usage.AnthropicReport | internal/proxy/usage.go:33-61 | an Anthropic report, by its field names |
| Usage.ChatReport | internal/proxy/usage.go:64-102 | a chat completion's report, by its field names |
| Usage.ResponseReport | internal/proxy/usage.go:64-102 | a response's report, whose fields have other names |
| Usage.NamesInOrder | internal/proxy/usage.go:64-102 | which name wins when a count has both |
| Usage.EventReports | internal/proxy/usage.go:18-31 | an event's own usage is read before that of the message in it, and nothing else is read |
| Usage.AnthropicExactly | internal/proxy/usage.go:36-56 | each part is the last value present; the total is absent exactly when all parts are, else the wrapped sum of the latest |
| Usage.OpenAILastValues | internal/proxy/usage.go:64-96 | each of these fields is the last value present |
| Usage.OpenAIExactly | internal/proxy/usage.go:66-89 | total and uncached input come from one object, the last with an input count |
| Usage.StateIsLastObjects | internal/proxy/usage.go:57-61 | state and raw record are the last object's alone |
| Usage.CompleteFallsBack | internal/proxy/usage.go:57-61 | a complete usage turns partial while still holding both counts |
| Usage.AnthropicTotalExactly | internal/proxy/usage.go:53-56 | the total is the sum of its parts exactly when that sum is a 64-bit integer |
| Usage.AnthropicTotalExact | internal/proxy/usage.go:53-56 | so counts up to a third of the largest integer never overflow it |
| Usage.AnthropicTotalCanWrap | internal/proxy/usage.go:54 | past the range the total can be negative |
| Usage.OpenAIUncachedExact | internal/proxy/usage.go:83-89 | counts that are not negative never overflow the subtraction |
| WhiteSpace.TablesAgree | internal/httpapi/client-install.ps1:56 | the white space of names is that of the PowerShell script, and Python's has the four separators besides |
| WhiteSpace.TrimmedBytesExactly | internal/proxy/service.go:312 | the bytes trimmed from event values are those characters in UTF-8 |
| Classifier.Collector.Collect | internal/proxy/classifier.go:97-110 | in whatever order maps are walked, exactly the strings of the tree are collected |
| Classifier.FoundInTwo | internal/proxy/classifier.go:90 | a pattern without bars and outer spaces is found in two joined strings exactly when it is found in one |
| VerdictOrder.UpstreamOrderly | internal/proxy/classifier.go:31-35 | all the alternatives are such patterns, but for the two that start with a credit error |
| VerdictOrder.CreditInTwo | internal/proxy/classifier.go:32 | those two are found in two joined strings exactly when found in one, or when the first leaves a credit error open and the second closes it before a line feed |
| VerdictOrder.BalanceExactly | internal/proxy/classifier.go:32 | the joined message tells of a balance exactly when a string does alone, or one opens a credit error that a later one closes with no line feed between |
| VerdictOrder.BalanceInSomeOrder | internal/proxy/classifier.go:97-110 | some order of the strings tells of a balance exactly when one does alone or one opens what another closes |
| VerdictOrder.HitsOfJoin | internal/proxy/classifier.go:40-64 | the joined message of settled strings is judged as its strings would be with no order among them |
| Arrangements.OrderMattersExactly | internal/proxy/classifier.go:97-110 | for the scan behind the credit patterns: some order of the strings fires and another does not, exactly when one string opens and another closes, and those that do both number at most one more than those with a line feed that do neither |
| VerdictOrder.OrderDoesNotMatterExactly | internal/proxy/classifier.go:97-110 | all orders of a body's strings draw the same verdict and window exactly when they are settled: one tells of a balance alone, or none closes what another opens, or too few line feeds keep apart those that do both |
| VerdictOrder.OneStringSettled | internal/proxy/classifier.go:82-95 | a single string is always settled |
| VerdictOrder.OrderCanMatter | internal/proxy/classifier.go:32 | an unsettled body: one order fails over, the other is relayed as the client's error |
| VerdictOrder.ExtractMessage | internal/proxy/classifier.go:82-95 | the message is the body's strings joined in some order, or the trimmed body |
| VerdictOrder.Classify | internal/proxy/classifier.go:40-80 | each kind and each window exactly when the status and the patterns found in the message call for it; verdict and window are those of the message, and those of the strings in any order when these are settled |
| Phrases.QuotaExactly | internal/proxy/classifier.go:32 | what the quota pattern finds: the phrases, in any letter case, with blanks where they may stand |
| Phrases.PlainBalanceExactly | internal/proxy/classifier.go:33 | what the balance alternatives within one string find |
| Phrases.CreditExactly | internal/proxy/classifier.go:33 | a credit error, and on its line later a balance or billing |
| Phrases.CredentialExactly | internal/proxy/classifier.go:34 | what the credential pattern finds |
| Phrases.RateExactly | internal/proxy/classifier.go:35 | what the rate pattern finds |
| Phrases.VerdictExactly | internal/proxy/classifier.go:40-80 | so which verdict a message draws, from its status and what it contains, each kind exactly |
| Phrases.WindowExactly | internal/proxy/classifier.go:46-59 | and which window |
| Phrases.EveryKindHappens | internal/proxy/classifier.go:40-80 | one body of each kind |
| KeyImport.SaveLine | internal/httpapi/api.go:286-322 | one line: failed, duplicate or imported; an imported key's row has its name, sealed secret, fingerprint and priority and is enabled, whatever its test found, and with no test nothing is known of it yet |
| KeyImport.TablesGain | internal/httpapi/api.go:286-322 | the tables gain exactly the fingerprints of the imported lines and one id each |
| KeyImport.ImportKeys | internal/httpapi/api.go:233-331 | one result a line in order with its test report and fresh row, exact counters, and tables that are those of the imported lines alone, in order |
| ImportAnswer.BytesExactly | internal/httpapi/api.go:272 | a secret's length in bytes: one a character, one more each from U+0080, U+0800 and U+10000 on |
| ImportAnswer.AnswerTold | internal/httpapi/api.go:263-330 | each line's number, status, fingerprint, name, report and row, told from the line, the lines before it and the keys stored at the start; and the counters are how many lines have each status |
| KeyImport.CountersPartition | internal/httpapi/api.go:324-330 | the three counters add up to the lines |
| KeyImport.SecondImportIdle | internal/httpapi/api.go:278-321 | when saving never fails, every usable key is stored and a second import imports nothing |
| KeyImport.DuplicateIsStoredExactly | internal/httpapi/api.go:279-285 | a duplicate's key is stored exactly unless the first line with its fingerprint failed to be saved |
| KeyImport.DuplicateNotStored | internal/httpapi/api.go:279-285 | a line that could not be saved, then its repeat: reported a duplicate, stored nowhere |

## Left out

- VerdictOrder.Classify: the reset time is not modelled; its pattern runs across strings, so it depends on their order, and its floating-point durations are out of scope.
- Classifier.Spans: case folding covers A to Z, the Kelvin sign and the long s, which are all that fold to letters of these patterns.
- Usage.UsageAccumulator.ObserveJSON: numbers are the 64-bit integers their conversion yields; converting huge floats is not modelled.
- Identity.Manager.Open: migrating an installation from environment variables and an undecodable file are not modelled; reading back what was written is taken to return it.
- Inference.HandleInference: rewriting the body for stream usage, latencies and request ids are not modelled; headers and the words of the 413 are opaque values.
- KeyPool.ProbeSpacing: the distance between probes is stated for settings that stay fixed; which keys are probed is not (`KeyPool.ScheduledAsListed`).
- KeyStore.Apply: one instant a statement, though the source may read the clock twice in it; error texts are stored as given, without the cut at 1000 characters.
- TextClock.TextOrder: instants before year 0 do not occur; parsing texts of other forms is not modelled.
- KeyImport.ImportKeys: decoding the request is not modelled; a key test is the statements it issues and a report given as a parameter.
- Jsonc.PsStrip: the JSON parsers that follow the scanners are not modelled.
- JsoncTokens.StripRender: says nothing of texts that are no document, such as unterminated strings; those are covered by the results in Jsonc.
- The model cache, and the replies of model listing and key tests.
- HTTP routing, cookies and sessions, the dashboards and their SQL, migrations, retention purges and the user interface.
- Encryption, password hashing and random generation, beyond succeeding or failing and being injective or fresh.
- Proxying of response headers, hop-by-hop filtering and flushing.
