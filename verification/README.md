# loomWatch agent cores in Dafny

loomWatch polls AI-provider quotas in the background. This project models the parts of it
that carry state or decode foreign bytes, and proves what each promises over every input
and every run:

- **Grok billing decoder** (`Varint`, `Protobuf`, `ProtobufTheorems`, `Frames`, `Billing`,
  `BillingTheorems`,
  `Trailers`): gRPC-web frames and the status in their trailers, then a schema-less scan of protobuf bytes, then the
  choice of one percent and one reset time. The wire formats are those of the Protocol
  Buffers Encoding guide ("Base 128 Varints", "Message Structure") and the
  Length-Prefixed-Message rule of gRPC with the trailer flag of its PROTOCOL-WEB variant.
- **JSONL tail ingester** (`Lines`, `Ingest`, `IngestTheorems`, `IngestRuns`, `IngestLimits`,
  `RoundRobin`,
  `Modular`): bounded reads from a persisted offset, a carried partial line, inserts that
  tolerate duplicates, the offset written last, a cursor over more than 100 files.
- **Anthropic credential agent** (`AnthropicSpec`, `AnthropicAgents`, `AnthropicTheorems`,
  `AnthropicRuns`, `AnthropicPause`, `Powers`): one-time refresh tokens, two backoffs, pause and recovery.
- **Usage sessions** (`Sessions`, `SessionTheorems`), the **starter-ping cap**
  (`StarterPing`), agent lifecycle under restarts and reloads (`CodexManager`, `CodexRuns`,
  `CodexScans`, `ZaiManager`), the **managed agy process** (`AgyRunner`) and **quota pools**
  (`QuotaPools`).

An object of the source is a class whose methods update its fields, each proved against a
function on values; the whole-run theorems are about those functions. The world around an
agent (clock, files, database outcomes, credential store, OAuth and usage endpoints, process
launches) enters as parameters of each step, so a theorem over all runs ranges over every
answer the world may give and every point at which a write may fail.

Where the code does not do what its comments or a natural reading promise, the model keeps
the code's behaviour and proves exactly when the promise holds, beside an input on which it
fails:

- Exactly-once ingestion of a file holds under every schedule if and only if every finished
  line fits the 512 KiB cap (`IngestLimits.ExactlyOnceExactly`); `IngestLimits.LongLineLost`
  is a file that loses its only line without even growing.
- A credential write may report success and leave the old pair in place, because keyring
  errors are ignored. Proactive refresh presents a spent refresh token exactly after such a
  write (`AnthropicRuns.ProactiveReuseExactly`, `AnthropicRuns.NextReuseExactly`,
  `AnthropicRuns.SilentWriteExposes`); the 429 bypass and the recovery paths do so after a
  write that fails openly as well (`AnthropicRuns.ReuseExactly`, `AnthropicRuns.BypassReuses`).
- Two failed agy fetches in a row may leave a process behind (`AgyRunner.PairAlways`,
  `AgyRunner.PairExactly`, `AgyRunner.ThirdFailureLeavesProcess`).
- A Codex profile whose JSON name differs from its file name is launched and cancelled by the
  same scan, or not restarted when modified; a running profile whose modified file does not
  load is stopped and not tried again (`CodexScans.RunsAfterScanExactly`,
  `CodexScans.RestartExactly`, `CodexScans.BrokenProfileNotRetried`, and the three witnesses
  beside them).
- The 0..100 range test on a float32 percent lets NaN through (`Billing.RangeTest`,
  `Billing.NaNWitness`).
- A declared length of 2^63 or more passes the protobuf scanner's length guard as a negative
  int and panics (`ProtobufTheorems.CrashExactly`, `ProtobufTheorems.HugeLengthCrashes`).

## Model

| member | source | states |
|---|---|---|
| Varint.ReadVarint | internal/api/grok_client.go:660-673 | the cursor loop returns the value and stops where the recursive decoder does, and fails exactly when it does |
| Varint.ReadEncode | internal/api/grok_client.go:660-673 | reading inverts base-128 encoding for every 64-bit value, whatever bytes follow, and consumes exactly the encoding |
| Varint.ReadSucceedsExactly | internal/api/grok_client.go:663-672 | a varint is read if and only if one of the next ten bytes has its top bit clear, and it ends at the first such byte |
| Varint.TopBitNeedsTenBytes | internal/api/grok_client.go:663-672 | a value of 2^63 or more takes all ten bytes, the first nine with the top bit set |
| Varint.OrIsAddition | internal/api/grok_client.go:666 | the accumulation step of the model is the bitwise OR of the source, with the shifted group's bits past the 64th dropped, at every group of every varint |
| Protobuf.ReadField | internal/api/grok_client.go:600-655 | the key, wire type and guards recognise the field the specification does at every cursor position, including the resynchronising cases |
| Protobuf.VisitField | internal/api/grok_client.go:608-655 | one iteration collects the leaves of the field at the cursor, descending at most four levels |
| Protobuf.ScanProtobuf | internal/api/grok_client.go:588-658 | the loop with its nested calls and merges returns the scan of all the bytes, or crashes exactly when that does |
| ProtobufTheorems.VisitEncode | internal/api/grok_client.go:599-656 | at the head of an encoded field, whatever follows, the loop advances by exactly that field and collects exactly its leaves |
| ProtobufTheorems.ScanEncode | internal/api/grok_client.go:593-658 | scanning encoded message trees yields the trees' leaves with their full paths and consecutive orders, then the scan of any trailing bytes as if they stood alone |
| ProtobufTheorems.ScanMessage | internal/api/grok_client.go:593-658 | the scan of an encoded message is exactly its varint and fixed32 leaves in wire order |
| ProtobufTheorems.ScanBounds | internal/api/grok_client.go:588-658 | on every byte string at every depth, 2 per varint plus 5 per fixed32 is at most the length, fixed32 orders are consecutive across nested merges, and paths extend by at most one number per level |
| ProtobufTheorems.TopLevelBounds | internal/api/grok_client.go:454-456 | from the decoder's call every path has length 1 to 5 and orders run 0, 1, 2, ... |
| ProtobufTheorems.CrashNeedsHuge | internal/api/grok_client.go:627-632 | a scan that crashes does so on a field header declaring 2^63 bytes or more that stands at some position of its input, however deeply nested it was reached |
| ProtobufTheorems.CrashExactly | internal/api/grok_client.go:627-632 | bytes crash the scan from some position if and only if some position holds such a header, whatever follows it |
| ProtobufTheorems.CrashNeedsRun | internal/api/grok_client.go:627-632 | in particular bytes without nine continuation bytes in a row never crash it |
| ProtobufTheorems.HugeLengthCrashes | internal/api/grok_client.go:627-632 | any field header declaring 2^63 bytes or more, after any legal fields and before any bytes, crashes the scan |
| Frames.ReadDataFrames | internal/api/grok_client.go:559-574 | the shrinking loop returns the data frames of the input, none when a frame is cut |
| Frames.ReadTrailerTexts | internal/api/grok_client.go:418-426 | the shrinking loop visits the payload of every whole trailer frame, in order |
| Trailers.ReadTrailerFields | internal/api/grok_client.go:416-441 | the nested loops return the fields of all the trailer lines |
| Trailers.LastWins | internal/api/grok_client.go:427-435 | a field has a value if and only if the last line with its key says so |
| Trailers.ValidateTrailers | internal/api/grok_client.go:406-414 | the check fails exactly on a status that is a number other than zero |
| Trailers.StatusDecides | internal/api/grok_client.go:406-441 | for frames sent, the verdict is that of the last status line of the trailer frames: data frames and stray bytes never change it |
| Frames.RoundTrip | internal/api/grok_client.go:416-441 | for any frames sent plus fewer than five stray bytes, the data reader returns exactly the payloads with bit 7 clear and the trailer reader exactly the others, in order |
| Frames.Truncated | internal/api/grok_client.go:559-574 | a cut last frame loses every data frame but no complete trailer |
| Frames.Decompose | internal/api/grok_client.go:559-574 | every input re-assembles from whole frames and a rest that starts no whole frame |
| Frames.Characterise | internal/api/grok_client.go:559-574 | what both readers return on any bytes: data frames exist if and only if the rest is under five bytes |
| Billing.RangeTest | internal/api/grok_client.go:472-474 | the range test on float32 bit patterns accepts exactly NaN, negative zero and the patterns from +0 to 100.0 |
| Billing.SelectPercent | internal/api/grok_client.go:460-487 | returns the first among the shallowest fixed32 leaves that end in field 1 and pass the range test, or nothing when there is none |
| Billing.FirstShallowestUnique | internal/api/grok_client.go:465-483 | that leaf is unique |
| Billing.ListResets | internal/api/grok_client.go:494-503 | lists, in order and completely, the plausible timestamps after now |
| Billing.SelectReset | internal/api/grok_client.go:489-521 | returns the first future [1,5,1] timestamp if one exists, else the earliest future one, and always one after now |
| Billing.IsResetUnique | internal/api/grok_client.go:504-521 | the reset so described is unique |
| Billing.FindUsagePeriod | internal/api/grok_client.go:523-535 | true if and only if some varint marks a usage period |
| Billing.ParseResponse | internal/api/grok_client.go:443-557 | the reply is the one the payloads' merged leaves determine, including the raw-protobuf fallback, the no-usage-yet zero and the failures |
| Billing.RepliesUnique | internal/api/grok_client.go:443-547 | bytes and clock admit only one reply |
| Billing.PercentInRange | internal/api/grok_client.go:472-482 | a reported percent is within 0..100 unless it is NaN |
| Billing.NaNWitness | internal/api/grok_client.go:472-474 | every NaN pattern is accepted as a candidate |
| BillingTheorems.ScanAllEncoded | internal/api/grok_client.go:452-456 | the merged scan of several encoded payloads is the leaves of their trees, in order |
| BillingTheorems.ReplyFollowsTrees | internal/api/grok_client.go:443-547 | across framing, trailers and scanning, the reply is decided by the message trees sent and nothing else |
| Lines.SplitCompleteParts | internal/agent/api_integrations_ingest_agent.go:233-246 | the lines each followed by a newline, then the rest, are the input, and no piece contains a newline |
| Lines.SplitsUnique | internal/agent/api_integrations_ingest_agent.go:233-246 | no other lines and rest have that property |
| Lines.CarryOver | internal/agent/api_integrations_ingest_agent.go:182-184 | cutting the bytes at any one point and carrying the rest over gives the same lines and the same rest |
| Ingest.Store.Insert | internal/agent/api_integrations_ingest_agent.go:213-218 | a repeated fingerprint is rejected and changes nothing; a new one is stored |
| Ingest.Store.UpsertState | internal/agent/api_integrations_ingest_agent.go:230 | the file state is replaced, or nothing changes on failure |
| Ingest.IngestAgent.IngestLines | internal/agent/api_integrations_ingest_agent.go:195-219 | the line loop stores, skips, alerts up to its cap and stops at the first failing insert as the line-by-line specification does |
| Ingest.IngestAgent.OpenState | internal/agent/api_integrations_ingest_agent.go:135-155 | the state a scan starts from, after the oversize and truncation resets |
| Ingest.IngestAgent.ScanOne | internal/agent/api_integrations_ingest_agent.go:123-231 | one file scan's whole effect on the database and its success, for every view of the file and every failure |
| Ingest.IngestAgent.SelectFiles | internal/agent/api_integrations_ingest_agent.go:93-110 | the selection loop and the next cursor |
| Ingest.IngestAgent.Scan | internal/agent/api_integrations_ingest_agent.go:85-116 | one pass scans the selected files in order, going on after a failed file |
| IngestTheorems.ProcessStores | internal/agent/api_integrations_ingest_agent.go:198-219 | a line loop that finishes has every valid line's fingerprint stored and lost no earlier row |
| IngestTheorems.ProcessSound | internal/agent/api_integrations_ingest_agent.go:198-219 | finished or not, the loop stores only rows that come from valid lines of the file |
| IngestTheorems.ScanKeepsTrack | internal/agent/api_integrations_ingest_agent.go:123-231 | a scan of a file whose finished lines fit the cap, successful or failing anywhere, keeps the invariant: the partial line is what the first Offset bytes leave unfinished, all their valid lines are stored, nothing else of the file is; success advances the offset by a chunk or to the end |
| IngestTheorems.ScanFramesOthers | internal/agent/api_integrations_ingest_agent.go:112-116 | scanning one file, in whatever state, keeps that invariant for every other file |
| IngestRuns.RunKeepsTrack | internal/agent/api_integrations_ingest_agent.go:85-231 | on every interleaving of growth, scans and failures, with other files truncated, replaced or removed at will, a file that is only appended to and whose finished lines fit the cap keeps the invariant |
| IngestRuns.LinesIndependentOfReads | internal/agent/api_integrations_ingest_agent.go:167-184 | chunk independence over whole runs: the lines handed over so far are the complete lines of the first Offset bytes, and with their newlines and PartialLine they are those bytes if and only if the unfinished line fits the cap |
| IngestRuns.ExactlyOnce | internal/agent/api_integrations_ingest_agent.go:123-231 | after any such run a file's rows come only from its valid complete lines and include all of them behind the offset; with the offset at the end they are exactly those |
| IngestRuns.CatchUp | internal/agent/api_integrations_ingest_agent.go:167-180 | n clean scans of a file that stopped growing advance the offset n chunks or to the end, keeping the invariant |
| IngestLimits.OverlongLost | internal/agent/api_integrations_ingest_agent.go:184-193 | for every file with a finished line above the cap, a schedule and a parser under which that line's row is missing though the offset is at the end |
| IngestLimits.ExactlyOnceExactly | internal/agent/api_integrations_ingest_agent.go:123-231 | every append-only run to a file, under every parser, gets its rows right if and only if every finished line fits the cap |
| IngestLimits.LongLineLost | internal/agent/api_integrations_ingest_agent.go:184-193 | a concrete file that does not grow: four clean scans reach its end and lose its only line |
| IngestLimits.ShortMeansLines | internal/agent/api_integrations_ingest_agent.go:185-193 | no prefix of a file leaves more than the cap unfinished if and only if no line, finished or not, exceeds it |
| IngestLimits.CapHitExactly | internal/agent/api_integrations_ingest_agent.go:185-193 | some schedule of growth and scans of a file discards a partial line if and only if some line, finished or not, exceeds the cap |
| RoundRobin.PassIsDistinct | internal/agent/api_integrations_ingest_agent.go:92-110 | a pass visits 100 distinct files, or all when there are fewer |
| RoundRobin.CursorValue | internal/agent/api_integrations_ingest_agent.go:94-106 | after p passes the i-th selected position is cursor + 100p + i modulo the number of files |
| RoundRobin.EveryFileVisited | internal/agent/api_integrations_ingest_agent.go:92-110 | any ceil(n/100) consecutive passes over n files visit every file, from any cursor |
| AnthropicAgents.AnthropicAgent.PollOnce | internal/agent/anthropic_agent.go:530-937 | one poll is the specified function of the fields and everything it samples |
| AnthropicAgents.AnthropicAgent.PollRepeatedly | internal/agent/anthropic_agent.go:202-233 | a sequence of polls is the run the theorems below quantify over |
| AnthropicTheorems.BackoffIsUncapped | internal/agent/anthropic_agent.go:246-254 | the capped shift never shows: the result is min(base * 2^(n-1), max) for every n >= 1, and the product fits an int64 |
| AnthropicTheorems.Schedules | internal/agent/anthropic_agent.go:242-307 | both schedules equal their uncapped minimum, are monotone, and lie between base and maximum within int64 |
| AnthropicTheorems.SucceedTokens | internal/agent/anthropic_agent.go:318-327 | an accepted refresh keeps the token invariant under every outcome of its write: the stored refresh token is spent if and only if the stored pair is the one the latest write kept |
| AnthropicRuns.RunGood | internal/agent/anthropic_agent.go:530-937 | on every run the token invariant holds, every logged action was allowed, fields agree with the log, and a paused agent has a deadline |
| AnthropicRuns.ReuseExactly | internal/agent/anthropic_agent.go:318-327 | on every run any refresh presents a spent token if and only if the stored pair is the one the latest write should have replaced and did not |
| AnthropicRuns.ProactiveReuseExactly | internal/agent/anthropic_agent.go:455-462 | on every run proactive refresh presents a spent token if and only if, moreover, that write reported success |
| AnthropicRuns.ProactiveNeverReuses | internal/agent/anthropic_agent.go:455-462 | on every run whose reported writes took effect proactive refresh never presents a refresh token an earlier refresh exchanged |
| AnthropicRuns.NextReuseExactly | internal/agent/anthropic_agent.go:587-597 | after any run some world makes the next proactive stage present a spent token if and only if an unpaused agent holds a pair left by a silent write |
| AnthropicRuns.SilentWriteExposes | internal/api/anthropic_token_unix.go:216-237 | one successful poll whose write is silently lost leads to that state |
| AnthropicRuns.BypassReuses | internal/agent/anthropic_agent.go:686-688 | one poll in which an openly unsaved proactive refresh is followed by a bypass that presents the same token |
| AnthropicRuns.RereadNeverDowngrades | internal/agent/anthropic_agent.go:603-608 | on every run the re-read never installs the access token that the latest openly unsaved refresh replaced |
| AnthropicRuns.RereadDowngradesOnlySilent | internal/agent/anthropic_agent.go:603-627 | on every run the re-read installs a spent pair's access token only after a silent write |
| AnthropicRuns.RefreshesGuarded | internal/agent/anthropic_agent.go:371-397 | on every run every refresh from all three call sites found auto-refresh allowed, Claude Code not running and no backoff in force |
| AnthropicRuns.RefreshRespectsDeadline | internal/agent/anthropic_agent.go:657-674 | between a backoff deadline being set and being lifted no refresh precedes it |
| AnthropicRuns.AttemptsSpaced | internal/agent/anthropic_agent.go:420-443 | with no successful poll or credential change between, attempt k+1 follows attempt k by at least min(15min * 2^(k-1), 6h) |
| AnthropicRuns.DueAttemptHappens | internal/agent/anthropic_agent.go:420-434 | after any run a poll that reaches the API path still paused has a deadline, and makes the next attempt if it is due |
| AnthropicRuns.DisabledApiIsSilent | internal/agent/anthropic_agent.go:577-585 | in statusline-only mode no run fetches, refreshes or touches credentials |
| AnthropicPause.PausedExactly | internal/agent/anthropic_agent.go:346-357 | on every run polling is paused only if, since the failure count was last cleared, a refresh was answered invalid_grant or three re-read retries were refused, and then it is paused unless the context was cancelled right after an accepted recovery |
| AnthropicPause.PausedPollNeedsRefresh | internal/agent/anthropic_agent.go:630-636 | a poll that finds the agent still paused asks the usage API if and only if a refresh was accepted in that same poll |
| Sessions.SessionManager.HasChanged | internal/agent/session_manager.go:112-125 | true if and only if there is a baseline and the values differ from it in length or anywhere, NaN differing from everything |
| Sessions.SessionManager.IncrementAndUpdate | internal/agent/session_manager.go:138-158 | the open row's count and maxima after a poll, with either write failing |
| Sessions.SessionManager.EndSession | internal/agent/session_manager.go:128-135 | the row is ended if the write succeeds; the session is forgotten either way |
| Sessions.SessionManager.ReportPoll | internal/agent/session_manager.go:42-101 | the new manager, rows and answer for each poll |
| Sessions.SessionManager.Shutdown | internal/agent/session_manager.go:104-109 | an open session is closed and nothing else changes |
| SessionTheorems.SegmentsAreSegmentation | internal/agent/session_manager.go:58-98 | every history has a segmentation: disjoint ordered segments that open at a changed poll while none is open and close at the first idle poll, covering every opener |
| SessionTheorems.SegmentationUnique | internal/agent/session_manager.go:58-98 | that declarative segmentation is the only one |
| SessionTheorems.ReplayFollows | internal/agent/session_manager.go:42-158 | after any history the manager's fields and rows agree with the segmentation poll by poll |
| SessionTheorems.ReplayIsSegmentation | internal/agent/session_manager.go:42-158 | after any history the rows are exactly the segmentation's: previous poll's start values, one count per poll inside, the closing poll uncounted, and at most the last session open |
| StarterPing.StarterLimiter.AllowStarterPing | internal/agent/codex_agent.go:168-190 | the ring after the call and the answer |
| StarterPing.StarterLimiter.AnswerAll | internal/agent/codex_agent.go:168-190 | over any forward-clock history the object answers as a limiter that keeps the whole log |
| StarterPing.RingIsLastFive | internal/agent/codex_agent.go:158-167 | the ring of a window is always the last five of all its allowed pings |
| StarterPing.RingRefinesLog | internal/agent/codex_agent.go:158-167 | a ping is allowed if and only if fewer than five allowed pings of that window lie within the last four hours |
| StarterPing.AllowedPingsSpaced | internal/agent/codex_agent.go:164-167 | allowed ping i+5 of a window is more than four hours after ping i |
| StarterPing.WindowsIndependent | internal/agent/codex_agent.go:175-188 | calls for other windows change neither the log nor the ring of a window |
| CodexManager.CodexAgentManager.StartAgentForProfile | internal/agent/codex_agent_manager.go:434-628 | a new agent is launched and registered, or nothing happens without a database account |
| CodexManager.CodexAgentManager.LoadAndStartProfile | internal/agent/codex_agent_manager.go:207-238 | an unreadable file fails, a running name is left alone, anything else starts |
| CodexManager.CodexAgentManager.LoadAndStartProfiles | internal/agent/codex_agent_manager.go:172-204 | the first load starts what it can and records only files that loaded |
| CodexManager.CodexAgentManager.StopAgent | internal/agent/codex_agent_manager.go:780-791 | the name is unregistered and its agent cancelled |
| CodexManager.CodexAgentManager.RemoveInstanceIfCurrent | internal/agent/codex_agent_manager.go:793-800 | the entry goes only if it is still this instance |
| CodexManager.CodexAgentManager.FinishAgent | internal/agent/codex_agent_manager.go:611-625 | the goroutine's tail: its own entry at most |
| CodexManager.CodexAgentManager.ScanOne | internal/agent/codex_agent_manager.go:676-712 | one listed file: skip, start, or stop and start, and record its time |
| CodexManager.CodexAgentManager.StopDeleted | internal/agent/codex_agent_manager.go:714-738 | in whatever order the map is walked, exactly the non-default names without a file are stopped and forgotten |
| CodexManager.CodexAgentManager.ScanForProfileChanges | internal/agent/codex_agent_manager.go:667-739 | the whole scan's effect on registry, scan times and agents |
| CodexManager.CodexAgentManager.StopAllAgents | internal/agent/codex_agent_manager.go:803-817 | the registry is emptied and every registered agent cancelled, in any order |
| CodexRuns.OperationsAreSteps | internal/agent/codex_agent_manager.go:596-628 | stopping and starting are the two atomic steps each that the interleavings are made of |
| CodexRuns.RunSound | internal/agent/codex_agent_manager.go:596-627 | in every interleaving of start, stop, cancel, return, late exit and shutdown steps: registered agents have not exited, and an agent neither cancelled nor exited is registered or about to be cancelled |
| CodexRuns.OneAlivePerName | internal/agent/codex_agent_manager.go:606-608 | in every interleaving a name has at most one agent neither cancelled nor exited |
| CodexRuns.AliveIsRegistered | internal/agent/codex_agent_manager.go:780-791 | that agent is the registered one unless the scanner is halfway through stopping it |
| CodexRuns.StaysRegistered | internal/agent/codex_agent_manager.go:622-624 | from any reachable state no stale exit or other step unregisters an agent: only its own stop, its own exit or a full stop does |
| CodexScans.ScanIdleExactly | internal/agent/codex_agent_manager.go:684-738 | a scan changes nothing if and only if no listed file is new or newer and no registered profile lost its file |
| CodexScans.SecondScanIdle | internal/agent/codex_agent_manager.go:667-739 | a second scan over an unchanged directory stops and starts nothing, whatever agents exited in between |
| CodexScans.ScanLeavesFilesOnly | internal/agent/codex_agent_manager.go:714-738 | after any scan every registered name is the default or has a file |
| CodexScans.RunsAfterScanExactly | internal/agent/codex_agent_manager.go:684-738 | a new or modified profile is registered after the scan if and only if its own name is the default or names an existing file |
| CodexScans.RestartExactly | internal/agent/codex_agent_manager.go:667-739 | after a scan a running profile whose file was modified has a new agent if and only if its name is the file's and the file still loads under it; when only loading fails nothing runs under the name, and under another name the old agent stays |
| CodexScans.BrokenProfileNotRetried | internal/agent/codex_agent_manager.go:691-712 | a running profile modified into a file that does not load is not registered after any number of further scans of that directory, whatever exits in between |
| CodexScans.MisnamedProfileDropped | internal/agent/codex_agent_manager.go:714-724 | a concrete profile launched and cancelled by one scan and never tried again |
| CodexScans.MisnamedNotRestarted | internal/agent/codex_agent_manager.go:691-711 | from the start, a modified profile named "default" in a.json keeps the agent of its old contents |
| CodexScans.BrokenProfileStopped | internal/agent/codex_agent_manager.go:695-706 | from the start, a correctly named profile modified into an unreadable file ends with no agent |
| ZaiManager.ZaiAgentManager.StartAgentForAccount | internal/agent/zai_agent_manager.go:190-255 | a registered account is left alone, any other gets one agent |
| ZaiManager.ZaiAgentManager.LoadAndStartAccounts | internal/agent/zai_agent_manager.go:141-187 | the load starts the accounts in order and does nothing when the query fails |
| ZaiManager.ZaiAgentManager.StopAllAgents | internal/agent/zai_agent_manager.go:258-273 | the registry is emptied, every registered agent cancelled and every goroutine finished |
| ZaiManager.ZaiAgentManager.Reload | internal/agent/zai_agent_manager.go:127-139 | registered accounts become exactly the keyed ones of the query with one new agent each, no earlier agent runs, and nothing happens without a live context |
| ZaiManager.ClearedDrains | internal/agent/zai_agent_manager.go:258-273 | emptying the registry leaves no running agent uncancelled |
| ZaiManager.LoadedExactly | internal/agent/zai_agent_manager.go:141-187 | a load adds exactly the active accounts whose metadata parses and carries a key |
| ZaiManager.RunSafe | internal/agent/zai_agent_manager.go:108-139 | the lifecycle invariant holds in every interleaving of reloads, exits, cancellation and shutdown |
| ZaiManager.ReloadNeverOverlaps | internal/agent/zai_agent_manager.go:127-139 | at every reachable state an account has at most one running agent, and none of an earlier load runs beside the latest |
| ZaiManager.ReloadRegistersExactly | internal/agent/zai_agent_manager.go:141-187 | between reloads of a live manager the registered ids are exactly the keyed accounts of the latest query, and only those have running agents |
| ZaiManager.WaitIsOnCancelled | internal/agent/zai_agent_manager.go:267-272 | a waiting reload only ever waits for agents that were told to stop |
| AgyRunner.AntigravityCLIRunner.TeardownLocked | internal/api/antigravity_cli.go:327-343 | the session, if any, is killed and forgotten |
| AgyRunner.AntigravityCLIRunner.RecordFailureLocked | internal/api/antigravity_cli.go:286-293 | every second failure tears the session down and resets the count |
| AgyRunner.AntigravityCLIRunner.EnsureLocked | internal/api/antigravity_cli.go:182-208 | a healthy session is reused, otherwise replaced; a process that never becomes ready is killed |
| AgyRunner.AntigravityCLIRunner.Fetch | internal/api/antigravity_cli.go:128-178 | success or failure as the world decides, ownership kept |
| AgyRunner.AntigravityCLIRunner.WatchdogTick | internal/api/antigravity_cli.go:301-311 | while the watchdog runs, an idle session past the warm time is torn down; ownership kept |
| AgyRunner.AntigravityCLIRunner.Stop | internal/api/antigravity_cli.go:319-324 | no session remains, the root context is cancelled, ownership kept |
| AgyRunner.RunOwned | internal/api/antigravity_cli.go:128-343 | after every run the launched processes are the killed ones, each killed once, and the session, at most one; nothing else is killed; failures is 0 or 1 |
| AgyRunner.StreakClears | internal/api/antigravity_cli.go:286-293 | failures is the parity of the failed fetches since the last success, and every even one leaves no process |
| AgyRunner.PairExactly | internal/api/antigravity_cli.go:286-293 | two failing fetches in a row leave no process if and only if the count was even before them or the second could not get a session |
| AgyRunner.PairAlways | internal/api/antigravity_cli.go:286-293 | every pair of failing fetches, whatever the world answers, leaves no process if and only if the failure count was even before it |
| AgyRunner.ThirdFailureLeavesProcess | internal/api/antigravity_cli.go:128-143 | a concrete run of three failing fetches whose last two leave a process |
| AgyRunner.WatchedExactly | internal/api/antigravity_cli.go:296-324 | the idle watchdog runs if and only if some fetch has succeeded and the root context has not been cancelled |
| AgyRunner.LaunchesAfterTeardown | internal/api/antigravity_cli.go:319-324 | once Stop has torn the session down a process is launched again if and only if a later fetch gets one started; where starts under the cancelled context are refused, no session ever lives again |
| AgyRunner.WarmSessionKept | internal/api/antigravity_cli.go:182-186 | successful fetches that find the session healthy launch and kill nothing |
| QuotaPools.GroupModelsByQuota | internal/api/antigravity_types.go:450-513 | one pool per signature in first-occurrence order, each built from all the models of that signature, none empty |
| QuotaPools.BuildPool | internal/api/antigravity_types.go:485-509 | labels in member order with the display-name fallback, quota values of the first member |
| QuotaPools.PoolExists | internal/api/antigravity_types.go:461-474 | every model's signature has exactly one pool, so two models share a pool if and only if their signatures agree |
| QuotaPools.MembersKeepOrder | internal/api/antigravity_types.go:474 | a group is the subsequence of the input with its signature, complete and in input order |
| QuotaPools.PoolsByFirstOccurrence | internal/api/antigravity_types.go:470-473 | a pool's signature first occurs after those of all earlier pools and before those of no earlier one |
| QuotaPools.CountsSum | internal/api/antigravity_types.go:461-475 | member counts sum to the input length |
| QuotaPools.SignatureParts | internal/api/antigravity_types.go:516-520 | signatures agree if and only if the rendered fractions and reset times both do |

## Left out

- HTTP, keychain, keyring, SQLite, JSON and file plumbing: foreign calls; their outcomes are parameters.
- ProtobufTheorems.CrashExactly: is about scanning from any position; whether the scan from position 0 reaches a given header depends on everything before it, which only the scan itself decides.
- Frames.ReadTrailerTexts: returns the trailer payloads; Trailers adds the fields and the status check, with trimming, lower-casing and number parsing as parameters.
- Billing.ParseResponse: reports the float32 bit pattern; widening it to float64 is exact and is not modelled.
- Int width: lengths of byte strings are below 2^63, as on the 64-bit platforms the program runs on.
- IngestRuns.ExactlyOnce: covers a file that is only appended to, without retention pruning; other files may be truncated, replaced or removed, and the cap has its own theorems.
- Ingest.IngestAgent.Scan: stops before the retention pruning at the end of the pass (lines 118-120), which deletes rows by age.
- ParseUsageEventLine and the fingerprint it computes are a parameter of the ingester, assumed only to give lines of different files different fingerprints; the whitespace trim is part of it.
- The text of invalid-line alerts, the warning logs and the file modification time are not modelled.
- AnthropicRuns.RunGood: external writers are assumed to write only newly issued pairs. A credential write may replace, keep or erase the pair read next, whatever it reports; keyring and file are not modelled as two stores, so a keyring that comes and goes between polls is left out.
- Reading and validating the statusline file is one sampled outcome; snapshots, tracker, notifications and the session report after a successful poll come after the modelled state.
- Sessions: finite readings are reals and infinities are left out; whether the database takes a NaN start value is part of the sampled outcome; session ids are row numbers.
- StarterPing.RingRefinesLog: needs a clock that does not run backwards, which Go's monotonic readings give; sending the ping is not modelled.
- CodexManager: the agent itself, its credential callbacks, the choice to start the default agent when no profile loads, and the bookkeeping of deleted database accounts are not modelled; a panic inside an agent skips its exit step and is excluded. Credential write-backs that touch a profile's recorded time count as directory changes.
- ZaiManager.RunSafe: a reload that races the first load of Run, which does not take the reload lock, is excluded; account ids are distinct, being the table's key.
- internal/agent/manager.go deletes its entry on exit without comparing instances (line 97), so the replacement theorem is about the Codex manager only.
- internal/agent/minimax_agent_manager.go repeats the Z.ai protocol and would add nothing.
- AgyRunner: killing also closes the pseudo-terminal; whether a launch is refused under the cancelled root context is up to the pseudo-terminal library and left to the world. A tick that falls due in the instant of cancellation is not modelled.
- QuotaPools: number and time formatting, label clean-up and pool naming are parameters.
- The simple polling agents, provider type mappers, dashboard, setup and GNOME extension are wiring and UI.
