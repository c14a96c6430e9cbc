# A model of the moirax-asm scan orchestrator

moirax-asm runs a ladder of container tools against the targets a written scope admits, merges what they find into one
asset list, and compares it with the last run. This project models the parts of it that decide something, and proves
what they promise:

- **Protection**: the per-module circuit breaker (`Breaker`, `BreakerTheorems`), the ramping and canary-driven load
  balancer (`LoadBalance`), the search-engine pool (`SearchForge`), the health-aware proxy pool (`ProxyPool`), the bot
  token pool (`TokenPool`), the container ceiling (`Ceiling`) and the budget tuner (`Selftune`).
- **One invocation**: the retry and fallback driver that composes breaker, ceiling and proxy pool (`Adapter`).
- **Results**: merging documents into assets (`Merge`, `MergeTheorems`, `MergeIncremental`), the diff of two snapshots
  (`Diff`), the digest of findings (`Digest`), the scope gate (`Scope`) and the recursion depths (`ReconDepth`).
- **Parsers and printers**: the DNS wire codec (`Dns`, sections 3.1 and 4.1 of RFC 1035), the line edits of YAML files
  the loader, and what it reads after an edit (`YamlEdit`, `YamlText`, `YamlLoad`, `YamlRead`, `YamlOverrides`), the `.env` file
  (`EnvFile`) and the filter query (`Filters`, sections 2.1 and 2.3 of RFC 3986).
- **Concurrency**: the stage ladder under an operator STOP (`EngineStop`) and the slot files of overlapping fleets
  (`Fleet`), both as steps that interleave in any order.

`Basics`, `Text`, `Lines` and `Arithmetic` hold the vocabulary the others share.

Objects whose methods change their fields are classes here, and loops are loops: each such method is proved equal to a
function of its inputs or of the old state, and the theorems are about those functions. Whole runs are sequences of calls
or of steps, so a theorem about a run holds for every one of them.

## Where the code and its documentation part

The model follows the code. These are the places where that decides what could be proved.

- Incremental merging equals batch merging exactly when every admitted host name is in normal form: the normalisation
  takes dots off the end but not a blank that stands before them, so it is not idempotent (`IncrementalIffNormal`); one
  document with such a name makes the difference (`OddMerge`).
- The ceiling's comment says that the budget is never exceeded. Each plan keeps to it, but the grants alive together keep
  to it exactly in the runs that never have two containers alive, since the first grant is the whole budget
  (`BudgetExactly`, `TwoOverlap`).
- An exit code of 0 can pause a module: with an earlier failure still in the window, the success that falls into the next
  window makes that window bad too (`SuccessMayPause`); `HarmlessExactly` says when a record does no harm.
- The state store's pause writer overwrites a stopped status (pipeline/state.py:230-242), and then nothing bounds the
  modules that begin after STOP (`NoBoundWithoutSticky`). The bound is proved for runs in which that does not happen.
- A selection is read back exactly from the blocks that offer a clean place, and there exactly for lists of at least one
  key that the loader takes for a text (`CleanExactly`, `SelectionReadsBack`). A second selection in the block hides the
  edited one (`TwoSelections`), and an emptied selection is read as none.
- Adding a selection in front of a comment makes the next, equal edit delete that comment (`RepeatedSelection`,
  `CommentVanishes`).
- `_upsert_subkey` cannot find the entries it means to update and always inserts above them, where the older entry wins on
  reading (`UpsertInserts`, `OverridesReadBack`, `OldValueStands`). A second set of overrides in the block hides the
  edited one (`OpenExactly`, `TwoSets`).
- Setting one key rewrites every other one after unquoting it, so a value in two kinds of quotes loses the inner ones
  (`SetKeyExactly`, `QuotedValue`). A single empty line is lost when no key is left (`NotesKept`, `BlankLost`).
- The job threads of one fleet run share a slot object, and any two threads that do can leave a slot file behind
  (`EmptiesExactly`).
- The search pool's notes promise a cooldown for a captcha page; `record` grants one for the codes 429 and 403 only.
- A slow canary never counts by itself: the latency test asks for an unanswered probe, and that is an error already.

## Model

| member | source | states |
|---|---|---|
| Merge.IterAssets | pipeline/merge.py:236-270 | The rows a tool document contributes, in order, equal the specification of what names a host in it. |
| Merge.WildcardIps | pipeline/merge.py:273-300 | Exactly the addresses that some document names as catch-all. |
| Merge.Stage.Ingest | pipeline/merge.py:187-233 | One document changes the buckets as folding its mentions one by one does. |
| Merge.Stage.AbsorbFields | pipeline/merge.py:207-233 | One row joins its fields into a bucket: first title, last status, alive in the order None < False < True, addresses and technologies in order of first mention. |
| Merge.Stage.SeedFromAssets | pipeline/merge.py:56-74 | Written assets become the buckets they were flushed from. |
| Merge.Stage.JudgeIps | pipeline/merge.py:303-320 | The quarantine verdict of a host's addresses: catch-all only, crowded, or none. |
| Merge.Stage.Flush | pipeline/merge.py:77-177 | The payload and the rejections are the specified function of the buckets, hosts in ascending order. |
| Merge.MergeBranches | pipeline/merge.py:17-33 | A batch merge is the flush of all documents of both branches. |
| Merge.AppendActiveDoc | pipeline/merge.py:36-53 | An incremental merge is the flush of the seeded assets with one more document. |
| MergeTheorems.FoldSummary | pipeline/merge.py:187-233 | After any sequence of rows a bucket's host, attribution, sources, tags, liveness and addresses are a summary of the set of rows about its host. |
| MergeTheorems.Confluence | pipeline/merge.py:17-33 | Permuting or repeating documents inside the branches leaves host set, attribution, sources, tags, liveness, address sets and quarantine verdicts unchanged. |
| MergeTheorems.IngestTwice | pipeline/merge.py:187-233 | Ingesting a document twice in a row is ingesting it once, whatever is already there. |
| MergeTheorems.Partition | pipeline/merge.py:77-137 | Every bucket host is written exactly once: as an asset, as quarantined or as a rejection. |
| MergeTheorems.Ascending | pipeline/merge.py:91-137 | Assets and quarantined hosts ascend strictly by host. |
| MergeIncremental.IncrementalWhenNormal | pipeline/merge.py:36-74 | With normal host names and no catch-all report, appending a document to the written list equals merging it in the batch, field by field. |
| MergeIncremental.IncrementalIffNormal | pipeline/merge.py:36-74 | That holds for every later document if and only if every admitted host name is in normal form. |
| MergeIncremental.OddHostLost | pipeline/merge.py:56-74 | A kept host whose name is not normal is missing from the re-merged list. |
| MergeIncremental.OddName | pipeline/merge.py:323-327 | A concrete name that the normalisation changes twice. |
| MergeIncremental.OddMerge | pipeline/merge.py:36-74 | One document that names such a host, and an empty one appended: the incremental and the batch merge differ. |
| MergeIncremental.ReflushIdentity | pipeline/merge.py:56-177 | Re-flushing the assets a flush wrote gives the same assets, whatever addresses were catch-alls at the first flush, when every kept host name is in normal form; hosts held back then are not written again. |
| Breaker.CircuitBreaker.constructor | pipeline/breaker.py:64-103 | Every module starts fresh, or paused when an earlier run persisted its pause. |
| Breaker.CircuitBreaker.Record | pipeline/breaker.py:185-204 | A record changes its own module's row only, and raises one notice exactly when it goes from running to paused. |
| Breaker.CircuitBreaker.EvaluateErrors | pipeline/breaker.py:206-238 | The error evaluation: one throttle per bad window, a streak of consecutive window ids, a pause when it is long enough. |
| Breaker.CircuitBreaker.EvaluateLatency | pipeline/breaker.py:240-269 | The latency evaluation: the first average is the baseline, a drift above it throttles once per window, and nothing pauses. |
| Breaker.CircuitBreaker.ForcePause | pipeline/breaker.py:105-111 | A forced pause pauses a running module with one notice and leaves a paused one alone. |
| Breaker.CircuitBreaker.ResetModule | pipeline/breaker.py:113-153 | A reset clears a pause and the streak, keeps throttle and events, and touches no other module. |
| Breaker.CircuitBreaker.ResetAll | pipeline/breaker.py:113-153 | Exactly the paused modules with a name are cleared; names that only the state file holds as paused get a fresh row, and every other row stays. |
| Breaker.CircuitBreaker.ApplyIntLimit | pipeline/breaker.py:174-183 | A limit is scaled by the throttle, truncated, and at least one. |
| Breaker.StepConsistent | pipeline/breaker.py:283-303 | Every call keeps `anomaly_sent == paused` and one notice per pause transition, for every module. |
| BreakerTheorems.RetainedEvents | pipeline/breaker.py:185-204 | The events a module keeps are exactly the window filter of all events it ever accepted. |
| BreakerTheorems.CounterIsStreak | pipeline/breaker.py:206-238 | After any run the counter is the length of the run of consecutive window ids with a bad evaluation and no healthy one in between. |
| BreakerTheorems.PauseExactly | pipeline/breaker.py:206-238 | A record raises a pause exactly when its evaluation is bad and the last `bad_windows` window ids are all bad since the last healthy evaluation. |
| BreakerTheorems.PauseAfterReset | pipeline/breaker.py:113-153 | After a reset that cleared a pause, a new one takes `bad_windows` consecutive windows that are all bad after the reset. |
| BreakerTheorems.ThrottleLaw | pipeline/breaker.py:240-281 | The throttle is divisor^-(E+L), E and L counting the distinct windows with an error-bad and a latency-bad evaluation. |
| LoadBalance.LoadBalancer.DoTick | pipeline/load_balance.py:63-79 | A tick takes at most one ramp step, runs the canary when due, and answers False exactly when the module is paused; in the breaker it moves its own module's row only, by the canary's records and its pause. |
| LoadBalance.LoadBalancer.Canary | pipeline/load_balance.py:81-160 | A bad canary lowers the rate and counts, enough of them in a row pause the module and force the breaker's pause behind the records of the canary's own runs, and a good one clears the count. |
| LoadBalance.RampBound | pipeline/load_balance.py:63-79 | In every run the rate is at most max(start, 1) + step * floor((now - t0) / interval). |
| LoadBalance.FactorInUnit | pipeline/breaker.py:271-281 | The breaker's factor lies in (0, 1] on every run. |
| LoadBalance.CurrentQpsBounds | pipeline/load_balance.py:57-61 | The live rate is at least one and at most max(1, cap). |
| LoadBalance.PausedExactly | pipeline/load_balance.py:141-160 | Paused means exactly that some canary completed a run of `bad_windows` bad ones. |
| LoadBalance.PausedForever | pipeline/load_balance.py:63-79 | Once paused, every later tick answers False. |
| EngineStop.AtMostThreeAfterStop | pipeline/engine.py:934-982 | In every interleaving in which no pause overwrites STOP, at most three module runners begin after it lands. |
| EngineStop.StagesFollowBranches | pipeline/engine.py:314-467 | MERGE begins only when both branches and the worker have ended, later stages keep the ladder order, and no branch module begins after them. |
| EngineStop.StoppedExitExactly | pipeline/engine.py:849-881 | The run exits with the stopped code if and only if STOP landed before the last check, and then no module row is left in progress. |
| EngineStop.FrozenAfterStop | pipeline/engine.py:1021-1124 | After STOP no step makes a module row running or done. |
| EngineStop.NoBoundWithoutSticky | pipeline/state.py:230-242 | With a pause persisted after STOP, for every n there is a run over different modules in which n of them begin after it. |
| Digest.ChunkDigest | pipeline/notify.py:671-695 | The loop over lines, size and count produces the greedy split. |
| Digest.DigestIsExact | pipeline/notify.py:671-695 | The bodies concatenate to the input lines in order; each has at most 20 lines and fits 3900 characters or holds a single line. |
| Digest.DigestIsOptimal | pipeline/notify.py:671-695 | No order-preserving split under the same caps and prefixes uses fewer messages. |
| Digest.EveryRowOnce | pipeline/notify.py:572-581 | Walking one side of a diff visits every row of every class exactly once. |
| Digest.UnruledAlerts | pipeline/notify.py:494-532 | A class without a rule alerts, whatever else is configured. |
| Digest.SelectAlerts | pipeline/notify.py:619-645 | The listed findings are exactly the alert-worthy rows, in the order of the walk. |
| Digest.MineAddresses | pipeline/notify.py:535-557 | The addresses that removed and changed rows tell of the earlier run. |
| Digest.NewAddressExactly | pipeline/notify.py:512-557 | Under a rule for new addresses an added host alerts if and only if it has an address and shares none with a removed or changed host. |
| Digest.AlertsListedOnce | pipeline/notify.py:612-695 | Every alert-worthy row of the diff is listed exactly once, in the bodies of the digest as among the single messages, and no other row is. |
| Digest.EvaluateDiffAlerts | pipeline/notify.py:590-668 | Below the threshold one message per alert-worthy row, from it on their digest, nothing on a first run; the ledger counts what was sent and delivered. |
| TokenPool.Sender.Send | pipeline/notify.py:258-289 | A send uses usable tokens in order until one is not refused; refused tokens are remembered, and all posts together number at most the sends plus the refusals. |
| TokenPool.DeliveredExactly | pipeline/notify.py:268-289 | A message is delivered if and only if some usable token delivers it and every usable one before it is refused. |
| Dns.EncodeQname | pipeline/fast_dns.py:22-31 | Every legal name, and no other, is encoded, as its labels followed by the root. |
| Dns.BuildQuery | pipeline/fast_dns.py:34-38 | A query is the rendered message of its header and its one question. |
| Dns.SkipName | pipeline/fast_dns.py:41-49 | Total on every buffer and offset, and equal to the recursive definition. |
| Dns.SkipLands | pipeline/fast_dns.py:41-49 | Over a name rendered at any offset of any buffer, with labels and a root or a pointer, it lands exactly behind it. |
| Dns.SkipReads | pipeline/fast_dns.py:41-49 | A skip that ends inside the buffer passed over a readable name. |
| Dns.DecodeInvertsEncode | pipeline/fast_dns.py:22-31 | Reading the labels of an encoded name at any offset gives them back. |
| Dns.QnameRoundTrip | pipeline/fast_dns.py:22-31 | An encoded query name decodes to the labels of the text. |
| Dns.QueryReadsBack | pipeline/fast_dns.py:34-38 | In a query a reader finds that name, type and class, and nothing behind them. |
| Dns.QueryNoResponse | pipeline/fast_dns.py:34-38 | A query, echoed back, never passes for a response. |
| Dns.ResponseHasA | pipeline/fast_dns.py:52-78 | Defined and terminating on arbitrary bytes. |
| Dns.ResponseExactly | pipeline/fast_dns.py:52-78 | On a rendered response: true if and only if the code is 0 or 3 and either it is 0 with some answer or some answer is of type 1 with four bytes. |
| Dns.AcceptsMessage | pipeline/fast_dns.py:66-78 | The same when the header announces more answers than follow, as long as an address record is among those that do. |
| Dns.AcceptsExactly | pipeline/fast_dns.py:52-78 | Arbitrary bytes are accepted if and only if they are such a response: nothing malformed passes. |
| ProxyPool.NewPool | pipeline/ip_rotation.py:123-133 | A pool of at least one entry, or the error. |
| ProxyPool.Pool.Seed | pipeline/ip_rotation.py:314-336 | Stored telemetry replaces that of the entries it names. |
| ProxyPool.Pool.Assign | pipeline/ip_rotation.py:135-157 | One ledger row per call, with the picked entry and the entries passed over, or the DIRECT row. |
| ProxyPool.Pool.Pick | pipeline/ip_rotation.py:159-183 | The pick, the entries passed over and the cursor. |
| ProxyPool.Pool.RecordOutcome | pipeline/ip_rotation.py:185-211 | Counts, failure run and the ring of 500 events stay functions of the whole outcome history. |
| ProxyPool.PickNearest | pipeline/ip_rotation.py:159-183 | The pick is the first healthy entry cyclically from the cursor, and the cursor's own entry if none is healthy. |
| ProxyPool.PicksArePermutation | pipeline/ip_rotation.py:159-183 | While the healthy set H is fixed and nonempty, as many consecutive picks as H has members are a permutation of H. |
| ProxyPool.HealthyIsPicked | pipeline/ip_rotation.py:159-183 | An entry that stays healthy is picked within one round, whatever happens to the others. |
| ProxyPool.PlainRoundRobin | pipeline/ip_rotation.py:159-183 | With all entries healthy, or none, the picks are a plain round robin. |
| ProxyPool.RemembersNext | pipeline/ip_rotation.py:185-211 | Each outcome keeps the stored counts and the ring equal to those of the full history. |
| ProxyPool.UnhealthyExactly | pipeline/ip_rotation.py:165-166 | In a pool without earlier telemetry an entry is skipped if and only if its newest `unhealthy_after` attempts all failed. |
| ProxyPool.HealthyShrinks | pipeline/ip_rotation.py:159-211 | One attempt at a time, the healthy set only loses the picked entry, at the failure that reaches the limit, until it is empty. |
| Ceiling.ResourceCeiling.Plan | pipeline/ceiling.py:124-128 | The largest count up to the one asked for that fits, or one. |
| Ceiling.ResourceCeiling.Acquire | pipeline/ceiling.py:130-139 | A grant is the share of one container more than run, or of the largest fitting count if that is less. |
| Ceiling.ResourceCeiling.Release | pipeline/ceiling.py:141-144 | One container less, and never less than none. |
| Ceiling.PlanWithinBudget | pipeline/ceiling.py:151-168 | count * memory is within the budget if and only if the budget is at least 1 MB; the processor shares add up to the whole. |
| Ceiling.LargestFitUnique | pipeline/ceiling.py:124-139 | There is one largest fitting count, so the loop's answer is determined. |
| Ceiling.BudgetExactly | pipeline/ceiling.py:130-144 | In any run, the live grants are within the budget at every moment if and only if no two containers are ever alive together. |
| Ceiling.TwoOverlap | pipeline/ceiling.py:130-139 | Two overlapping containers on 100 MB are granted 100 MB and 50 MB. |
| Adapter.Adapter.Once | pipeline/adapter.py:241-302 | One run: one grant acquired and released, one breaker record with what that exit code tells. |
| Adapter.Adapter.AttemptLoop | pipeline/adapter.py:185-239 | At most retries + 1 runs, none after a success and none on a paused module; the sleeps, the ledger rows 1..k or the one DIRECT row, and the telemetry, one entry per run. |
| Adapter.Adapter.Invoke | pipeline/adapter.py:123-183 | At most 2 * (retries + 1) runs over tool and fallback, the fallback under its own breaker key; stop, pause and unknown tool run nothing; the result is that of the last loop. |
| Adapter.BackoffTotal | pipeline/adapter.py:235-237 | f slept failures sleep base * (2^f - 1) in all. |
| Adapter.QuietModule | pipeline/adapter.py:270-279 | A module that only ever saw non-probe runs with the codes 0, 124 and 130 is never throttled or paused. |
| Adapter.QuietRuns | pipeline/adapter.py:270-279 | Such runs tell the breaker neither an error nor a latency. |
| Adapter.SuccessMayPause | pipeline/adapter.py:270-279 | Behind an earlier failure an exit code of 0 can raise the pause: a concrete history. |
| Adapter.HarmlessExactly | pipeline/breaker.py:185-269 | A record leaves throttle and pause alone if and only if the events then in the window show neither too many errors nor a drift not yet answered in that window. |
| Adapter.AloneGetsAll | pipeline/adapter.py:251-262 | With no other container running every run gets the whole memory budget. |
| Fleet.LiveWithinLimit | pipeline/fleet.py:209-238 | In every interleaving, however objects are shared: live members <= slot files <= limit. |
| Fleet.PrivateObjects | pipeline/fleet.py:209-238 | With one object per thread, files and holders are in bijection at every moment, nothing crashes, and the directory ends empty. |
| Fleet.LeakBegins | pipeline/fleet.py:265-296 | Two threads on one object: an interleaving that ends with a slot file nobody holds. |
| Fleet.EmptiesExactly | pipeline/fleet.py:209-296 | Every complete run ends with an empty directory if and only if no two threads share an object. |
| YamlEdit.PatchFile | dashboard/service.py:496-528 | The located block is replaced and every other line kept, or the error. |
| YamlEdit.PatchBlock | dashboard/service.py:1286-1306 | The edit of one block. |
| YamlEdit.UpsertSubkey | dashboard/service.py:540-563 | The upsert of one override. |
| YamlEdit.PatchSplices | dashboard/service.py:496-563 | A patch changes lines of its own block only, keeps its header, and every line it writes belongs inside a block. |
| YamlEdit.OthersKept | dashboard/service.py:496-528 | Every other block stands unchanged after an edit, and is found again. |
| YamlEdit.EditsCommute | dashboard/service.py:496-563 | Edits of two different tools, or tasks, give identical lines in either order. |
| YamlEdit.EditsFailAlone | dashboard/service.py:513-537 | An edit fails behind another one if and only if it fails alone. |
| YamlText.PatchFileText | dashboard/service.py:1272-1306 | The edit of a text: split into lines, patched, joined. |
| YamlText.TextEditsCommute | dashboard/service.py:496-510 | Edits of different blocks commute to the identical text. |
| YamlLoad.MapThen | pipeline/yaml_util.py:37-61 | A mapping read from two parts in a row is the first part read on into the second, unless the first breaks off; what is nested in it does not look beyond. |
| YamlLoad.MapOnto | pipeline/yaml_util.py:37-61 | Entries read later are put over those read before, whatever these are. |
| YamlLoad.ValueBehind | pipeline/yaml_util.py:37-61 | The value of a key is that of its last entry, unless the mapping is broken off before. |
| YamlRead.ItemReadsBack | pipeline/yaml_util.py:64-119 | A list item is read as the text of its key if and only if the key is literal: shown as it is, no mapping, and no number, word or quoted text to the loader. |
| YamlRead.SelectionReadsBack | dashboard/service.py:1272-1306 | In a block with a clean place the next run loads exactly the given keys after the edit, if and only if there is one at least and all are literal. |
| YamlRead.CleanExactly | dashboard/service.py:1286-1306 | A block offers a clean place if and only if every selection of literal keys is read back from it: mappings in front and behind, no second selection behind, nothing else on the selection line. |
| YamlRead.FileReadsBack | dashboard/service.py:1272-1306 | The same for a file: the task is found again behind the edit, and its block reads as the new selection. |
| YamlRead.TwoSelections | dashboard/service.py:1286-1306 | A block with two selections: the edit changes the first, and the next run still loads the second. |
| YamlRead.RepeatedSelection | dashboard/service.py:1286-1306 | Repeating the edit changes nothing, if and only if no key is blank and, where the selection had to be added, the line it was put in front of ends a list. |
| YamlRead.CommentVanishes | dashboard/service.py:1286-1306 | A comment behind the header is deleted by the same edit done twice: a concrete block. |
| YamlOverrides.UpsertInserts | dashboard/service.py:540-563 | The upsert never updates: whatever the block holds, it inserts a line. |
| YamlOverrides.UpsertReads | dashboard/service.py:540-563 | After an upsert into an open block a standing entry keeps its value, the new key reads as its text means to the loader, and no other key is there. |
| YamlOverrides.OpenExactly | dashboard/service.py:540-563 | An upsert of a key is read back whatever the value, if and only if the block is open (mappings in front and behind, no second set of overrides behind, nothing else on the header line, nothing deeper in front of the entries) and the key does not stand in it. |
| YamlOverrides.StandingLoads | pipeline/yaml_util.py:37-61 | In an open block with a header, the entries that stand are those the next run loads. |
| YamlOverrides.MeantExactly | pipeline/yaml_util.py:97-119 | A value is read as the text it is if and only if it is plain and no number, word or quoted text to the loader. |
| YamlOverrides.OverridesReadBack | dashboard/service.py:496-510 | A whole edit of an open block reads back in full if and only if no edited key already stood with another value. |
| YamlOverrides.FileOverrides | dashboard/service.py:496-510 | The same for a file: the tool is found again behind the edit, and its block reads as edited. |
| YamlOverrides.OldValueStands | dashboard/service.py:540-563 | An existing override keeps its old value: a concrete block. |
| YamlOverrides.TwoSets | dashboard/service.py:540-563 | A block with two sets of overrides: a new key goes to the first, and the next run does not load it. |
| EnvFile.ReadEnv | dashboard/service.py:81-95 | The map of the assignments, the last of several winning. |
| EnvFile.WriteEnv | dashboard/service.py:105-131 | Known assignments rewritten in place, others dropped, new keys added in order. |
| EnvFile.SetKey | dashboard/service.py:144-153 | A registered key with a value that says something is set, and nothing else is accepted. |
| EnvFile.DeleteKey | dashboard/service.py:156-163 | A registered key is removed, and a file without it stays as it is. |
| EnvFile.WrittenReads | dashboard/service.py:81-131 | What is read after writing is every value unquoted once more, even with duplicate keys in the old file. |
| EnvFile.RoundTripExactly | dashboard/service.py:81-131 | Reading after writing gives the environment back if and only if its keys and values are clean. |
| EnvFile.SetKeyExactly | dashboard/service.py:144-153 | Setting a key keeps all others if and only if the new pair and every other value are clean. |
| EnvFile.DeleteKeyExactly | dashboard/service.py:156-163 | Deleting a key keeps all others if and only if every other value is clean. |
| EnvFile.QuotedValue | dashboard/service.py:94-95 | A value in two kinds of quotes is read, and changes when it is read again: a concrete line. |
| EnvFile.NotesKept | dashboard/service.py:105-131 | Comments and blank lines keep their text and order, unless the environment is empty and a single empty line is all there is to keep. |
| EnvFile.BlankLost | dashboard/service.py:105-131 | Deleting the only key of a file loses the blank line behind it: a concrete file. |
| Filters.SerializeFilters | dashboard/service.py:1408-1410 | The pairs of the filters with a value, sorted by key. |
| Filters.ParseQuery | dashboard/service.py:1413-1421 | The settings of the chunks with an allowed key, the last of several winning. |
| Filters.QuoteBack | dashboard/service.py:1408-1421 | Percent coding loses no byte. |
| Filters.RoundTripExactly | dashboard/service.py:1408-1421 | Parsing what was serialized gives the filters back if and only if every key is allowed and every value says something. |
| SearchForge.Forge.Healthy | pipeline/search_forge.py:149-158 | Expired cooldowns end, and exactly the active engines are listed, in order of priority. |
| SearchForge.Forge.Pick | pipeline/search_forge.py:160-162 | The first active engine after that, or none. |
| SearchForge.Forge.Record | pipeline/search_forge.py:172-203 | What an answer does to its engine and to the statistics. |
| SearchForge.Forge.Pace | pipeline/search_forge.py:205-211 | A request is at least the interval behind the last one. |
| SearchForge.Forge.NextKey | pipeline/search_forge.py:164-170 | The keys are handed out in turn. |
| SearchForge.Forge.CacheGet | pipeline/search_forge.py:214-222 | A cached answer until it expires, and then it is forgotten. |
| SearchForge.Forge.CachePut | pipeline/search_forge.py:224-225 | An answer is kept for the time to live. |
| SearchForge.RecordTallied | pipeline/search_forge.py:172-203 | The statistics stay true counts through a record if and only if it is not a block on an isolated engine. |
| SearchForge.IsolationEnds | pipeline/search_forge.py:182-203 | Only a block can end an isolation. |
| SearchForge.BackoffBounds | pipeline/search_forge.py:184-191 | The k-th block backs off for between b and 1.25 b, b = min(base * 2^(k-1), max). |
| SearchForge.StatsAreCounts | pipeline/search_forge.py:149-203 | Recording on the engine just picked, the statistics equal the sum of levels, the isolated and the used engines after any run. |
| SearchForge.RestingUntouched | pipeline/search_forge.py:149-203 | An isolated engine is never picked again, and a cooling one not before its time; neither changes. |
| SearchForge.LevelIsBlocks | pipeline/search_forge.py:182-191 | The cooldown level is the number of blocks. |
| SearchForge.RequestsSpaced | pipeline/search_forge.py:205-211 | In any run, two requests to one engine are at least 60/rate seconds apart. |
| SearchForge.HandedInTurn | pipeline/search_forge.py:164-170 | The keys handed out in a run are consecutive turns of the rotation. |
| SearchForge.KeysEven | pipeline/search_forge.py:164-170 | In any run the counts of hand-outs of two keys of an engine differ by at most one. |
| Diff.Extract | pipeline/history.py:133-182 | For every class the map holds exactly the last kept row of each key, under the key its own fields make. |
| Diff.IndexedExactly | pipeline/history.py:133-182 | Assigning rows in turn keeps, under every key, the last one. |
| Diff.DiffClass | pipeline/history.py:96-107 | The added, removed and changed rows of one class, in order. |
| Diff.DiffPatches | pipeline/history.py:78-108 | Applied to the older map the diff gives the newer one. |
| Diff.NewerSplit | pipeline/history.py:78-108 | Every newer row is added, changed or unchanged, exactly once. |
| Diff.RemovedKeys | pipeline/history.py:105-107 | The removed rows are exactly those under keys of the older map alone. |
| Diff.SwapSwaps | pipeline/history.py:78-108 | Swapping the snapshots swaps added with removed and before with after. |
| Diff.EmptyExactly | pipeline/history.py:78-108 | The diff is empty if and only if both maps hold the same rows under the same keys. |
| Selftune.Tuner.Update | pipeline/selftune.py:109-192 | The next run's multipliers, streak and ledger. |
| Selftune.AlwaysInRange | pipeline/selftune.py:52-55 | From the fresh state both multipliers stay between 1 and the maximum, whatever the runs showed. |
| Selftune.FailuresDoNotMatter | pipeline/selftune.py:120-158 | Histories that differ in module failures only give the same multipliers. |
| Selftune.LedgerIsNewest | pipeline/selftune.py:165-176 | The ledger is the newest `cap` rows; 0 keeps all of them and a negative cap none. |
| Selftune.CleanRunsSettle | pipeline/selftune.py:144-154 | Where a decay step loses half a unit, an explicit number of clean runs brings both multipliers to exactly 1.0. |
| Selftune.SettlesExactly | pipeline/selftune.py:144-154 | Clean runs lead back to 1.0 from every state if and only if 20002 * (1 - decay) >= 1. |
| Selftune.BudgetNeverShrinks | pipeline/selftune.py:81-106 | A multiplier of at least 1 never shrinks a base budget of whole cents. |
| Scope.SuffixIsLabelTail | pipeline/scope.py:220-224 | Being a base or ending with a dot and the base is having its labels as last labels, for all strings. |
| Scope.AddressExactly | pipeline/scope.py:82-97 | An address is accepted if and only if no exclude contains it and some include does; private ranges choose the reason only. |
| Scope.HostExactly | pipeline/scope.py:99-107 | A host is accepted if and only if no exclude covers it and some include does; cloud suffixes choose the reason only. |
| Scope.AcceptedExactly | pipeline/scope.py:66-80 | The same for any candidate: URL, address or name. |
| ReconDepth.DepthAdds | pipeline/recon_depth.py:67-84 | Along a chain of names depth adds up if and only if no empty label meets the joint. |
| ReconDepth.FuzzDepth | pipeline/recon_depth.py:67-84 | A word in front of a parent is one level deeper, or no child when the parent begins with a dot. |
| ReconDepth.VhostDrivenParents | pipeline/recon_depth.py:146-185 | The eligible names, each once, in order of first mention, cut at the cap. |
| ReconDepth.ParentsExactly | pipeline/recon_depth.py:146-185 | Before the cap exactly the eligible names, without repetition. |
| ReconDepth.FuzzWithinLimit | pipeline/recon_depth.py:146-185 | Fuzzing under any returned parent stays within the depth limit. |
| ReconDepth.RecursionParents | pipeline/recon_depth.py:87-116 | The resolved hosts of the level above that are no catch-alls, sorted, cut at the cap. |
| ReconDepth.LevelExactly | pipeline/recon_depth.py:87-116 | Every such parent lies one level up, so fuzzing under it lands on the level. |
| ReconDepth.VhostBases | pipeline/recon_depth.py:119-143 | The apex and the names above the depth limit, each once. |
| ReconDepth.BasesWithinLimit | pipeline/recon_depth.py:119-143 | Fuzzing under any base stays within the vhost depth. |
| ReconDepth.RateSplit | pipeline/recon_depth.py:55-64 | workers * job_qps <= current_qps if and only if current_qps >= 1. |

## Left out

- Docker, subprocesses, sockets, HTTP, sqlite, the dashboard's routes, file atomicity and report rendering: runners, senders and probes are parameters or nondeterministic values.
- Text is ASCII, or one character per UTF-8 byte in `Filters`: Unicode case folding, line separators and names are not modelled.
- Floating point: ratios, rates, times and multipliers are exact; the four-decimal multiplier is a whole number of 0.0001 with half-to-even rounding.
- The type noise of parsed JSON and YAML (a number where a string is meant, a row that is no mapping): rows are typed.
- The clock is given with each call and, where a theorem needs it, never runs back; the breaker's divisor is not zero and its window is not negative.
- Adapter.Adapter.Invoke: one invocation at a time; other threads' records between its own are not modelled, assembling arguments and the docker command line is assumed not to raise, and pool entries are not empty, as the pool parser leaves them.
- EngineStop: the state file is one atomic register, so lost updates between its readers and writers are not modelled; a STOP that lands before the run has written its fresh state is overwritten by it and is not a STOP of that run; the branches that run tools from configuration lists are left out, as they use the same checks.
- Fleet: creating a file is one atomic step and only an existing file refuses it; a member process that outlives its thread is not modelled.
- Ceiling: free memory is whatever the host tells at each count tried; how budget and floors are fitted to the host at start is left out.
- ProxyPool.Pool.Seed: which stored rows name a pool entry is decided by masking credentials, which is not modelled.
- SearchForge.StatsAreCounts: for runs that record only on the engine just picked, as one thread of the dork loop does; with several threads a block can reach an engine that another one isolated, and RecordTallied and IsolationEnds say what that does.
- YamlRead: one block of a file is read, as a mapping of indent four, which is the form the editor writes; a block whose own lines stand at three blanks counts as unread. The file's other blocks are not read: one that the loader refuses, or that repeats a name, where the editor takes the first and the loader the last, is not considered. The number a text denotes is not computed.
- YamlOverrides.OpenExactly: its converse half is for blocks that no line between the header and the entries indents with a tab; tabs are blanks to the editor and text to the loader.
- The settings patch of single lines, and the merge of dashboard settings, would only add easy members.
- Diff.Extract: the rows that the live workspace adds before a merge, and the dropping of catch-all hosts there, are not part of this model.
- Scope: reading addresses, networks and URLs is the standard library's work and enters as parameters; an exception it raises on a malformed URL is not modelled.
- Selftune.BudgetNeverShrinks: a base budget with parts of a cent is first rounded to cents, and may lose up to half of one.
- Selftune: an exception inside the update leaves the state alone; that path is not modelled.
- Password hashing, caches by modification time, attribution, reporting and the port pacer are left out; the port pacer repeats the load balancer without its lasting pause.
