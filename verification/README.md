# phoenix-feed: a verified model

phoenix-feed polls a public fire-dispatch map server, keeps one row per incident
with the history of its units and its events, and clears an incident when enough
successful polls have missed it. Beside that feed, recordings of radio dispatches
are transcribed elsewhere, uploaded, parsed, geocoded and promoted to incidents of
a second source, `sdr_audio`, in the same tables.

This project models both halves and proves what they guarantee in every state they
can reach: after any sequence of polls, after polls that failed half-way, and under
every interleaving of ingester, workers, uploaders and janitor.
`dafny verify dfyconfig.toml` checks the whole project.

## How the model is built

- `Types`, `Tables`: the values, the four shared tables, and each SQL statement as a
  function from tables to tables. `Deltas`: the diff of two snapshots, computed by
  loops over maps in an arbitrary order, and its replay.
- `Lifecycle`: one call of `Manager.Apply` is a numbered list of statements; a fault
  names the statement that reports an error, whether it took effect all the same, and
  whether the attempt to mark the poll failed got through. `Run` folds any list of
  such attempts. Times and poll ids strictly increase per source and one ingester
  serves a source; both are how the program is deployed.
- `Clearing`, `Journal`, `RunLength`, `History`, `Authority`: what holds in every
  state of every run, partly applied polls included.
- `Feed`, `Pipeline`: the map-server client that decides which snapshots count, as a
  class with its mutable fields, and the client composed with the lifecycle. `Health`:
  these two composed with the status page.
- `Stores`: the store and the lifecycle manager as classes over flat tables changed
  row by row, with loops and early exits, each method proved against the statement or
  the run it stands for.
- `SharedTables`, `Interleaving`: several sources' statements on one database, and the
  proof that each source's rows are those of its own run, so that everything proved of
  `Lifecycle.Run` holds on the shared tables.
- `Dispatch`: transcripts, claims, requests, uploader records and shared tables as one
  state machine; a step that is not possible in a state does nothing. `ExactlyOnce`,
  `Promotions`, `Settling`, `Uploads`, `Draining`, `Separation`: its theorems. `Workers`,
  `Uploaders`: the worker and the uploader as classes, tied to the machine's steps.
  `Passes`: the uploader's passes over one directory, any number of them.
- `Text`, `ParseUnits`, `Natures`, `KnownNatures`, `GeocodeCache`, `SourceStatus`: the
  unit-string parser, the nature matcher with its table, the caching geocoder as a class
  and as a machine in which the calls of several workers overlap, and the failure streak
  with the health classifier.

## Where the code and its prose differ

- docs/architecture.md:75 and the comments of the lifecycle integration test say an
  incident is cleared by its N-th miss. The sweep runs before the poll under way is
  marked succeeded, so that poll is not counted and the clear comes with miss N+1
  (`Clearing.ClearedExactly`, `Clearing.ClearedOnMissNPlusOne`).
- Cleared and reopened events alternate exactly as long as no fault strikes between a
  sweep and the recording of its events (`Journal.AlternationIff`); for every N there is
  a run that loses a clear so (`Journal.LostClearHappens`).
- A snapshot that lists a new unit twice opens two rows for one run
  (`RunLength.DuplicateSplitsRun`); the exact condition is `RunLength.RowsEncodeIff`.
- A coordinate that moves by at most 0.000001 between polls gets no event, and each move
  is measured against the last snapshot rather than the last event. A reader of the
  events can therefore be off by that much for every poll, and is off by all of it for an
  incident that creeps (`History.EventsReplayToSnapshot`, `History.CreepIsNotShown`).
- The uploader looks a file up under the name derived from its path but records it under
  the payload's name. From the pass on whose number is the size of the directory, each
  pass sends exactly the files within reach whose own name no file puts on record
  (`Passes.SentForeverIff`). A renamed file alone is sent in every pass; a batch of them
  keeps every later file from being sent although the server stores them all
  (`Passes.RenamedFilesStarve`, `Passes.OneRenamedFileStarves`). Two names that differ do
  not suffice: another file may be recorded under the name (`Passes.RenamedYetSettled`).
- For the same reason a recording can be on record as uploaded while the server has
  another's text under its name. That can happen if and only if a file of another content
  names it (`Uploads.NeverLostIff`), and the recording need not have been sent at all
  (`Uploads.NamesakeIsShutOut`).
- The uploader files a 409 as an upload. The server never sends one; if something in
  between did, the record could stand for no row (`Uploads.ReplyKeepsTruthIff`).
- Workers share the geocode cache without a lock between lookup and store, so two of them
  can ask the provider for one address at once (`GeocodeCache.OverlappingCallsBothAsk`);
  the exact condition is `GeocodeCache.AsksProviderIff`.

## Model

| member | source | states |
|---|---|---|
| Deltas.UnitsByName | internal/store/delta.go:65-74 | the loop builds the map from name to the last unit listed under it, blank names skipped |
| Deltas.DiffUnits | internal/store/delta.go:36-63 | in every order the two map iterations may take, the delta holds exactly the added, removed and re-statused units |
| Deltas.BuildIncidentDelta | internal/store/incident_history.go:235-249 | unit, text and coordinate changes against the prior snapshot, or against nothing for a new incident |
| Deltas.DeltaReplaysUnits | internal/store/delta.go:36-63 | replaying any emission order of a delta on the older statuses gives the newer ones |
| Deltas.DeltaUndoesUnits | internal/store/delta.go:36-63 | a delta read backwards leads from the newer statuses to the older ones, whatever order it was emitted in |
| Deltas.DeltaListsUnits | internal/store/delta.go:36-63 | added units stand in the newer listing, removed ones in the older, and each change starts from the older status |
| Deltas.FieldDiffsReplay | internal/store/delta.go:76-86 | replaying the changes gives the new texts and each coordinate that moved beyond the tolerance, and there are none exactly if no text changed and no coordinate moved so far |
| Deltas.FieldDiffsUndo | internal/store/delta.go:76-86 | the column changes read backwards lead from the newer texts to the older ones, and the position as far as it moved |
| Deltas.AppendFloatFieldChange | internal/store/delta.go:82-86 | a coordinate change is appended exactly if it exceeds 0.000001, with both values to six decimals |
| Deltas.EmptyDeltaIffUnchanged | internal/store/delta.go:29-34 | a delta is empty exactly if names, statuses and texts are unchanged and neither coordinate moved beyond the tolerance |
| Tables.Latest | internal/store/incident_history.go:155-205 | the row picked to extend has the greatest last_observed_at and among those the greatest id |
| Lifecycle.AfterKeepsInv | internal/lifecycle/lifecycle.go:36-99 | after every statement of a poll: clearing columns consistent with the poll log, observed rows seen now, absent rows missing |
| Lifecycle.ApplyKeepsInv | internal/lifecycle/lifecycle.go:36-106 | a poll that succeeds, stops anywhere or is not authoritative keeps the invariant |
| Lifecycle.RunInv | internal/lifecycle/lifecycle.go:36-106 | the invariant holds after every run under any faults |
| Clearing.SweepCountIsMissRun | internal/store/store.go:848-883 | in every state while a poll is applied, the sweep's count over the log is the number of succeeded polls in a row that missed the incident |
| Clearing.LogCountIsMissRun | internal/store/store.go:834-883 | the same between polls |
| Clearing.ClearedExactly | internal/lifecycle/lifecycle.go:52-90 | a poll's sweep clears an incident if and only if it is active, not listed, and n succeeded polls in a row had already missed it; dated to the first miss |
| Clearing.NeverClearedEarly | internal/store/store.go:848-883 | under any faults a cleared incident has been missed by at least n succeeded polls in a row |
| Clearing.ClearedOnMissNPlusOne | internal/lifecycle/lifecycle.go:74-90 | without faults an incident is cleared exactly from its (n+1)-th authoritative miss on |
| Journal.EventGrammar | internal/store/incident_history.go:220-273 | in every reachable state: created first and once, a reopening between any two clears, reopen_count counts reopenings, times never go back |
| Journal.ReadInOrderWritten | internal/store/store.go:794-799 | sorting an incident's events by time and id gives insertion order although clears are backdated |
| Journal.EventsNameTheirPolls | internal/store/incident_history.go:220-273 | every event on record names the poll that wrote it: one whose sweep cleared the incident, or one that listed it, with its time; an update has a change to tell |
| Journal.ClearingColumns | internal/store/store.go:834-865 | cleared_at is null or equals missing_since, which is later than last_seen_at |
| Journal.AlternationIff | internal/lifecycle/lifecycle.go:74-90 | clears and reopenings alternate and agree with the row if and only if no fault fell between a sweep of the incident and its event |
| Journal.LostClearHappens | internal/lifecycle/lifecycle.go:74-90 | for every n a run whose sweep is not recorded: the log goes from created to reopened without a clear |
| Journal.FaultFreeLosesNothing | internal/lifecycle/lifecycle.go:36-99 | a run without faults never loses a cleared event |
| RunLength.EncodingIsMaximalRuns | internal/store/incident_history.go:155-205 | the reference encoding lists exactly the maximal runs of one status, in order, with first and last times and poll ids |
| RunLength.RowsEncodeIff | internal/store/incident_history.go:155-205 | the incremental rows equal that encoding if and only if every snapshot fits: clean for the unit, or a second upsert by the same poll that repeats the old status and changes it once |
| RunLength.DistinctNamesEncode | internal/store/incident_history.go:155-205 | with distinct names per snapshot the rows are the maximal runs |
| RunLength.DuplicateSplitsRun | internal/store/incident_history.go:155-205 | a new unit listed twice gets two rows where the encoding has one |
| RunLength.SameInstantHidesMixing | internal/store/incident_history.go:155-205 | a poll that lists the incident twice can mix two statuses in the second listing and still leave the encoding |
| History.UnitRowsAreMaximalRuns | internal/store/incident_history.go:155-218 | in every reachable state a unit's rows are the maximal runs over all upserts of its incident; absences and clears split nothing |
| History.UnitRowsEncodeIff | internal/store/incident_history.go:155-218 | the same as an if-and-only-if for all snapshots: repeated names, and polls that list an incident twice |
| History.EventsReplayToSnapshot | internal/store/incident_history.go:220-249 | in every reachable state, folding an incident's stored deltas in any emission order yields the snapshot's statuses and texts, and its position up to the tolerance for each later upsert |
| History.RowIsLastListing | internal/store/incident_history.go:104-153 | after every run an incident's row shows texts, units, position, date, time and poll of its last listing by the last poll that got to upsert it |
| History.CreepIsNotShown | internal/store/delta.go:82-86 | for every m a run of m+1 polls moves an incident by m tolerances and no event tells of it |
| Authority.OnlyAuthorityMatters | internal/lifecycle/lifecycle.go:36-50 | dropping every non-authoritative poll leaves incidents, unit rows and events the same up to poll ids, faults included |
| Feed.Client.RequiresCountConfirmation | internal/source/phxfire/phxfire.go:237-248 | empty or collapsed against the last authoritative count, in integer percent |
| Feed.Client.ClassifyPayloadHistory | internal/source/phxfire/phxfire.go:291-322 | the run of identical payloads is counted in the fields and a frozen one degraded |
| Feed.Client.Poll | internal/source/phxfire/phxfire.go:168-235 | every branch from transport error to frozen payload, with its effect on the fields |
| Feed.FailureIff | internal/source/phxfire/phxfire.go:168-219 | a poll is a failure with an error, without incidents and without trace in the memory, exactly if the request, the body, the status or the envelope went wrong |
| Feed.FailureReason | internal/source/phxfire/phxfire.go:168-216 | the reason tells a rejected envelope from a request that went wrong |
| Feed.PollCarries | internal/source/phxfire/phxfire.go:168-209 | every result tells its start, its source, and the status and payload hash as far as the request got |
| Feed.AuthoritativeIff | internal/source/phxfire/phxfire.go:213-322 | a poll of a lifetime is authoritative exactly if it brings the whole feed, corroborated if small, and not the frozenRepeatCount-th equal payload in a row |
| Feed.DegradedIff | internal/source/phxfire/phxfire.go:213-322 | any other poll that brings a snapshot is degraded, and each reason is given exactly in its case |
| Feed.MemoryTracksRun | internal/source/phxfire/phxfire.go:291-322 | repeatedPayloads and unchangedSince are the length and the start of the current run of identical vouched-for non-empty payloads |
| Feed.CountIsLastAuthoritative | internal/source/phxfire/phxfire.go:298-321 | lastAuthoritativeCount is the size of the last authoritative snapshot of the client's lifetime |
| Feed.AuthoritativeIsCorroborated | internal/source/phxfire/phxfire.go:221-248 | an authoritative poll kept most of the last snapshot or was matched by an independent count |
| Pipeline.RunAuthority | internal/source/phxfire/phxfire.go:291-322 | one run of identical payloads brings at most frozenRepeatCount - 1 authoritative polls |
| Pipeline.FrozenFeedCannotClear | internal/lifecycle/lifecycle.go:36-50 | if frozenRepeatCount - 1 is at most n, whatever a poll inside such a run clears was first missed before the run |
| Pipeline.FrozenFeedClearsIff | internal/source/phxfire/phxfire.go:291-322 | a freeze clears an incident seen just before it if and only if it brings n+1 polls before being called frozen |
| Pipeline.LifetimeContinues | internal/source/phxfire/phxfire.go:168-235 | a client lifetime is its beginning continued from the memory it left |
| Pipeline.SuccessesAreAuthoritative | internal/store/store.go:848-883 | successes on record never outnumber authoritative polls |
| Pipeline.CountedPollsAreCorroborated | internal/source/phxfire/phxfire.go:221-248 | every success on record from a lifetime, and so every poll counted toward a clear, was corroborated |
| Health.OutageRaisesStreak | internal/store/store.go:616-647 | whatever came before, k failed fetches in a row raise the failure streak by k |
| Health.OutageShows | internal/api/source_status.go:33-78 | after a failed fetch the status is not healthy, and it is down once the failures reach the threshold |
| Health.HealthyAfterGoodPoll | internal/api/source_status.go:33-78 | after a whole, corroborated, fresh snapshot that was applied: healthy until the first threshold has passed, down exactly from the second |
| Health.FrozenFeedShows | internal/api/source_status.go:33-78 | while the feed is frozen the status says so, and it is down exactly once the run of equal payloads or the last success is old enough |
| Health.LatestIsEvidence | internal/store/store.go:616-645 | the latest row's note, or without one its success flag, is what the status is computed from |
| Health.PromotionShowsHealthy | internal/store/store.go:616-647 | a promotion's poll row makes the second source healthy until the first threshold has passed |
| Stores.Store.RecordPollPending | internal/store/store.go:259-291 | inserts the pending row, or reports an error with or without having done so |
| Stores.Store.MarkPollSucceeded | internal/store/store.go:293-300 | the loop sets the outcome of exactly the rows with that id |
| Stores.Store.MarkPollFailed | internal/store/store.go:302-309 | likewise with the error text |
| Stores.Store.UpsertIncidentSnapshot | internal/store/incident_history.go:104-153 | inserts or overwrites the row, resets the clearing columns, counts a reopening |
| Stores.Store.SyncUnitHistory | internal/store/incident_history.go:155-205 | the loop over flat unit rows does what the statement does on each unit's own rows |
| Stores.Store.WriteUpsertEvent | internal/store/incident_history.go:220-233 | the event written, if any, stores the delta the statement stands for |
| Stores.Store.UpsertIncident | internal/store/incident_history.go:33-59 | the transaction is the whole upsert or nothing, whatever it reports |
| Stores.Store.MarkMissing | internal/store/store.go:834-843 | the row loop sets missing_since on exactly the absent, uncleared rows without one |
| Stores.Store.SweepCleared | internal/store/store.go:848-883 | the row loop clears exactly the sweepable rows and returns each once |
| Stores.Store.RecordClearedEvents | internal/store/incident_history.go:252-273 | one cleared event per returned incident, and no other |
| Stores.Manager.Apply | internal/lifecycle/lifecycle.go:36-99 | loops, early exits and failure marking leave exactly the tables of the specification, and an error is returned exactly if the call stopped |
| Stores.Manager.FailPollApply | internal/lifecycle/lifecycle.go:101-106 | marks the poll failed when that statement gets through |
| Stores.LatestRowIsLatest | internal/store/incident_history.go:155-205 | the latest row found in the flat table is the latest of the unit's own rows |
| SharedTables.StatementHere | internal/store/store.go:834-883 | a statement does to its source's rows on the shared tables what it does to those rows alone, and reads the same |
| SharedTables.StatementElsewhere | internal/store/retention.go:37-54 | a statement leaves every other source's rows alone |
| SharedTables.SourcesDoNotInterfere | internal/dispatch/parser/worker.go:309-339 | in every interleaving a source's rows are those its own statements produce on an empty database |
| Interleaving.ApplyIsStatements | internal/lifecycle/lifecycle.go:36-106 | one call of Apply under any fault is the statements it gets through |
| Interleaving.RunIsTrace | internal/lifecycle/lifecycle.go:36-106 | a run is the statements of its calls |
| Interleaving.IngesterRunsAsIfAlone | internal/lifecycle/lifecycle.go:36-106 | whatever else is interleaved, the ingester's source has the rows of its own run |
| Interleaving.SharedSweepIsExact | internal/store/store.go:848-883 | the exact clearing rule on the shared tables |
| Dispatch.SdrKeyIsInjective | internal/dispatch/parser/worker.go:303 | distinct transcripts have distinct incident keys |
| ExactlyOnce.TableAlwaysOk | internal/dispatch/parser/worker.go:273-295 | under every interleaving ids and wav names are distinct, no row is held twice, and a held copy is the row as it stands |
| ExactlyOnce.NoAttemptLost | internal/dispatch/parser/worker.go:224-252 | a row is settled at most once, exactly if parsed_at is set; its counter is the number of committed transient failures; the last allowed one settles it |
| ExactlyOnce.ParsedIsFinal | internal/dispatch/parser/worker.go:372-409 | between any two points of a run, a row parsed at the first is the same at the second |
| Promotions.PromotionIsNew | internal/dispatch/parser/worker.go:309-339 | the incident of a waiting row does not exist, so the upsert never meets a conflict |
| Promotions.PromotionIsOneToOne | internal/dispatch/parser/worker.go:297-339 | SDR incidents and transcripts with a parsed_incident_id correspond one-to-one, through keys and through surrogate ids, and the incident shows what the gate read |
| Promotions.UnitsStayAsPromoted | internal/dispatch/parser/worker.go:309-352 | in every reachable state an SDR incident has exactly the unit rows its promotion opened, one per listing, and was received when last seen |
| Promotions.AtMostOnce | internal/store/store.go:463-475 | however often and by whomever a wav file is uploaded, it has one row and one incident at most |
| Settling.CommitSettles | internal/dispatch/parser/worker.go:201-271 | in every run a commit leaves the held row with an incident exactly if the capture is not too old, the gate reads it and it has a place; waiting exactly if it passes, the geocoder is unsure and an attempt is left; otherwise settled without; no other row changes |
| Settling.CommitPromotes | internal/dispatch/parser/worker.go:254-352 | such a commit inserts one incident with the gate's texts and units, the geocoder's position and the capture's date, one poll row and the id the transcript is left with; any other leaves the tables alone |
| Settling.HoldsChange | internal/dispatch/parser/worker.go:183-295 | a row is held from a claim, which must be of the next free row, to its holder's commit or rollback |
| Promotions.NeverActiveAgain | internal/store/retention.go:37-54 | a cleared SDR incident stays exactly as it is |
| Promotions.NothingStaleAfterSweep | internal/store/retention.go:37-54 | a sweep clears, as of now, exactly the SDR incidents that were active and are outside the window, and changes nothing else; without a positive window it does nothing |
| Promotions.StaleOnlySinceSweep | internal/store/retention.go:37-54 | at any time after a sweep, an active SDR incident that was outside its window has been promoted since |
| Uploads.RecordedMeansStored | scripts/cactus_uploader/cactus_uploader.py:134-207 | with crashes at any point, a name on record as uploaded has a row, provided the server never answers 409 |
| Uploads.NeverLostIff | scripts/cactus_uploader/cactus_uploader.py:134-188 | in every run over a directory, a file on record as uploaded has its own text and time at the server, if and only if no file of another content is sent under the name of its path |
| Uploads.NamesakeIsShutOut | scripts/cactus_uploader/cactus_uploader.py:143-188 | a recording named by another's payload is on record, never sent, and its text is not at the server |
| Uploads.ReplyKeepsTruthIff | scripts/cactus_uploader/cactus_uploader.py:192-195 | taking a reply keeps every record true exactly unless it is a 409 for a name without a row |
| Uploads.GivenUpForAReason | scripts/cactus_uploader/cactus_uploader.py:157-205 | in every run a name is on record as a permanent failure only for a file of that path without readable JSON, or for a reply to it that is a client error other than 401, 409 and 429 |
| Uploads.ReplyOnRecord | scripts/cactus_uploader/cactus_uploader.py:181-207 | a reply puts an upload on record exactly for 200 and 409, a failure exactly for a final client error, and otherwise nothing |
| Uploads.RetriedAfter | scripts/cactus_uploader/cactus_uploader.py:197-207 | after a 401, a 429, a server error or anything unexpected the file is requested again |
| Uploads.SentIff | scripts/cactus_uploader/cactus_uploader.py:140-180 | a request is made exactly of a file that can be read and sent and whose path's name is not on record, under the payload's name if it has one |
| Uploads.ServedIsStored | internal/store/store.go:463-475 | a served request adds one waiting row with its content if the name is new, and no row otherwise; it is answered 200 exactly if all went well |
| Passes.KnownIff | scripts/cactus_uploader/cactus_uploader.py:140-165 | the names a directory puts on record are those of the files that are not passed over |
| Passes.NeverReached | scripts/cactus_uploader/cactus_uploader.py:134-154 | with verdicts for all attempts, the files from the reach on are not attempted in any pass |
| Passes.SentForeverIff | scripts/cactus_uploader/cactus_uploader.py:134-207 | whatever the verdicts, each pass from the n-th on, for n files, attempts exactly the files within reach whose own name no file puts on record |
| Passes.RenamedFilesStarve | scripts/cactus_uploader/cactus_uploader.py:140-188 | if none of the first files, a batch of them, is filed under such a file's own name, every pass attempts exactly these and never a later file, though every reply is 200 |
| Passes.OneRenamedFileStarves | scripts/cactus_uploader/cactus_uploader.py:140-188 | with room for one attempt, one renamed file is sent in every pass and shuts out every other file of any directory |
| Passes.RenamedYetSettled | scripts/cactus_uploader/cactus_uploader.py:140-188 | a renamed file is sent in the first pass only if another file is recorded under the name of its path |
| Draining.BacklogDrains | internal/dispatch/parser/worker.go:212-267 | every commit lowers the sum of open attempts over waiting rows, and only a new transcript raises it, by the attempts allowed |
| Draining.CommitsAreBounded | internal/dispatch/parser/worker.go:212-267 | over a whole run, the commits and the attempts still open are at most the attempts allowed to each transcript inserted |
| Separation.FeedAsIfAlone | internal/store/store.go:834-865 | with workers, janitor and uploaders interleaved, the feed's rows are those of its own run |
| Separation.DispatchAsIfAlone | internal/store/retention.go:37-54 | transcripts, claims, requests, records and SDR rows are as if there were no ingester |
| Workers.Worker.LockNextTranscript | internal/dispatch/parser/worker.go:273-295 | a waiting row nobody holds with the fewest attempts, the earliest to arrive among those; none exactly if none is free |
| Workers.Worker.InsertIncident | internal/dispatch/parser/worker.go:297-370 | poll row, upsert and one unit row per unit; returns the id the row has |
| Workers.Worker.MarkTranscriptParsed | internal/dispatch/parser/worker.go:372-383 | settles exactly the rows with that id; they leave the queue and every other row waits as before |
| Workers.Worker.RecordTranscriptGeocodeAttempt | internal/dispatch/parser/worker.go:385-396 | sets the attempts of exactly the rows with that id; they keep waiting, behind every waiting row with fewer attempts |
| Workers.Worker.MarkTranscriptParsedAfterGeocodeAttempts | internal/dispatch/parser/worker.go:398-409 | settles exactly the rows with that id without an incident and with their attempts; they leave the queue |
| Workers.Worker.ProcessNext | internal/dispatch/parser/worker.go:183-267 | nothing waits, or the next row is settled as judged and the backlog shrinks; an error leaves everything or comes after the commit |
| Workers.Worker.TransactedAs | internal/dispatch/parser/worker.go:183-271 | what a transaction reports and leaves of its row, on the row's age, the gate and the geocoder: stale, gate failure, geocode failure, retry or insertion, each exactly in its case |
| Workers.Worker.SettledIsTakeAndCommit | internal/dispatch/parser/worker.go:183-267 | the transaction's effect is one claim and one commit of the protocol |
| Workers.Worker.ProcessBatch | internal/dispatch/parser/worker.go:141-181 | the counters are what the committed transactions ended in, a retry can only be the last, and a batch stops early only on an empty queue, a retry or an error |
| Workers.CountersAddUp | internal/dispatch/parser/worker.go:158-176 | batch size = gate passes + gate failures, gate passes = geocode passes + geocode failures, on every path |
| Uploaders.CactusUploader.UploadTranscript | scripts/cactus_uploader/cactus_uploader.py:157-207 | what is recorded for each kind of file and reply |
| Uploaders.AcceptedIffRecorded | scripts/cactus_uploader/cactus_uploader.py:181-207 | an attempt that counts as an upload puts one on record, and any other adds none |
| Uploaders.CactusUploader.ProcessOnce | scripts/cactus_uploader/cactus_uploader.py:134-154 | the loop with its two counters does what the pass function says |
| Uploaders.PassIsBounded | scripts/cactus_uploader/cactus_uploader.py:134-154 | at most batch attempts, no record forgotten, no more uploads than attempts |
| Uploaders.QuietIff | scripts/cactus_uploader/cactus_uploader.py:140-146 | a pass attempts nothing exactly if all files are on record or no attempt is allowed |
| Uploaders.StuckFilesBlock | scripts/cactus_uploader/cactus_uploader.py:140-150 | while attempts get no verdict, a pass changes nothing, so later files wait |
| Uploaders.PassIsSteps | scripts/cactus_uploader/cactus_uploader.py:134-207 | from any reachable world, a whole pass is a run of sends, answers served or not, and replies received or given up, that ends with the records and attempts of the loop |
| ParseUnits.CollapseWhitespace | internal/source/phxfire/phxfire.go:636-651 | every run of blanks becomes one space and nothing else changes; text with single inner spaces is left alone |
| ParseUnits.Parse | internal/source/phxfire/phxfire.go:523-562 | the loop over tokens returns one unit per opening position, with the tokens up to the next colon as status |
| ParseUnits.LoopFindsUnits | internal/source/phxfire/phxfire.go:543-560 | reading token by token with flushes equals the reading by opening positions |
| ParseUnits.ParseUndoesRender | internal/source/phxfire/phxfire.go:519-562 | parsing rendered well-formed units returns them |
| ParseUnits.ReparseIsStable | internal/source/phxfire/phxfire.go:519-562 | for every text, parse, render and parse again equals parse |
| ParseUnits.WordsAreKept | internal/source/phxfire/phxfire.go:543-560 | names and status words in order are the tokens without one closing colon each, empties dropped |
| Natures.NormalizeNature | internal/dispatch/parser/natures.go:72-87 | the rune loop and trim give the lower-case alphanumeric words joined by single spaces |
| Natures.NormalForm | internal/dispatch/parser/natures.go:72-87 | normalizing is idempotent and its output has only single inner spaces |
| Natures.OccursIffStands | internal/dispatch/parser/natures.go:46-60 | substring positions of a padded phrase are word positions of its words |
| Natures.MatchKnownNature | internal/dispatch/parser/natures.go:45-70 | the nested loops return the name of the longest spelling at the leftmost word where any spelling stands, or nothing if none does |
| Natures.OrderIsIrrelevant | internal/dispatch/parser/natures.go:45-70 | the answer depends only on the set of spellings |
| KnownNatures.KnownNaturesAreClean | internal/dispatch/parser/natures.go:10-43 | the 34 spellings keep their length and stay distinct when normalized |
| KnownNatures.AnyOrderAgrees | internal/dispatch/parser/natures.go:10-70 | any order of the known table gives the same name, empty exactly if no spelling stands |
| GeocodeCache.CachedGeocoder.Geocode | internal/geocode/cache.go:36-66 | lookup, time to live, provider call and store; each error exactly in its case, and otherwise the provider's answer |
| GeocodeCache.CallIsThreeMoves | internal/geocode/cache.go:36-66 | a call is lookup, question and store in a row, with the same cache and outcome |
| GeocodeCache.CacheIsHonest | internal/geocode/cache.go:36-66 | however the calls of several workers overlap, entries repeat permanent answers of the provider and nothing else |
| GeocodeCache.AgreesWithProvider | internal/geocode/cache.go:36-66 | under every interleaving: success only with the provider's place, permanent failure only with its no, and only the store of such an answer changes the cache |
| GeocodeCache.ReturnsIff | internal/geocode/cache.go:36-66 | under every interleaving: a transient failure exactly if the question did not get through, a cache error exactly if the lookup failed or a found place could not be stored, otherwise the provider's own answer |
| GeocodeCache.CallEnds | internal/geocode/cache.go:36-66 | a worker is done with its call exactly when it returns or gives up, and no move touches another worker's call |
| GeocodeCache.FlightsLookedUp | internal/geocode/cache.go:36-66 | a call under way keeps the address and the clock reading of its own lookup |
| GeocodeCache.SuccessIsForever | internal/geocode/cache.go:36-66 | under every interleaving a stored success keeps its place and stays a success |
| GeocodeCache.AsksProviderIff | internal/geocode/cache.go:36-66 | a lookup leads to the provider exactly if no answer was stored before it, or the last one stored is a no and a day old |
| GeocodeCache.ProviderSpared | internal/geocode/cache.go:36-66 | under every interleaving, once an answer was stored no later lookup leads to the provider for a found address, nor for a refused one within a day of the last no stored |
| GeocodeCache.OverlappingCallsBothAsk | internal/geocode/cache.go:36-66 | two lookups before the first store make both callers ask, and the second store moves the time |
| SourceStatus.StreakIsTrailingRun | internal/store/store.go:616-647 | the query's streak is the trailing run of failures, pending polls passed over |
| SourceStatus.RunsAreOrderly | internal/store/store.go:616-647 | every log the engine writes has growing ids and no success noted as failure |
| SourceStatus.StreakOfRun | internal/store/store.go:616-647 | so the query is right on every log the engine writes |
| SourceStatus.ApplyFailureEndsStreak | internal/store/store.go:616-647 | an authoritative poll that failed to apply ends the streak |
| SourceStatus.PollLogIsNotes | internal/store/store.go:259-309 | the poll log holds, in order, one row for each poll whose insert took effect, with the poll's size, classification, reason and times, its outcome and its error |
| SourceStatus.LastSuccess | internal/store/store.go:616-620 | the start of the newest success of the source, if it has one |
| SourceStatus.LastAttempt | internal/store/store.go:620-625 | the newest poll of the source that is not pending, if it has one |
| SourceStatus.StatusIff | internal/api/source_status.go:33-78 | down exactly if overdue, failing too often or frozen too long; healthy exactly if not down, not failing, not due and the latest poll neither degraded nor failed |
| SourceStatus.ReasonIff | internal/api/source_status.go:33-92 | the reason for each status names the fact that decides it |
| SourceStatus.SourceThresholds | internal/api/source_status.go:80-101 | configured values are used, a missing down threshold falls back to the stale one, the defaults are 180 s, 600 s, 3 and 600 s, and all are positive |
| SourceStatus.StatusNeverImproves | internal/api/source_status.go:33-78 | with no new poll the status never improves with time or with a longer streak, and the reason is a stable one |

## Left out

- HTTP, JSON decoding, SHA-256, drivers, logging and configuration: a fetch is a decoded reply with an opaque payload hash, a SQL statement an atomic change of the tables.
- Coordinates are real numbers, printed to six decimals with halves rounded up; missing ones are zero. The raw feature and its retention (internal/store/retention.go:19-33) are not modelled.
- Clocks and id sequences are parameters. Poll ids and start times are assumed to grow per source, and the sequences not to serve one value twice.
- cmd/backfill_units rewrites unit rows from one snapshot and is not part of the model.
- The transcript gate (internal/dispatch/parser/parser.go) is an arbitrary function of the transcript's text and confidence.
- Read queries other than the streak and the event order, stats, canaries, rate limits, authentication, routing, and the web client.
- A query that reads many rows is a loop in no particular order; concurrent writers to one source are excluded, as the program runs one ingester per source.
- Workers.Worker.ProcessNext: the class shows one worker's transaction with the others' locks fixed; interleaving between its claim and its commit is covered by the steps of `Dispatch`.
- Dispatch: `parsed_at` is set from the worker's clock rather than the database's, and ties between rows of equal attempts and arrival may fall either way.
- Uploads.RecordedMeansStored: assumes that no 409 is answered, which this server never does; `Uploads.ReplyKeepsTruthIff` says what a 409 would break, `Uploads.NeverLostIff` whose text the row carries.
- Passes.SentForeverIff: for attempts that end in a verdict and a directory that stays as it is; without a verdict an attempt changes nothing (`Uploaders.StuckFilesBlock`).
- ParseUnits.Parse: starts from text whose HTML entities are already decoded; the unit type is an arbitrary function of the name.
- Natures.NormalizeNature: Unicode lower-casing is modelled as far as it can produce an ASCII letter or digit.
- GeocodeCache.ProviderSpared: counts from a store that got through; the hit counter of a cache row is not modelled.
- SourceStatus.StreakOfRun: assumes positive poll ids, as a serial column serves them.
