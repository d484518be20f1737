# Tabularium 117 in Dafny

Tabularium 117 reads the production statistics a game writes to a pipe and shows them: live in the browser, as warnings,
and as a history in a database. This project models the way of the data from the bytes on the pipe to every consumer's
picture of the economy and proves what the program promises about whole runs: replicas of one state agree, and
incremental structures equal a simple function of the history.

Code that works in place is a class or a method with loops (`AlertEngine.Engine`, `TickTracker.State`,
`WireCodec.Reader`, `CompactionStore.SampleStore`, `HistoryTables.HistoryStore`, `BatchWriter.Batcher`,
`EventStream.Server`, `Ingest.Pipeline`, `Wiring.Program`, `LanListener.LanMode`, the array methods of `Dedup`). Each is proved against a
specification function or a law over a ghost history, and the theorems are about those. What such a function means is
also stated without it, on indices, bytes, columns and literal numbers (`TickTracker.CompleteIsWhole`,
`CompactionColumns.FoldsFillColumns`, `WireLayout.DecodeIffCarried`, `Wiring.InputsAreFrames`, `AlertValues`,
`HistoryRows`). Maps are walked in an arbitrary
order everywhere. Goroutines are steps: a class invariant holds after any order of its methods' calls, and the methods
that stand for whole operations (`BatchWriter.Run`, `Delivery.Pipeline.OnSnapshot`, `LanListener.LanMode.Enable`) let
every other goroutine run in between. A write to the database, a bind, a connection and the scheduling of goroutines
succeed, fail or happen nondeterministically.

| file | what it models |
|---|---|
| Model, Floats, Sorting | islands, products, numbers, times; what float patterns mean; stable sorting and what it leaves unchanged |
| AlertRules, AlertRuns, AlertEngine | the rules for one product; runs of the engine; the engine in place |
| DeficitLatch, DropWindow, DropRuns, AlertEvents, AlertValues | what an open deficit, an open drop and an event say about the history, and the numbers they show |
| TickTracker | the newest complete tick, with the map two fields share |
| WireFormat, WireLayout, WireTheorems, WireCodec, Framing | message bytes and frames, their layout at absolute offsets, their laws, the reader and the writer |
| Compaction, CompactionColumns, CompactionStore | folding old samples into buckets; what that is column by column; the same as one grouped upsert and two deletes |
| CompactionLives, CompactionWindows | over the life of a database: what the history counts twice, when its two resolutions overlap |
| HistoryTables, IslandRows, BatchLog, BatchWriter, EndToEnd, Delivery, HistoryRows | the history tables, the batch writer, the way from the engine to the alert table, and what every row then holds |
| StreamView, StreamLosses, EventStream | one stream client and its page; which events cannot be sent; the hub, its clients and the engine |
| Ingest, Dedup, Wiring | the version gate across reconnects; goods listed twice; the way from the frames to the alert table |
| LanListener | the LAN listener under its two locks |

## Where the code and its comments differ

- internal/server/sse.go:238-240 says that an event arriving during the catch-up is queued rather than lost. An alert
  whose value is NaN or infinite cannot be rendered as JSON; it is sent to nobody and counted nowhere. The engine emits
  such events exactly when a deficit rule reads a balance that is not finite (`StreamLosses.UnrenderableIff`), and then
  a page can keep an alert that is over although its queue dropped nothing (`EventStream.StrandsPage`). A page is right
  about a key exactly when the number of changes it missed is even (`StreamView.PageIsRightIff`).
- internal/alerts/config.go:75-78 says that every value that cannot work is filled in. Comparisons let a threshold pass
  that is NaN, or two that are infinite, and cmd/tabularium117/main.go:228 accepts them on the command line; every
  other configuration is repaired (`AlertEvents.DefaultsRepair`).
- internal/store/query.go:71-73 says that the two history tables never cover the same instant. Of measurements that holds
  exactly as long as no sample is written again after it was folded (`CompactionLives.HistoryIsMeasuredIff`). A recording
  longer than the raw retention and played in a loop (cmd/tabularium117/main.go:166) writes such samples, and each of
  them counts twice (`CompactionLives.WrittenAgainCountsTwice`). Of time windows it holds behind a compaction exactly when
  the raw cutoff does not cut a window that is kept (`CompactionWindows.AlwaysApartIff`) and no later sample falls into a
  window that is folded (`CompactionWindows.LifeIsDisjointIff`, `CompactionWindows.LateSampleOverlaps`).
- internal/store/compact.go:82-89 truncates toward zero, so the bucket at zero also takes measurements from before the
  epoch. What the history shows of a range is conserved exactly when none is moved into it (`Compaction.Conserves`).
- internal/store/compact.go:125-138 accepts a bucket width below a millisecond, with which a compaction fails as soon as
  there is something to fold; confluence holds exactly without it (`Compaction.ConfluentIff`).
- internal/store/batch.go:224-226 says that two sessions are never open at once. The open rows are the running session
  and one for every end that could not be written, so two are open when a session follows such an end
  (`BatchWriter.OneSessionIff`, `BatchLog.SessionsOverlap`).
- internal/server/lan.go:309-311 says that the final close takes the listener with it. A listener whose goroutine has not
  called Serve yet stays open until it does (`LanListener.FinalIsClosedIff`, `LanListener.LingersAfterClose`).
- internal/ingest/pipeline.go:297-300 reopens the gate for a new connection; a frame left over from the previous one
  passes it, whatever that connection announced (`Ingest.StaleFrameIsStored`).

## Model

| member | source | states |
|---|---|---|
| AlertRuns.EventsAlternate | internal/alerts/engine.go:93-206 | In every run of snapshots and resets, the events of each island, product and rule strictly alternate raised and cleared, starting with raised; a cleared event carries the time of its raise; the key is active exactly when its last event was a raise. |
| AlertRuns.OutputsDetermined | internal/alerts/engine.go:123-144 | The order in which the engine's maps are walked cannot show: for one sequence of inputs there is one output. |
| AlertRuns.StateIsHistory | internal/alerts/engine.go:93-145 | The rule state of a product is a function of that product's own observations since the last reset. |
| AlertRuns.AlertOrder | internal/alerts/alert.go:77-88 | The order of alerts is total: island, then product, then rule. |
| AlertEvents.DefaultsRepair | internal/alerts/config.go:79-106 | Defaults make every count and the window positive. The result is usable (clearing threshold positive and below the raising one) exactly unless a threshold is NaN or both are infinite, which every comparison lets through; usable configurations stay as they are. |
| AlertEvents.EventsAreCurrent | internal/alerts/engine.go:219-276 | Every event a snapshot produces is about its island and stamped with its receive time and, when raised, its name; a deficit's value is the balance of an entry listed for the product, a drop's the productivity, a hundred at most; the severity is the rule's. |
| AlertEvents.OpenDeficitIsCurrent | internal/alerts/engine.go:219-276 | An open deficit shows the latest balance and name read for its product, and its rule is the one the latest building count selects. |
| AlertValues.OpenDropIsCurrent | internal/alerts/engine.go:366-369 | An open drop shows the latest reading that the rule judged, one with buildings, a productivity that is a number and MinSamplesForDrop readings in the window: its productivity, a hundred if it was more, and its island name. |
| AlertValues.SamplesAreCapped | internal/alerts/engine.go:308-336 | In every run, at most 512 samples are stored for a product; each is at most a hundred percent and is a productivity read since the last reset, or a hundred where that was more. |
| AlertValues.DueIsBelowHundred | internal/alerts/engine.go:308-316 | With a usable configuration a reading of a hundred percent or more is never due for a drop: a boost that ends is not a building that stalls. |
| AlertValues.RaisedBelowHundred | internal/alerts/engine.go:308-365 | In every run with a usable configuration, an input raises a drop only if it is a snapshot listing the product with a productivity below a hundred percent. |
| AlertValues.MeanIs | internal/alerts/engine.go:422-431 | The mean of one reading is that reading, that of none is zero, and joined parts count by their number of readings. |
| AlertValues.ResetEventsAre | internal/alerts/engine.go:175-206 | The events of a reset clear exactly what was open, at the latest receive time since the reset before, or at the wall clock when there was none, and change nothing else of it; the severity is information for a good without local production and a warning otherwise. |
| AlertValues.OrderIs | internal/alerts/alert.go:77-88 | The order of alerts in plain terms: session, island, product, and the rules by name. |
| AlertValues.DefaultsAre | internal/alerts/config.go:79-106 | What is filled in: three samples to raise and to clear, twenty points that clear at ten or half of what raises, two negative samples, fifteen minutes, three readings. |
| DeficitLatch.DeficitIsLatch | internal/alerts/engine.go:219-276 | A deficit alert of a rule is open if and only if some reading ended a run of DeficitSamples negative balances, the building class has been the rule's since, and no run of DeficitClearSamples calm balances has ended after it. |
| DropWindow.SamplesAreWindow | internal/alerts/engine.go:316-419 | The stored productivity samples are always the newest 512 of the counted readings stamped within DropWindow of the product's clock; which readings count, and their stamps, follow from the observations since the history was last dropped. |
| DropWindow.PruneIsFilter | internal/alerts/engine.go:401-410 | On a history in time order, cutting a prefix off is filtering by time. |
| DropWindow.StepWindow | internal/alerts/engine.go:316-373 | An idle or meaningless reading changes neither samples nor clock; a counted one advances the clock, prunes and is appended. |
| DropWindow.BaselineFloor | internal/alerts/engine.go:316-336 | Over any stretch with buildings and balances that are not negative, every reading in the window, and so the mean, stays at or above the least the window held when the stretch began, or the first reading if it was empty. |
| DropWindow.DropRaisedIff | internal/alerts/engine.go:339-365 | A reading raises a drop exactly when none is open, the last DropNegativeSamples balances were negative, and at least MinSamplesForDrop readings in the window, taken from the observations alone and at most a hundred each, average more than DropPercentagePoints above the productivity, a hundred at most. |
| DropWindow.DropEndedIff | internal/alerts/engine.go:308-383 | A reading ends an open drop exactly when its buildings are gone, or its productivity is a number and the last DeficitClearSamples balances were calm or the window averages no more than DropClearPercentagePoints above it. |
| DropWindow.OpenDropIsListed | internal/alerts/engine.go:125-135 | After every snapshot with goods, an open drop of its island is of a product listed with buildings and, if its productivity was a number, without DeficitClearSamples trailing calm balances. |
| DropRuns.DropIsActiveIff | internal/alerts/engine.go:308-383 | After every run of snapshots and resets, a product's drop is active if and only if one of its observations since the last reset was due for one and none has ended it since. |
| DropRuns.DropRaisedInRunIff | internal/alerts/engine.go:308-365 | In every run, an input emits a raised drop of a product if and only if it is a snapshot of its island with an entry of the product that is due for a drop while none is open, read off the snapshots since the last reset alone. |
| AlertEngine.Engine.Apply | internal/alerts/engine.go:93-145 | In place, with maps walked in any order, the engine continues the one run the inputs determine. |
| AlertEngine.Engine.Active | internal/alerts/engine.go:148-165 | The list of active alerts is ordered and holds, for every key, its open alert and nothing else. |
| AlertEngine.Engine.Reset | internal/alerts/engine.go:175-206 | A reset clears every open alert, stamped with the newest snapshot or else the wall clock, and leaves the engine as new. |
| AlertEngine.Engine.constructor | internal/alerts/engine.go:77-82 | A new engine has the configuration with its defaults, whose counts and window are positive, and an empty history. |
| AlertEngine.ProductState.ApplyDeficit | internal/alerts/engine.go:219-276 | One entry's deficit rule in place, with the hand-over between the two deficit rules. |
| AlertEngine.ProductState.ApplyDrop | internal/alerts/engine.go:308-373 | One entry's drop rule in place: idle readings, pruning, judging, appending. |
| AlertEngine.ProductState.EndDrop | internal/alerts/engine.go:387-397 | A product without buildings loses its history and its open drop. |
| AlertEngine.Sweep | internal/alerts/engine.go:125-135 | Products a snapshot with goods no longer lists end their drop, in whatever order they are visited. |
| AlertEngine.SnapshotFollowed | internal/alerts/engine.go:105-135 | Entries and sweep together do to every product what the snapshot means for it, in state and in events. |
| AlertEngine.MeanOf | internal/alerts/engine.go:422-431 | The summing loop computes the mean and the number of samples, zero for none. |
| AlertEngine.PruneOld | internal/alerts/engine.go:401-410 | The index loop cuts exactly the leading samples before the cutoff. |
| TickTracker.State.Put | internal/state/state.go:94-127 | After every put, islands, received tick and complete tick are the stated functions of all puts since the last reset, although two fields share one map. |
| TickTracker.State.CompleteTick | internal/state/state.go:179-193 | A tick is returned exactly when two timestamps have occurred in a row. It is the newest maximal run of equal timestamps that is whole, because every island put since the reset is in it or because a put with another timestamp came behind it; it is listed by session and island and holds exactly the last snapshot of each island in the run. |
| TickTracker.State.Islands | internal/state/state.go:143-152 | The list holds, for every island put, its last put and nothing else, in the order of session and island. |
| TickTracker.State.Reset | internal/state/state.go:200-206 | A reset forgets all puts. |
| TickTracker.CompleteIsWhole | internal/state/state.go:106-126 | The complete tick on the order of the puts alone: there is one exactly when a tick has ended; it is the newest run known to be whole, with its timestamp, and holds exactly the last snapshot of every island put in that run. |
| TickTracker.CompleteIsOneTick | internal/state/state.go:163-193 | Every snapshot of the complete tick carries the tick's timestamp, under its own key, and was put. |
| TickTracker.CompleteIsCurrent | internal/state/state.go:112-127 | A received tick that is complete is the whole current picture. |
| TickTracker.LastRunIsMaximal | internal/state/state.go:106-121 | The last run has one timestamp and cannot be extended to the front. |
| TickTracker.LatestIsLast | internal/state/state.go:94-127 | The map of islands holds, for every key put, the last snapshot put under it. |
| TickTracker.ListUnique | internal/state/state.go:155-162 | The ordered list of a map's snapshots is unique, however the map was walked. |
| WireTheorems.RoundTrip | internal/protocol/decode.go:30-217 | Decoding an encoded message followed by any bytes gives the message back, with the receive time supplied. |
| WireTheorems.PrefixFails | internal/protocol/decode.go:130-198 | Every proper prefix of an encoded message decodes to the short-frame error. |
| WireTheorems.Canonical | internal/protocol/encode.go:17-121 | Any payload within the frame limit that decodes encodes again, to no more bytes that mean the same, and encoding those gives the same bytes, although pairs of one key are summed with wrap-around and trailing bytes are dropped. |
| WireTheorems.PairsBack | internal/protocol/encode.go:106-121 | A pair list written in ascending key order is read back as the same map. |
| WireTheorems.PairsWithin | internal/protocol/decode.go:202-217 | Summing the pairs of one key never makes the list longer. |
| WireLayout.DecodeIffCarried | docs/protocol.md:76-184 | A payload decodes to a message exactly when its bytes carry it: every field little-endian at its offset, strings behind their length, entries and pair lists behind their count, and each key of a pair list with the sum of all its amounts, wrapped to 32 bits. |
| WireLayout.DecodeFailure | internal/protocol/decode.go:30-58 | Decoding fails exactly when the payload carries no message, with the unknown-type error exactly when there is a first byte and it is above three, and the short-frame error otherwise. |
| WireLayout.ReadPairs | internal/protocol/decode.go:202-217 | For every list of pairs, duplicates included: reading it gives a map whose keys are those listed, each with the sum of all amounts listed under it, wrapped to 32 bits. |
| WireLayout.EncodeFailure | internal/protocol/encode.go:17-77 | Encoding refuses an island above 255, else a name or headline longer than 255 bytes, else more pairs than an int32 counts, and is otherwise at most a mebibyte long. |
| WireCodec.Decode | internal/protocol/decode.go:30-58 | The sticky-error reader decodes a message exactly when the bytes carry it, and tells an unknown type, a first byte above three, from a short frame. |
| WireCodec.Reader.Take | internal/protocol/decode.go:130-141 | A read past the end fails, and after a failure every read is a no-op. |
| WireCodec.Reader.Count | internal/protocol/decode.go:188-198 | A count that the remaining bytes cannot satisfy is refused. |
| WireCodec.Reader.Pairs | internal/protocol/decode.go:202-217 | The loop reads the list at its offset: the keys listed, each with the sum of its amounts, wrapped to 32 bits. |
| WireCodec.Reader.DecodeEntry | internal/protocol/decode.go:91-120 | An entry is twelve fixed fields and two pair lists, or a failure. |
| WireCodec.Reader.DecodeAreaStatistics | internal/protocol/decode.go:60-89 | A snapshot is its header, a counted list of entries and the receive time, or a failure. |
| WireCodec.Encode | internal/protocol/encode.go:17-41 | The writer produces the message's bytes or its error. |
| WireCodec.Writer.Pairs | internal/protocol/encode.go:106-121 | Keys collected in any order are written in ascending order. |
| WireCodec.Writer.EncodeAreaStatistics | internal/protocol/encode.go:43-77 | A snapshot's bytes, or the first of its errors. |
| Framing.CutStream | internal/protocol/frame.go:21-49 | Wherever a written stream is cut, the reader gets exactly the frames that arrived whole, then a clean end at a frame boundary and an unexpected end inside a frame. |
| Framing.FrameIs | internal/protocol/frame.go:21-49 | A frame is a length in four bytes, lowest first, and that many bytes, at least one and at most a mebibyte; a length that is not positive or above that is refused. |
| Framing.FramesRoundTrip | internal/protocol/frame.go:21-69 | Reading what was written gives the payloads back and then the end of the stream. |
| Framing.ByteStream.ReadFrame | internal/protocol/frame.go:21-49 | One frame is consumed, or the reason why none can be read is returned; a read that breaks for another reason does so inside the frame. |
| Framing.ByteStream.WriteFrame | internal/protocol/frame.go:53-69 | A payload of an allowed length is appended with its prefix, or a part of that and an error; any other is refused and nothing is written. |
| Compaction.ConfluentIff | internal/store/compact.go:125-176 | Compacting earlier in between never shows in what a later compaction leaves, exactly when buckets are at least a millisecond wide (or the default). |
| Compaction.Idempotent | internal/store/compact.go:125-176 | Repeating a compaction at the same time changes nothing. |
| Compaction.Conserves | internal/store/query.go:74-85 | Over every bucket-aligned range that starts at or after the bucket cutoff and ends after the epoch, the count-weighted sum of each rate, the number of measurements and the maxima of buildings and game time over the rows the history query selects are unchanged if and only if the range starts after the epoch or the product has no row below the raw cutoff and less than a bucket before the start. |
| Compaction.BeforeEpochShifts | internal/store/compact.go:82-89 | An instance of the failing case: a measurement just before the epoch appears in the range that starts at it. |
| Compaction.RetentionHolds | internal/store/compact.go:114-116 | Afterwards no raw row is older than the raw cutoff, no bucket older than the bucket cutoff, and all other rows are untouched. |
| CompactionWindows.WindowsDisjointIff | internal/store/query.go:71-73 | For all tables with buckets as earlier compactions leave them, of this width or of an earlier build's, no raw row lies in a bucket's window right after a compaction if and only if, for each width, the cutoff is not positive or a multiple of it, or the bucket it cuts has expired. |
| CompactionWindows.BinnedPersists | internal/store/compact.go:76-116 | A compaction leaves buckets as the next one finds them: below the cutoff, of this width or an earlier build's, and aligned to it. |
| CompactionWindows.AlwaysApartIff | internal/store/query.go:71-73 | Over every life of a database that starts empty, with any writes and compactions: from a compaction on, and until a sample older than its raw cutoff is written, no raw row lies in a bucket's window if and only if that cutoff does not cut a window that is kept. |
| CompactionWindows.LifeIsDisjointIff | internal/store/compact.go:70-75 | At every moment of every life, upgraded databases included, behind a compaction that cuts no window: the windows are disjoint if and only if no sample written since falls into a window that is folded. |
| CompactionWindows.LateSampleOverlaps | internal/store/compact.go:70-75 | A life in which a late sample does: the bucket of its window covers it. |
| CompactionLives.HistoryIsMeasuredIff | internal/store/query.go:71-85 | At every moment of every life of a database that starts empty: over every aligned range whose buckets are kept and that ends after the epoch, the history query sees of a product exactly what was ever measured there (count-weighted sums, number of measurements, maxima) if and only if no key was written again after its measurement had been folded, and no measurement from before the epoch was moved into the range. |
| CompactionLives.WrittenAgainCountsTwice | internal/store/compact.go:90-112 | A sample written, folded and written again is in both tables and counts as two measurements. |
| CompactionWindows.StraddlingOverlaps | internal/store/compact.go:82-89 | Two rows on either side of a cutoff inside a window: the bucket of one covers the other. |
| Compaction.FoldsUnique | internal/store/compact.go:76-116 | What a compaction leaves is determined. |
| CompactionColumns.FoldsFillColumns | internal/store/compact.go:76-112 | Of what a compaction leaves, on the rows' own columns: a bucket is there exactly when it was, or an old sample falls into its window, and it has not expired; its count is the number of measurements, each mean times the count the sum of that rate over its samples and what the bucket stood for before, buildings and game time are the largest among them, the width the wider; younger samples and other buckets are untouched. |
| Compaction.FoldedTwice | internal/store/compact.go:90-112 | Merging by count keeps a bucket the mean of everything that ever went into it. |
| CompactionStore.SampleStore.Compact | internal/store/compact.go:125-176 | One grouped upsert and two deletes fill the columns as stated, with the cutoffs seven and ninety days ago and ten minutes a bucket where an option is not positive, or the transaction fails and leaves everything as it was, as it always does when a width below a millisecond meets rows to fold; the three counts are the groups folded, the raw rows below the raw cutoff, and the buckets, folded or found, below the bucket cutoff. |
| CompactionStore.SampleStore.Aggregate | internal/store/compact.go:76-112 | The upsert, group by group in any order, fills the columns of every bucket with its group and what it stood for before. |
| CompactionStore.UpsertFolds | internal/store/compact.go:90-112 | The conflict clause's weighted means, sums and maxima are the group folded into the row. |
| HistoryTables.HistoryStore.WriteSnapshots | internal/store/write.go:104-151 | A batch is stored as a whole or not at all; islands are upserted, samples replaced, the time of the last sample only moves forward. |
| HistoryTables.HistoryStore.RaiseAlert | internal/store/alerts.go:75-118 | An alert row is opened under its island's id, whose row is made when it is missing. |
| HistoryTables.HistoryStore.ClearAlert | internal/store/alerts.go:126-143 | Every open row of the key is closed; an unknown island changes nothing. |
| HistoryTables.HistoryStore.CloseOpenAlerts | internal/store/alerts.go:148-155 | Every open alert row is closed and closed ones keep their end, or the transaction fails and nothing changes. |
| HistoryTables.HistoryStore.StartSession | internal/store/write.go:58-72 | A session row is opened and its id returned. |
| HistoryTables.HistoryStore.EndSession | internal/store/write.go:77-84 | An open session row is closed; a closed or missing one is left alone. |
| IslandRows.IslandRowIs | internal/store/write.go:27-38 | After any snapshots in any order, an island's row keeps id and first time, has the latest snapshot's name, and its last time is the newest of all. |
| HistoryRows.SampleRowIs | internal/store/write.go:40-151 | After a batch, a sample row holds the last entry written to it, by island, product and millisecond, with its snapshot's game time; a row that none was written to holds what it held. |
| HistoryRows.NewestSampleIs | internal/store/store.go:139-165 | The time of the newest sample is at least that of every snapshot stored, whatever else failed, and unless nothing later was stored than before, it is that of one. |
| HistoryRows.AlertRowsAre | internal/store/alerts.go:15-143 | At any moment, on a database that started without open alert rows, while nothing was refused and no write has failed: behind its older rows a key has one row for each of its raises taken so far, in order, with that alert's severity and time, closed at the time of the clear that followed it, or open if none has. |
| HistoryRows.SessionRowsAre | internal/store/batch.go:224-273 | At any moment while no write has failed: behind the older session rows there is one for each session start taken, in order, with its time, version and headline; it ended at the time of the next boundary taken, start or end, or else when the writer returned, or it has not ended. |
| BatchLog.OrderedStart | internal/store/batch.go:224-240 | A session start keeps the order: a running session is ended first. |
| BatchLog.OrderedFlush | internal/store/batch.go:290-305 | A flush never shows in the order of what was recorded. |
| BatchLog.AccountsEnd | internal/store/batch.go:242-258 | Losses, last error and open session rows stay accounted for when an end is written or fails. |
| BatchLog.AccountsBegin | internal/store/batch.go:224-240 | The same when a session is begun. |
| BatchLog.AccountsWrite | internal/store/batch.go:199-222 | The same for batches and alerts. |
| BatchLog.LossesAre | internal/store/batch.go:129-131 | What is counted as lost are the records in failed writes, a batch by its snapshots; what is counted as stored are the snapshots in batches that succeeded. |
| BatchLog.LastFailedIs | internal/store/batch.go:153-170 | The failure reported is the one with only successful writes behind it. |
| BatchLog.OpenSessionsAre | internal/store/write.go:58-84 | The count of open sessions is the number of rows without an end. |
| BatchLog.FailedEndsAre | internal/store/batch.go:242-258 | The count of failed ends is the number of session ends that could not be written. |
| BatchLog.SessionsOverlap | internal/store/batch.go:224-258 | A session, an end that cannot be written and the next session leave two open session rows. |
| BatchWriter.Batcher.Enqueue | internal/store/batch.go:116-127 | A record is accepted behind all others, or refused and counted when 1024 are queued. |
| BatchWriter.Batcher.Apply | internal/store/batch.go:174-197 | Recording one record keeps the order law; a snapshot waits until it is the 64th, and everything else leaves nothing pending. |
| BatchWriter.Batcher.Flush | internal/store/batch.go:286-305 | The pending batch is written in one transaction or counted as lost. |
| BatchWriter.Batcher.Return | internal/store/batch.go:153-170 | What is left is written, the session closed at the newest sample or, without one, the wall clock, and the last failed write reported. |
| BatchWriter.Run | internal/store/batch.go:142-172 | Against any schedule of arrivals, takes, ticks and the stop signal, the writer ends with nothing pending and no session running. The records that arrived up to the end of the drain were taken, in order, or refused; the later ones are queued, in order, or refused; every snapshot that arrived is stored, lost in a failed write, queued or refused. With no write failing, the writes taken apart are what the records mean, in order. |
| BatchWriter.SnapshotsConserved | internal/store/batch.go:129-131 | At every moment and whatever fails, the snapshots submitted so far are, as a multiset, those written or lost in a failed write, pending, queued or refused. |
| BatchWriter.OneSessionIff | internal/store/batch.go:224-258 | On a database whose earlier sessions are closed, at most one session row is open if and only if no end of a session failed to be written, or one did and no session is running. |
| BatchLog.NoneRefused | internal/store/batch.go:116-127 | When nothing was refused, what the queue accepted is exactly what was submitted, in order. |
| EndToEnd.OpenRowsAreActive | cmd/tabularium117/run.go:212-245 | With nothing refused and no write failing, once every record is taken each key has one open alert row, with its raise time, if it is active, and none if not, whatever snapshots are pending and whether or not the writer has stopped. |
| EndToEnd.OpenRowIsActive | internal/store/alerts.go:75-143 | No open alert row belongs to anything but an active alert, at the same moments. |
| EndToEnd.RaiseFindsIsland | internal/store/alerts.go:68-118 | In every run, on a database that starts without open alert rows and while no write has failed, whatever part of the records has been taken: the database the writer raises an alert in already holds its island's row. |
| EndToEnd.EntriesMatch | internal/store/alerts.go:15-143 | The open rows of a key follow its event stream: none while quiet, one row with the raise time while open. |
| EndToEnd.ReplayIsEntered | internal/store/batch.go:174-222 | Batching does not show in islands and alerts. |
| Delivery.Pipeline.OnSnapshot | cmd/tabularium117/run.go:222-228 | A snapshot goes to the history, then to the engine, and its events follow in order, whatever the writer does in between. |
| Delivery.Pipeline.OnBoundary | cmd/tabularium117/run.go:230-244 | A session boundary goes to the history, then resets the engine, and what that clears follows. |
| Delivery.TableShowsActive | cmd/tabularium117/run.go:194-245 | The engine, the queue and the database together, at any moment with an empty queue: while nothing was refused and no write failed, each key has one open alert row, with its raise time, if it is active, and none if not. |
| Delivery.TableShowsNothingElse | cmd/tabularium117/run.go:194-245 | And every open alert row in the database is one of an active alert. |
| Delivery.RaisesFoundIslands | internal/store/alerts.go:68-118 | At any moment, with records still queued or not, on a database that started without open alert rows, while nothing was refused and no write has failed: every alert the writer has raised found its island's row in the database. |
| Wiring.Program.HandleFrame | internal/ingest/pipeline.go:125-181 | A frame goes through state, history and engine before the next one is taken; the engine's inputs and the records ahead of their events stay exactly the stored snapshots and the session boundaries of the frames handled. |
| Wiring.InputsAreFrames | internal/ingest/pipeline.go:125-181 | Over every run of frames, the engine's inputs are, in order, one snapshot for each stored statistics frame, with one entry per good, and one reset for each boundary frame, and nothing else; the history gets the snapshot, or the boundary with its frame's headline and receive time and the version in force. |
| Wiring.BoundaryClosesAll | cmd/tabularium117/run.go:230-244 | Right after a session boundary, start or end, no alert is open. |
| Wiring.StateIsOfFrames | cmd/tabularium117/run.go:212-245 | The engine's state is a function of those; the wall clock does not show in it. |
| Wiring.TableShowsFrames | cmd/tabularium117/run.go:194-245 | From the frames to the database: with an empty queue, nothing refused and no write failed, each key has one open alert row, with its raise time, if the frames handled so far leave its alert open, and none if not. |
| StreamView.PageConverges | internal/server/sse.go:213-305 | A client that registers before its catch-up is built and loses nothing ends, in every interleaving, with exactly the active keys, each with its raise time. |
| StreamView.PageIsRightIff | internal/server/sse.go:120-156 | Whatever is lost, a settled page is right about a key exactly when the number of changes it missed since it last heard of the key is even. |
| StreamView.MissedClearSticks | internal/server/sse.go:137-142 | A page that received a raise and missed the clear behind it shows an alert that is over. |
| StreamLosses.UnrenderableIff | internal/server/json.go:417-436 | In every run of snapshots and resets, an event cannot be rendered if and only if it is one of a deficit rule and the balance it shows, listed in its snapshot or last read before its reset, is not finite. |
| StreamLosses.LosslessIff | internal/server/sse.go:128-156 | In runs whose balances are all finite, a settled client has lost nothing if and only if its counter of dropped frames is zero. |
| StreamLosses.FinitePageConverges | internal/server/sse.go:213-305 | So with finite balances and a zero counter a page shows exactly the active keys, each with its raise time. |
| StreamLosses.NaNRunEmits | internal/alerts/engine.go:219-276 | For every configuration, island and good (`StreamLosses.SceneExists`), negative balances followed by balances that are not numbers raise one alert that can be rendered, clear it with an event that cannot, and leave nothing open. |
| StreamLosses.NaNClearSticks | internal/server/sse.go:238-240 | A page connected through that run whose queue dropped nothing shows an alert that is over. |
| Floats.NotFinite | docs/protocol.md:83 | One pattern each is an infinity, and exactly those beyond them are not numbers. |
| Floats.OneIs | docs/protocol.md:83 | The pattern of one is one. |
| Floats.SignIs | docs/protocol.md:83 | The top bit negates. |
| Floats.ExponentIs | docs/protocol.md:83 | One more in the exponent doubles. |
| Floats.FractionIs | docs/protocol.md:83 | A fraction adds its part of two to the twenty-third, and below the smallest normal number all steps are equal. |
| Floats.ComparesAs | internal/alerts/engine.go:219-276 | Comparisons are those of the numbers, with the infinities outside of them, and NaN is neither less, nor at most, nor negative, nor at least zero. |
| StreamView.ShownIsLast | web/js/app.js:192-212 | The last event of a key decides what a page shows of it. |
| EventStream.Server.PublishNext | internal/server/sse.go:191-198 | An event is offered to every client, in any order; a full queue loses it, and it is counted. |
| EventStream.Server.Broadcast | internal/server/sse.go:120-156 | Every client is offered the frame, independently of the others. |
| EventStream.Server.Connect | internal/server/sse.go:65-77 | A client is registered from this moment of the stream on; a closed hub takes none. |
| EventStream.Server.CatchUpClient | internal/server/sse.go:268-305 | The catch-up is one raised event per alert open at this moment, as far as it can be rendered, the newest alert first. |
| EventStream.Server.DeliverTo | internal/server/sse.go:248-258 | The next queued frame reaches the page. |
| EventStream.Server.CloseAll | internal/server/sse.go:99-109 | Every stream is ended and none is registered any more. |
| EventStream.StreamConverges | internal/server/sse.go:213-305 | The same about the running server: once everything is published and a client's queue is drained, with finite balances if its counter is zero. |
| EventStream.StrandsPage | internal/server/sse.go:238-240 | The running server, in any configuration, reaches such a state: a page connected from the start, a counter of zero, and an alert shown that is over. |
| Ingest.Pipeline.Handle | internal/ingest/pipeline.go:125-181 | Handling a frame extends the record of frames by its outcome, and counters and state are functions of that record. |
| Ingest.Pipeline.HandleMessage | internal/ingest/pipeline.go:146-181 | What each kind of message does to the gate, the version in force, the state, the counters and the listeners. |
| Ingest.Pipeline.HandleStatistics | internal/ingest/pipeline.go:227-246 | A snapshot is stored with one entry per good unless the gate is shut, and counted either way. |
| Ingest.Pipeline.HandleVersion | internal/ingest/pipeline.go:183-218 | The gate is shut exactly by an unsupported version. |
| Ingest.Pipeline.Connected | internal/ingest/pipeline.go:292-306 | A new connection opens the gate, also for a frame still in flight. |
| Ingest.VersionIs | internal/ingest/pipeline.go:183-218 | The version in force is that of the last version frame handled since the newest connection began, and zero while there is none. |
| Ingest.Pipeline.Hand | internal/pipe/client.go:141-168 | Frames are handed over one at a time, behind their connection's earlier ones. |
| Ingest.GateLaw | internal/pipe/client.go:115-134 | In every interleaving, a statistics frame handled while its connection is the newest, after that announced a version, is stored if and only if the version is supported; one left over from an older connection always is. |
| Ingest.StaleFrameIsStored | internal/ingest/pipeline.go:296-305 | A frame of a connection with an unsupported version, handled after the next connection began, is stored. |
| Ingest.FramesAccounted | internal/ingest/pipeline.go:62-78 | The counters are the numbers of frames handled, undecodable, stored and refused, and with the version and boundary frames the last three make up the first. |
| Ingest.DuplicatesAccounted | internal/ingest/pipeline.go:248-290 | The counter of duplicates is the number of entries in stored messages that a later one of the same good replaced. |
| Ingest.PutsAreStored | internal/ingest/pipeline.go:227-246 | The state was given exactly the snapshots counted as stored since the last session boundary, in order, each with one entry per good. |
| Dedup.AllAgree | internal/store/write.go:40-54 | The collapsed message, the sorted copy, the backward search and the row left by INSERT OR REPLACE hold the same entry of a good, or none holds one. |
| Dedup.SortedIgnoresCollapse | internal/server/metrics.go:147-170 | Sorting a collapsed list gives what sorting the original gives. |
| Dedup.SortedIsStrict | internal/server/metrics.go:155-170 | The sorted copy is strictly ascending by product. |
| Dedup.CollapseKeepsOrder | internal/ingest/pipeline.go:248-256 | The entries kept stand in the order in which they were sent, each the last of its good. |
| Dedup.CollapsedKeepsLast | internal/ingest/pipeline.go:248-256 | Collapsing keeps, in the order sent, the entries that no later one of the same good follows, and no other. |
| Dedup.CollapseDuplicates | internal/ingest/pipeline.go:257-290 | The in-place filter keeps the last entry of every good and counts the others. |
| Dedup.SortedCopy | internal/server/metrics.go:155-170 | The stable sort and in-place compaction of a copy. |
| Dedup.FindLast | internal/server/sources.go:203-210 | The backward loop finds the last entry of a good. |
| LanListener.LanMode.Enable | internal/server/lan.go:227-286 | Against everything others may do between its critical sections, enabling succeeds, or finds LAN mode enabled or the server closing, or says why it cannot: no address, else a port that was still unset, else an address that cannot be bound. |
| LanListener.LanMode.EnablePublishStep | internal/server/lan.go:270-277 | A final close that came in between is not overtaken: the listener just bound is dropped. |
| LanListener.LanMode.Disable | internal/server/lan.go:291-307 | Disabling leaves LAN mode off. |
| LanListener.LanMode.CloseAll | internal/server/lan.go:309-317 | Once the final close has returned LAN mode is off for good. |
| LanListener.EnabledIsOpen | internal/server/lan.go:134-141 | Whenever opMu is free, LAN mode is enabled exactly when there is a server, whose listener is the only published one; as many listeners are open as that makes, one or none, exactly when no goroutine is still to call Serve on a closed server. |
| LanListener.FinalIsClosedIff | internal/server/lan.go:309-317 | After the final close no listener is open if and only if every goroutine started has called Serve. |
| LanListener.LingersAfterClose | internal/server/lan.go:279-279 | A listener whose goroutine is scheduled late is still open after the final close. |

## Left out

- AlertEngine.MeanOf: means are exact; floating-point rounding is not modelled, here or in the SQL means, which sum in any order.
- AlertEvents.OpenDeficitIsCurrent: the Detail texts of alerts and the trimming of island names are left out; no decision depends on them.
- WireCodec.Encode: messages of a type unknown to the encoder are not representable; error texts are reduced to their kind.
- HistoryTables.HistoryStore.WriteSnapshots: columns hold the entries as sent; that SQLite stores NaN as NULL and so refuses the batch is one of the ways in which a write may fail.
- Compaction.Conserves: rates are real numbers, so rows with infinite values are not covered; nor are ranges that end before the epoch.
- CompactionWindows.AlwaysApartIff: measurements are not older than the epoch and compaction times never run backwards; here and in CompactionLives one set of options is used throughout.
- BatchWriter.Run: log lines, the flush timeout and the interval are steps that happen or not.
- EventStream.Server.CatchUpClient: status and snapshot frames are opaque and share the queue; heartbeats and failed writes to a client are left out.
- Delivery.TableShowsActive: says nothing of a history that refused a record or in which a write failed; there the table follows the writes that succeeded and can be wrong.
- LanListener.LanMode.Enable: an accept that fails by itself, which would end the listener while LAN mode stays on, is left out.
- Integer overflow of Go's int and time.Duration, time zones and monotonic clocks: times are unbounded integers.
- Nil maps and slices: absent maps read as empty ones.
- The grouping and ordering in possibleSources and the metrics text: library sorting and formatting.
- The browser's list fetch (refreshAlerts), its views, translations, notifications and wake lock.
- HTTP routing, host, origin and token rules, QR codes, JSON rendering of anything but alert values.
- SQLite itself, migrations, pragmas and write-ahead-log checkpoints: transactions are atomic changes of finite maps.
- Recordings and replay files, catalog lookup, tools, flags, address ranking and backoff times.
