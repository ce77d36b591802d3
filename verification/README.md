# Proofs about the archive's data path

agentic-stats keeps every line an AI assistant writes, on every machine, and every
machine ends up with every other machine's lines. This project models the parts
that make that true and proves what they promise:

- **Replication.** Each node numbers the records it collects, one log per origin.
  Nodes exchange one watermark per origin and stream what the other lacks, over
  connections or through a store of named objects; bucket digests expose two
  machines that share an origin.
- **Collection and re-extraction.** Files are tailed in bounded reads, lines are
  uploaded in batches, and a cursor advances only after the upload was
  acknowledged. A second walk re-derives columns from archived bodies and keeps
  marks of how far it came.
- **Derivation.** One row per API request, usage split between pull requests, a
  day's cost stacked six ways, and a project for every working directory.

## Layout

| files | what they hold |
|---|---|
| `sets.dfy`, `totals.dfy` | extremes of sets; sums over sets and rows |
| `records.dfy`, `digests.dfy`, `store.dfy`, `gaps.dfy`, `recognition.dfy` | the table of records, its keys and ordered reads, bucket digests, the two append paths, which lines they store |
| `exchange.dfy`, `liveness.dfy`, `delivery.dfy`, `convergence.dfy`, `exposure.dfy`, `accounting.dfy`, `gossip.dfy` | one exchange between two nodes, step by step: it ends, what it delivers, how forks surface, what it counts, how a mesh converges |
| `keys.dfy`, `bridge.dfy`, `bundles.dfy`, `frames.dfy` | object keys, publishing and fetching bundles, framing on a stream |
| `replicas.dfy`, `sessions.dfy`, `storage.dfy`, `errands.dfy`, `network.dfy` | the whole mesh as one step system, and the invariant of every reachable state |
| `reachable.dfy` | what that invariant means for gossip, lag and re-extraction |
| `tail.dfy`, `collection.dfy`, `collector.dfy` | lines, cursors, collection passes |
| `extraction.dfy`, `reprocess.dfy` | columns, marks, passes |
| `projects.dfy`, `resolution.dfy`, `placement.dfy` | names in paths; projects over a set of directories; what that means for worktrees and containment |
| `requests.dfy`, `pricing.dfy`, `summary.dfy`, `deliveries.dfy`, `daily.dfy`, `billing.dfy` | the request fold, prices, the three reports, and what they say of the archive's lines |

`dafny verify dfyconfig.toml` checks everything.

## How the code is modelled

- The SQL table is a map from (origin, sequence) to a record; a transaction is one
  atomic step. The two partial unique indexes of the first migration are modelled
  as they are written, including that SQL never finds two NULLs equal.
- A digest stands for the content it hashes, so two equal digests mean equal
  content: SHA-256 is taken to be injective. The message encoding and the sealer
  are taken to be invertible. `Identify`, the line hash, the file fingerprint and
  the price lookup are functions about which nothing is assumed.
- Money and shares are real numbers; sequences and token counts are unbounded
  integers, with the 64-bit range stated where a key's format depends on it.
- An exchange is four goroutines. A step is one digest query, one `Since` together
  with the write of its frame, or one read together with the append of what was
  read. A frame written is unread until the peer reads it; with a bounded channel
  the writer's next step waits for room, and with capacity zero for the reader.
- In the mesh (`network.dfy`) any number of exchanges, publications, fetches,
  collections and re-extractions interleave, connections drop anywhere and lose
  what was not delivered, and a publication or fetch that fails is one that is
  never stepped again. Every node collects under its own origin, every node runs
  this code, and the objects that other meshes left in the shared store do not open.
- Collection works on files that are appended to, created, removed and replaced by
  files of another identity while a pass is under way. A pass may stop before or
  after every durable write.
- Case folding is ASCII; strings are sequences of characters.

## What the proofs turned up

- Appending the same batch again stores nothing exactly when every line without a
  session also has no uuid: the uuid index never refuses a NULL session.
- A record whose line is already held under another sequence is dropped and the
  ones after it are not, so a replica's watermark passes a sequence it does not
  hold. The next stretch keeps a replica gap-free exactly when that does not occur.
- One exchange is not always enough to expose a fork. Between gap-free archives a
  disagreement is noticed, on both sides at once, exactly when the two are level, or
  its bucket or an earlier one has a disagreement and both have filled it. One line against two under one origin is a case that is missed; two
  exchanges always suffice.
- Right after an exchange the health report's lag still goes by the vector the peer
  announced before it, and shows this side ahead by what it has just sent.
- Bundles list in sequence order as long as their numbers print equally wide, so
  below 10^12. Beyond it two bundles list in order exactly when the smaller number
  does not exceed the leading digits of the larger one, and the first bundle with
  thirteen digits lists before the one it follows.
- A stream cut right after a frame's header is reported as the end of the stream,
  like a peer that hung up between two messages.
- A file whose platform gives no identity resumes after it grew exactly when it was
  at least 4096 bytes when read, or the hashes happen to coincide; a shorter one
  reads as replaced each time it grows, and is read from the start.
- When one file takes another's place and its lines fit a read, the pass ends for it
  with complete lines unread exactly when its first bounded read ends at the old
  cursor's offset and a newline is left behind it. Every other file that replaced
  one before the pass is collected whole.
- In the deliveries report `Sessions` is the count of the pull request's first row
  alone, and too low exactly when another session used only other models.
  `SharedSessions` sums requests, and is the number of sessions exactly when each
  made a single request under that model.
- The daily report leaves out the requests whose picked line has no date, and only
  those; the summary counts them.
- A record that fills a gap below the extraction mark is never re-extracted.
- `resolve` fails on a directory without a segment, such as a bare root, when the
  sessions that ran there shipped to a named repository; `of` has a guard for it.

## Model

| member | source | states |
|---|---|---|
| Records.WatermarkOf | internal/store/records.go:266-292 | over a gap-free origin the vector's entry is the number of records held |
| Records.AscendingLists | internal/store/records.go:296-331 | the ordered read lists every row above a sequence, once, ascending, and nothing else |
| Records.AscendingDense | internal/store/records.go:296-331 | over a gap-free origin the rows above a sequence are simply the next ones |
| Records.SinceIsNextStretch | internal/store/records.go:296-331 | a limited read skips nothing below its last row, and is empty only when nothing is left |
| Store.Archive.AppendLocal | internal/store/records.go:101-139 | the transaction leaves the table and the counts the batch specification gives |
| Store.LocalAppendExtends | internal/store/records.go:101-139 | a local batch extends the origin from its maximum without a gap, whatever duplicates it holds; stored and duplicates add up; no other row moves; both unique keys hold; every line is represented |
| Records.SameLineIff | internal/store/migrations/0001_init.sql:77-83 | the two partial indexes together take lines of one origin for one line exactly when they have the same uuid in the same session or, neither having a uuid, the same source, path, offset and hash |
| Recognition.LocalStoresIff | internal/store/records.go:119-137 | a line of a batch is left out if and only if a row of the origin, held or stored earlier in the batch, has its session and uuid or, without uuids, its place and hash; otherwise it is put as it is under the next sequence |
| Recognition.WholeBatchStoredIff | internal/store/records.go:119-137 | a batch is stored whole if and only if nothing held recognises a line of it and no line of it another; then each line is in a row of its own, in order |
| Recognition.DistinctUuidsAllStored | internal/store/records.go:119-137 | lines whose uuids differ from each other's and from all held of the origin are all stored, whatever sessions they are of |
| Recognition.DistinctOffsetsAllStored | internal/store/records.go:119-137 | so are lines without a uuid that were read at different offsets |
| Store.LocalReplay | internal/store/records.go:101-139 | re-collecting a batch stores exactly its lines that carry a uuid but no session |
| Store.LocalAppendIsIdempotent | internal/store/migrations/0001_init.sql:77-83 | a second append changes nothing if and only if no line has a uuid without a session |
| Store.NamelessIsStoredTwice | internal/store/migrations/0001_init.sql:77-83 | an input: a line with a uuid and no session, collected twice, is stored twice |
| Store.Archive.AppendRemote | internal/store/records.go:143-200 | the transaction leaves the table, quarantine and counts the batch specification gives, or on a record without origin or sequence changes nothing |
| Store.RemoteAppendMerges | internal/store/records.go:143-200 | stored, duplicates and forked add up to the batch; the last sequence reported is the highest new one; nothing held is overwritten; what is new was sent; the quarantine only grows, by records that disagree with what is held |
| Recognition.RemoteStoresIff | internal/store/records.go:160-198 | at a held position a record is only counted, and kept as evidence exactly if its hash differs; at a free one it is stored if and only if no row of its origin recognises its line |
| Store.RemoteReplayStoresNothing | internal/store/records.go:143-200 | any part of a batch sent again stores nothing |
| Store.CompatibleAppendIsUnion | internal/store/records.go:143-200 | records that do not conflict are merged by union and none is quarantined |
| Store.RemoteAppendsCommute | internal/store/records.go:143-200 | two batches without conflicts give the same archive in either order, re-extractable columns aside |
| Store.Archive.Digests | internal/store/records.go:367-407 | the single pass computes, for exactly the buckets the origin has rows in, the count and content of each |
| Gaps.AppendIsGapFreeIff | internal/store/records.go:184-191 | the next stretch of sequences keeps the replica gap-free if and only if no line of it is held under another sequence or comes twice |
| Gaps.CollisionLeavesGap | internal/store/records.go:184-191 | a colliding line leaves the watermark above a sequence that is not held |
| Digests.FindFirstMismatch | internal/mesh/sync/sync.go:309-325 | the loop, over the buckets in any order, finds the start of the lowest mismatching bucket, or -1 |
| Digests.FirstMismatchIsLowest | internal/mesh/sync/sync.go:309-325 | no mismatching bucket starts below the one found |
| Digests.DisagreementMismatches | internal/store/records.go:367-407 | over the same sequences, a disagreement makes its bucket mismatch |
| Digests.MismatchCovers | internal/mesh/sync/sync.go:287-325 | the rewind starts strictly before every sequence the two sides disagree about |
| Digests.NoMismatch | internal/mesh/sync/sync.go:309-325 | digests of one log, whenever each was taken, never mismatch |
| Exchange.VectorAt | internal/store/records.go:266-292 | reading the vector at any origin gives its watermark, zero where nothing is held; it has an entry for oneself and for exactly the origins of which something is held |
| Exchange.EndsReading | internal/mesh/sync/sync.go:400-428 | a second vector, a done frame and a batch with a malformed record each end the reading and change nothing else |
| Liveness.NeverStuck | internal/mesh/sync/sync.go:211-258 | until both senders and both receivers are finished some goroutine can move, for any channel capacity |
| Liveness.StepIsWork | internal/mesh/sync/sync.go:336-430 | every step of an exchange brings its end nearer |
| Liveness.ExchangeTerminates | internal/mesh/sync/sync.go:211-258 | no run of an exchange is longer than a bound fixed at its start, and a run that cannot go on has finished on both sides, capacity zero included |
| Liveness.RunCanFinish | internal/mesh/sync/sync.go:211-258 | every run of an exchange can be carried on until both sides have finished |
| Delivery.RunDelivers | internal/mesh/sync/sync.go:336-430 | throughout any exchange each side keeps its rows, new rows are the peer's, and what was due and passed has arrived or is in flight |
| Delivery.ExchangeOutcome | internal/mesh/sync/sync.go:336-430 | after a finished exchange every record that was due is held or kept as evidence, forked archives included |
| Convergence.BothReachTheMaximum | internal/mesh/sync/sync.go:211-258 | forked or not, both sides end gap-free at the higher watermark of every origin with the same positions |
| Convergence.LevelForkIsExposed | internal/mesh/sync/sync.go:287-325 | with level watermarks one exchange leaves each side holding the other's record of a disagreement as evidence and its own as it was |
| Convergence.ForksSurface | internal/mesh/sync/sync.go:287-325 | after two exchanges every disagreeing sequence is exposed on both sides, nothing else was quarantined and no row was lost |
| Exposure.ForkIsNoticedIff | internal/mesh/sync/sync.go:287-300 | one exchange leaves a side holding the other's record of a disagreement as evidence if and only if it already did or the two announcements make the other start sending below that sequence |
| Convergence.MismatchedIff | internal/mesh/sync/sync.go:309-325 | a bucket is taken for a fork if and only if two gap-free logs disagree in it and have the same positions there, being level or both past it |
| Exposure.ForkShowsIff | internal/mesh/sync/sync.go:287-325 | between gap-free archives one exchange leaves both sides with the other's record of a disagreement if and only if they had it or some disagreement lies in its bucket or an earlier one of which both hold the same positions |
| Exposure.PartialBucketHidesFork | internal/mesh/sync/sync.go:309-325 | while the side behind ends inside a bucket and no earlier bucket shows a fork, a finished exchange adds no evidence of a disagreement there to either side |
| Exposure.OneExchangeMisses | internal/mesh/sync/sync.go:309-325 | an input: one line against two under one origin, differing in the first; whatever the run, both quarantines end empty |
| Exposure.TwinsCanExchange | internal/mesh/sync/sync.go:211-258 | that exchange exists, over any capacity |
| Accounting.LagOneWay | internal/mesh/health.go:222-242 | one loop of `lag`, over the origins in any order, is the sum of the excesses |
| Accounting.Lag | internal/mesh/health.go:222-242 | behind and ahead are the two sums, or both zero without a readable vector |
| Accounting.AheadCountsRows | internal/mesh/health.go:222-242 | between gap-free archives the reported lag is the number of records one holds and the other lacks |
| Accounting.EveryExchangeCounts | internal/mesh/sync/sync.go:412-420 | at any moment of any exchange, forks included, stored is the growth of the table, forked that of the quarantine and duplicates all else received; at the end that is all the peer sent |
| Accounting.PeacefulExchange | internal/mesh/sync/sync.go:211-300 | without forks both end at the per-origin maximum with the same rows, each sent exactly what it was reported ahead by, the peer stored exactly that, nothing was a duplicate or forked, and neither is ahead any more |
| Accounting.SecondExchangeIsSilent | internal/mesh/sync/sync.go:211-300 | an exchange with nothing collected since the last sends nothing and changes neither archive |
| Accounting.StaleLag | internal/mesh/health.go:222-242 | going by the vector announced before the exchange, this side is ahead by exactly what it sent |
| Gossip.StaysForkFree | internal/mesh/sync/sync.go:211-258 | an exchange keeps a fork-free, gap-free mesh so |
| Gossip.ExchangeMakesProgress | internal/mesh/sync/sync.go:336-369 | an exchange between replicas with different positions strictly decreases the number of missing records; one between replicas with the same positions leaves the mesh as it was |
| Gossip.ExchangeExists | internal/mesh/sync/sync.go:211-258 | any two nodes can exchange, over a channel of any capacity, and come to an end |
| Gossip.NothingMovesIff | internal/mesh/sync/sync.go:211-258 | every finished exchange between two nodes leaves the mesh as it was, or leaves as many records missing, if and only if the two hold the same positions |
| Gossip.RestMeansConverged | internal/mesh/sync/sync.go:211-258 | over connected links every finished exchange over every link leaves the mesh as it was if and only if all nodes hold the same records, which is if and only if nothing is missing |
| Gossip.GossipConverges | internal/mesh/sync/sync.go:211-258 | however exchanges are scheduled, no more of them change anything than records are missing at the start, no record is lost, and once none over connected links can, every node holds every record any node began with |
| Replicas.StretchAppends | internal/store/records.go:143-200 | a stretch of a log is appended whole to a copy of it: nothing refused, nothing quarantined |
| Replicas.SinceIsStretch | internal/mesh/sync/sync.go:346-366 | a batch read above a sequence is the next stretch of the origin's log |
| Sessions.StartIsReached | internal/mesh/sync/sync.go:287-300 | between announcements that are still true, sending starts no higher than what the peer already holds |
| Sessions.SendKeepsEnd | internal/mesh/sync/sync.go:336-370 | whatever a sender does next, what it has written stays in order and its announcement true |
| Sessions.PopKeepsEnd | internal/mesh/sync/sync.go:373-430 | reading the oldest frame leaves the rest of the queue following what the reader then holds |
| Errands.ErrandKeepsOrder | internal/bridge/bridge.go:127-205 | any step of any publication or fetch keeps replicas, shared store, and all publications and fetches under way in order |
| Network.StepKeepsInv | internal/mesh/sync/sync.go:211-430 | every step of the mesh keeps the invariant |
| Network.ReplicasArePrefixes | internal/mesh/sync/sync.go:336-430 | in every reachable state a replica's records of an origin are exactly the first so many of that origin's log, that number is the vector's entry, and nothing was ever quarantined |
| Network.NoInsertIsLost | internal/store/records.go:184-191 | after reading a batch in any reachable state every record of it is held as sent |
| Reachable.ReachableIsForkFree | internal/mesh/sync/sync.go:211-258 | every reachable mesh is fork-free and gap-free, which is what the results on gossip ask for |
| Reachable.ReachableIsPeaceful | internal/mesh/sync/sync.go:211-258 | any two nodes of a reachable mesh meet the terms of the results on lag and on what an exchange sends |
| Reachable.ReachableRestsIffConverged | internal/mesh/sync/sync.go:211-258 | in a reachable mesh over connected links no exchange can change anything if and only if every node holds everything |
| Reachable.StretchAppendsAbove | internal/store/records.go:143-200 | a batch of another origin goes above everything held of it |
| Reachable.StepAppendsAbove | internal/mesh/sync/sync.go:373-430 | whatever the mesh does next, other than re-extracting it, an archive is only appended to above everything held, for every origin |
| Reachable.MarksHoldInTheMesh | internal/ingest/reprocess.go:186-229 | in every run of the mesh with passes of one node among everything else, that node's marks never retreat or overstate, for its own and for replicated origins |
| Keys.KeyRoundTrip | internal/bridge/bridge.go:271-296 | `parseKey` inverts `formatKey` for every origin, slashes included, and all non-negative 64-bit sequences |
| Keys.ParsesIffSpelled | internal/bridge/bridge.go:276-296 | `parseKey` accepts a key if and only if it is an origin, a slash, two 64-bit numbers around the first dash and the suffix, and says just that |
| Keys.IntegersRead | internal/bridge/bridge.go:287-294 | digits with or without a sign read as the number they spell, or as none beyond 64 bits |
| Keys.FormattedReads | internal/bridge/bridge.go:271-273 | every 64-bit number reads back as formatted |
| Keys.KeyOrder | internal/bridge/bridge.go:271-273 | below 10^12 byte order of one origin's keys is sequence order, both ways |
| Keys.KeyOrderIff | internal/bridge/bridge.go:271-273 | of two bundles of an origin the earlier lists first if and only if the numbers that tell them apart print equally wide, or the smaller does not exceed the larger's leading digits |
| Keys.KeyOrderEndsAtThePadding | internal/bridge/bridge.go:271-273 | an input: the first bundle of thirteen digits lists before the one it follows |
| Bridge.RangesHaveTheirOwnKeys | internal/bridge/bridge.go:271-273 | two ranges share a key only if they are the same |
| Bridge.ByteOrderIsSequenceOrder | internal/bridge/fsbackend/fsbackend.go:109-144 | a listing in byte order is in sequence order while the padding suffices |
| Bridge.Bridge.ListRanges | internal/bridge/bridge.go:253-267 | the loop records what the specification of published ranges does |
| Bridge.RangeIsListed | internal/bridge/bridge.go:253-267 | a recorded range is that of some object |
| Bridge.RangesAreFurthest | internal/bridge/bridge.go:253-267 | every object's range is recorded, with an end at least as far |
| Bridge.Bridge.Publish | internal/bridge/bridge.go:127-163 | however many puts succeed, the store is what that many turns of the loop leave; without a failure the loop went to its end |
| Bridge.Bridge.Fetch | internal/bridge/bridge.go:166-205 | archive and counts are what taking the listed objects in turn gives, up to the first append that fails |
| Bundles.PublishKeepsStore | internal/bridge/bridge.go:127-163 | after any number of turns every bundle holds the stretch its key names and every one after the first follows a full one |
| Bundles.PublishCovers | internal/bridge/bridge.go:127-163 | a publication that ran to its end leaves every range in the store, and wrote nothing if and only if every range was there |
| Bundles.PublishedCountsRecords | internal/bridge/bridge.go:127-163 | however far a publication came, the number it reports is that of the records in the objects it added, and it changed no object that was there |
| Bundles.RepublishingIsQuiet | internal/bridge/bridge.go:127-163 | publishing again with no new records writes nothing |
| Bundles.FetchBringsEverything | internal/bridge/bridge.go:166-205 | after every object of a fetch all replicas are gap-free and nothing is quarantined; at its end the reader holds all that any object of the mesh names |
| Bundles.FetchTakesIff | internal/bridge/bridge.go:178-203 | an object is applied if and only if it is a range of another origin that ends above the vector, opens, and has only well-formed records; the counts grow by what it had and did |
| Bundles.RefetchingIsQuiet | internal/bridge/bridge.go:166-205 | fetching again what has not changed fetches nothing and changes nothing |
| Bundles.BridgeDelivers | internal/bridge/bridge.go:127-205 | after one node publishes and another fetches, the reader holds exactly the publisher's own records |
| Bundles.BundleKeepsPrefixIff | internal/bridge/bridge.go:186-190 | applying a bundle leaves the reader gap-free if and only if it starts no later than the record after the reader's last, so skipping an unreadable one that was needed does not |
| Frames.Conn.WriteFrame | internal/mesh/sync/frame.go:20-38 | an oversized message writes nothing; otherwise the whole frame is written, or on a failure a proper prefix of it |
| Frames.Conn.ReadFrame | internal/mesh/sync/frame.go:41-62 | the result is the message, or the error, that the bytes to come determine, and a message consumes exactly its frame |
| Frames.FrameReadsBack | internal/mesh/sync/frame.go:20-62 | a frame reads back as its message, whatever follows |
| Frames.CutStreamReads | internal/mesh/sync/frame.go:41-62 | a stream cut anywhere reads as exactly the messages whose frames are whole and then an error, which looks like a hang-up if and only if the cut is between frames or right after a header |
| Frames.StreamReadsBack | internal/mesh/sync/frame.go:20-62 | frames in a row read back as the same messages |
| Tail.FileStream.ReadLines | internal/source/tail.go:179-220 | the loop yields the complete lines of the window it read and where they end |
| Tail.FileStream.ReadFrom | internal/source/tail.go:74-116 | a read is the lines, next cursor and continuity the specification gives |
| Tail.LinesJoinBack | internal/source/tail.go:179-220 | the lines joined with newlines are the content up to its last newline |
| Tail.LinesAreAt | internal/source/tail.go:179-220 | each line is the file's bytes at its offset, starts a line, is followed by a newline and holds none |
| Tail.LinesStay | internal/source/tail.go:179-220 | what is appended later changes no line already complete |
| Tail.DrainedIsEverythingIff | internal/source/tail.go:199-220 | reading on until nothing comes yields every complete line if and only if each line and its newline fit one read |
| Tail.ReadsJoinIff | internal/source/tail.go:74-176 | a first read and one after the file grew give each complete line once if and only if the identity is known, the head was full, or it hashes as it did or to the value that stands for none |
| Tail.ContinuitySays | internal/source/tail.go:119-155 | a start is called truncated exactly when the file is shorter than the cursor, replaced only when it begins again, and appended only where the cursor was; the head is hashed anew unless the file is known to be the cursor's |
| Collection.ReadIsSafe | internal/source/tail.go:74-116 | the cursor a read returns is on a line boundary with every complete line before it archived or in the batch |
| Collection.SafeStays | internal/collector/collector.go:137-184 | no change to files, archive or batch makes such a cursor unsafe |
| Collection.NothingLeft | internal/collector/collector.go:177-182 | a read that found no further line that fits means all lines of any earlier content that fit are behind the cursor |
| Collection.ArchivedOnce | internal/store/records.go:101-139 | a line that has no uuid, or has a session too, is in exactly one row of the origin, by its uuid and session or by its place and hash |
| Collection.AccountedIsHeld | internal/ingest/ingest.go:45-94 | every line accounted for with nothing pending is in a row of the origin with its very bytes, place, hash and extracted columns, or a row with its uuid and session, or its place and hash, was taken for it |
| Collector.Collector.Ingest | internal/ingest/ingest.go:45-94 | of acknowledged lines the bytes and hash are in the row stored for each, or in the row that was taken for it; a refused or failed upload loses nothing |
| Collector.Collector.Commit | internal/collector/collector.go:210-218 | cursors are saved one by one in any order, the invariant holds between any two, and at the end all are saved |
| Collector.Collector.Flush | internal/collector/collector.go:187-207 | cursors are saved only after the batch is archived; on success the batch is empty |
| Collector.Collector.DrainStream | internal/collector/collector.go:137-184 | the invariant holds wherever it stops, and a stream drained without error has every line it had at the start archived or in the batch |
| Collector.Collector.CollectOnce | internal/collector/collector.go:109-134 | wherever a pass stops, every saved cursor is on a line boundary with every complete line before it archived; a pass without error leaves every complete line that a file of known identity had when it began archived, files that replaced others before the pass included, unless the first read of such a file stops short |
| Collector.Collector.CollectRepeatedly | internal/collector/collector.go:109-134 | over any number of passes, each cut off anywhere, the invariant holds and the archive only grows |
| Collector.DrainedDelivers | internal/collector/collector.go:177-182 | a read that brought nothing further, of a file not replaced since the pass began and not cut short, means all it had then is accounted for |
| Collector.RestartEndsEarlyIff | internal/collector/collector.go:179-181 | a file read again from its start ends the loop with complete lines unread if and only if the first bounded read ends at the old offset with a newline left behind it |
| Collector.RestartMayEndEarly | internal/collector/collector.go:179-181 | an input: a file whose second line is left unread |
| Extraction.UpdateImproves | internal/store/extraction.go:61-92 | the updates make the rows they name right and change nothing but columns |
| Extraction.ReextractIsRight | internal/ingest/reprocess.go:250-273 | the rows returned are of the batch and say what their bodies say; every other readable record already agreed with its body |
| Extraction.LocalAppendsAbove | internal/store/records.go:101-139 | collected lines get sequences above everything held |
| Extraction.GapKeepsTruthIff | internal/store/extraction.go:61-92 | a record added at a free sequence keeps the marks truthful if and only if it is above the mark or right already |
| Extraction.LateRecordIsOverstated | internal/store/extraction.go:61-92 | an input: a record of sequence 1 that arrives when the mark is at 2 |
| Reprocess.SaveKeepsTruth | internal/store/extraction.go:61-92 | writing a batch and its mark together leaves every record the mark covers right |
| Reprocess.MarksNeverOverstate | internal/ingest/reprocess.go:186-229 | over every run of passes, interrupted and resumed in any way, among appends above what is held, no mark retreats or passes its watermark and every record at or below it is right or unreadable; Reachable.StepAppendsAbove proves that of every append in the mesh |
| Reprocess.Reprocessor.Reextract | internal/ingest/reprocess.go:250-273 | the loop returns the disagreeing rows and counts the unreadable bodies |
| Reprocess.Reprocessor.SaveExtracted | internal/store/extraction.go:61-92 | all rows and the mark, which never moves down, or nothing |
| Reprocess.Reprocessor.WalkOrigin | internal/ingest/reprocess.go:199-226 | an origin walked to its end has its mark at the watermark and the counts of exactly the records above the old mark |
| Reprocess.Reprocessor.RunPass | internal/ingest/reprocess.go:186-229 | an uninterrupted pass ends with every mark at its watermark, every record right and exact counts of examined, updated and unreadable; with nothing owed it examines and changes nothing |
| Reprocess.PassWorkCounts | internal/ingest/reprocess.go:186-273 | what a pass reports counts the records above the marks: all of them, the readable ones whose columns are not what their bodies say, and the unreadable |
| Reprocess.PendingIsOwed | internal/store/extraction.go:100-116 | the reported number is how many records the next pass examines, and zero exactly when every mark is at its watermark |
| Projects.SeparatorsAreInterchangeable | internal/derive/project.go:366-377 | a path splits the same whichever separator it uses |
| Projects.SegmentsAreNames | internal/derive/project.go:366-375 | no segment is empty, a dot, or holds a separator |
| Placement.SegmentsOfParts | internal/derive/project.go:366-377 | the segments of a path are those of its parts around any slash or backslash, a part without either being one segment unless it is empty or a dot |
| Placement.FoldIgnoresCase | internal/derive/project.go:232-241 | names are one exactly when they differ at most in the case of letters |
| Projects.StripIsIdempotent | internal/derive/project.go:326-335 | a worktree inside a worktree resolves in one step |
| Placement.FoldIsLeftmost | internal/derive/project.go:346-362 | a name is cut at the leftmost hyphen or underscore that has a suffix behind it and no keyword before it, and nowhere if there is none |
| Projects.FoldIsIdempotent | internal/derive/project.go:346-362 | folding a folded name changes nothing, for suffix tests that take a separator and more |
| Projects.FoldSettlesIff | internal/derive/project.go:346-362 | one fold settles a name if and only if, from no earlier separator behind an unreserved name, the stretch up to the leftmost cut is a suffix by itself |
| Projects.FoldNeedNotSettle | internal/derive/project.go:346-362 | an input that takes two folds |
| Projects.DefaultsTakeMore | internal/derive/project.go:53-61 | the default patterns take a separator and more on names without newlines |
| Placement.DefaultPatterns | internal/derive/project.go:53-61 | the default patterns take digits or one of seven keywords, then nothing or a hyphen or underscore with no newline behind it |
| Resolution.ShippedIsEvidence | internal/derive/project.go:265-280 | the answer is the one spelling all repositories the path names agree on, or none |
| Placement.RepositoryName | internal/derive/project.go:311-320 | a repository is known by what comes after its last slash |
| Placement.HitSpells | internal/derive/project.go:282-308 | a repository shows for a path by the path's first segment that is its name, else by the front of the last segment that is its name before a hyphen or underscore |
| Resolution.ShippedIgnoresOrder | internal/derive/project.go:265-280 | repository order and repetition do not matter |
| Resolution.ShippedShortensThePath | internal/derive/project.go:265-308 | the answer is nothing, a segment of the path, or what its last segment says before a dash |
| Resolution.KeyIdentifiesPath | internal/derive/project.go:232-241 | two paths share a key if and only if they are one path, letter case aside |
| Resolution.Resolve | internal/derive/project.go:171-210 | the shortest-first pass gives each directory its own evidence, else the nearest enclosing project, else its folded name; it fails exactly when a directory without a segment has shipped to a named repository |
| Placement.WorktreeIsItsProject | internal/derive/project.go:171-210 | in any resolution a directory whose path has a worktree layout first at its n-th segment has the project of the directory of the first n segments, when the same repositories shipped from both |
| Placement.NestedWorktree | internal/derive/project.go:326-335 | so does any path put together from a project's, a layout and more |
| Placement.EvidenceDecides | internal/derive/project.go:187-188 | evidence of its own decides a directory, whatever contains it |
| Placement.ContainedFollows | internal/derive/project.go:212-224 | without evidence a directory gets the project of the nearest directory above it that has one, letter case aside, the first in byte order of several spellings |
| Placement.UncontainedIsNamed | internal/derive/project.go:192-195 | without either it gets the name of its own path |
| Placement.NamedAfterLast | internal/derive/project.go:192-195 | which is its last segment, cut as above, and nothing for a bare drive |
| Placement.LoneWorktree | internal/derive/project.go:35-39 | with the default layout a lone directory inside a worktree of a project is named for that project |
| Resolution.RootPanics | internal/derive/project.go:265-308 | an input: the root directory, with a pull request in a named repository |
| Placement.PanicsIff | internal/derive/project.go:282-308 | it fails for a path without a segment exactly when a repository that shipped from it has anything after its last slash |
| Resolution.ResolutionIsUnique | internal/derive/project.go:171-210 | a set of directories has at most one such answer, so their order cannot matter |
| Resolution.NonProjectsNeverClaim | internal/derive/project.go:202-207 | without a directory that is not a project every other is resolved as before |
| Requests.PickedIsLeast | internal/derive/derive.go:229-251 | the fold keeps the request's line with the least origin and sequence |
| Requests.PickOrder | internal/derive/derive.go:247 | of one origin's lines the lower sequence comes first; of two origins without colons the one that comes first followed by a colon |
| Requests.PickedIsEarliest | internal/derive/derive.go:229-251 | the line kept is the earliest of its origin, and no origin without a colon comes before its |
| Requests.PickKeyNamesTheRow | internal/derive/derive.go:247 | two lines never tie |
| Requests.FoldIgnoresOrder | internal/derive/derive.go:229-251 | the order lines come in does not change the row kept |
| Requests.FoldExists | internal/derive/derive.go:229-251 | any rows have a folded table, one request for each distinct id |
| Requests.FoldCounts | internal/derive/derive.go:229-251 | the folded table has as many rows as there are distinct request ids |
| Requests.FoldIsOrderless | internal/derive/derive.go:229-251 | rows and groups in any order give the same requests, as a multiset |
| Pricing.CostAdds | internal/pricing/pricing.go:102-114 | pricing a sum is summing prices |
| Pricing.CostGrows | internal/pricing/pricing.go:102-114 | more tokens never cost less |
| Pricing.EachKindHasItsPrice | internal/pricing/pricing.go:102-114 | tokens of one kind cost that kind's own price per million |
| Pricing.CostIsEachKindAtItsPrice | internal/pricing/pricing.go:102-114 | any usage costs each kind's tokens at its own price, and nothing without a price |
| Summary.GroupingKeepsCost | internal/derive/derive.go:264-303 | however requests are grouped, as long as a group has one model, costs and counts sum to the requests' |
| Summary.OrderChangesNoTotal | internal/derive/derive.go:229-303 | the order of rows and groups changes the tokens and count of no group of the fold |
| Summary.RepeatedLinesChangeNoTotal | internal/derive/derive.go:229-273 | further lines repeating the usage and model of requests already there change neither the number of requests, nor any model's tokens and count, nor the cost of the summary |
| Summary.DailySumsToSummary | internal/derive/derive.go:229-303 | over the fold of the archive's rows the days' costs and counts, with those of requests without a date, are the summary's cost and the number of distinct ids; the counts agree if and only if every request has a date |
| Summary.GridExists | internal/derive/derive.go:292-303 | any requests have a grid |
| Summary.UndatedIsInNoGrid | internal/derive/derive.go:292-303 | an input: an undated request, which the summary has and no grid does |
| Billing.GridRowIsOfLines | internal/derive/derive.go:229-303 | a row of the grid counts and sums the picked lines of its date, model, machine, session, directory and branch, and there is one |
| Billing.LineHasItsRow | internal/derive/derive.go:292-303 | every picked line with a date falls in exactly one row |
| Billing.DayIsOfLines | internal/derive/derive.go:229-303 | a day's cost and count are those of the picked lines whose capture time begins with its ten characters |
| Billing.SummaryIsOfLines | internal/derive/derive.go:229-273 | a model's row of the summary counts and sums the picked lines of that model, and the table costs what they do, each at its own model's prices |
| Deliveries.SumThenJoinIsJoinThenSum | internal/derive/derive.go:315-361 | of the split columns, totalling per session before the join gives what joining each request first would |
| Deliveries.UnsplitEitherWay | internal/derive/derive.go:315-361 | so it does of the columns that are not split |
| Deliveries.SharesSumToShipped | internal/derive/derive.go:315-361 | the unrounded shares of all pull requests are exactly the usage of sessions that shipped |
| Deliveries.BilledIsWithinShipped | internal/derive/derive.go:473-485 | after truncation the pull requests bill no more tokens of a kind than shipped, nor than the summary counts, and fall short by less than one token a row |
| Deliveries.ReportCostIsDelivered | internal/derive/derive.go:344-485 | the query's rows, priced one by one, cost what the pull requests bill over all models |
| Deliveries.DeliveredWithinSummary | internal/derive/derive.go:229-485 | over the archive's rows, folded and joined to their links, the cost of the query's rows is within the summary's cost over the same fold |
| Deliveries.Entries | internal/derive/derive.go:469-505 | each pull request that has a row is one entry with what its rows come to, and the total is the sum of all rows' costs |
| Deliveries.Deliver | internal/derive/derive.go:453-505 | on the query's rows over the archive the total is what the pull requests bill, within the summary's cost, and each entry counts every request of its sessions once, with their whole output |
| Billing.EntryIsOfLines | internal/derive/derive.go:229-361 | an entry counts the requests whose picked line is of a session that some line of the archive names with the pull request, and sums their output; each split column of a row is the sum of those lines' tokens over the number of pull requests their session is named with |
| Deliveries.EntryCountsSessionsIff | internal/derive/derive.go:493-503 | `Sessions` counts the sessions that touched a pull request if and only if all used its first row's model, and `SharedSessions` those that opened others if and only if each made one request under it |
| Deliveries.ReportExists | internal/derive/derive.go:315-361 | the query has an answer for any requests and links |
| Deliveries.SessionsFallShort | internal/derive/derive.go:493-503 | an input: two sessions under two models, one pull request, whose entry counts fewer than two |
| Deliveries.SharedCountsRequests | internal/derive/derive.go:493-503 | an input: one session of two requests and two pull requests, whose entries say more than one is shared |
| Daily.WeightsSumToOne | internal/derive/daily.go:78-176 | every way of dividing a row gives weights that sum to one |
| Daily.Divided | internal/derive/daily.go:231-250 | the loop's books hold, for each day and each key, what the pieces of cost come to |
| Daily.BookedBelongs | internal/derive/daily.go:78-176 | what is booked under a key on any days is what belongs there by the rows' own columns: their model, machine, branch, session, or directory's project, or an equal part for each pull request of the session, with one key for none |
| Daily.PiecesKeepDayCost | internal/derive/daily.go:231-250 | the pieces of a day come to the day's cost |
| Daily.Rank | internal/derive/daily.go:281-316 | a key is named exactly when fewer than six are ahead of it and it is not the catch-all; named totals never increase along the legend, equal ones are in byte order of their keys, nothing left out but the catch-all costs more than a named one, and the rest is one last segment if it is anything |
| Daily.Fold | internal/derive/daily.go:350-375 | the loop gives the shares of the specification, in legend order and without zeros |
| Daily.SharesSumToDay | internal/derive/daily.go:350-375 | a day's shares sum to all the day has, despite ranking, the catch-all and dropped zeros |
| Daily.LegendSumsOverDays | internal/derive/daily.go:281-316 | a segment's total is the sum of its shares over all days |
| Daily.DailyGrid | internal/derive/daily.go:379-422 | each day once, in the order the grid first has a row of it, with the sums of its rows |
| Daily.Stacked | internal/derive/daily.go:231-269 | for one dimension the shares of each day sum to its cost, every legend total is the sum of its shares, every named share and total is what belongs under its key by the rows' columns, segments descend, and there are at most seven |
| Daily.Report | internal/derive/daily.go:193-272 | the same for all six dimensions over the days of the grid |

## Left out

- Adversarial peers, TLS, the handshake, beacons, certificates, key derivation: the proofs are about nodes that run this code.
- SQLite, bbolt and rollback mechanics: a transaction is one atomic step on a map, and reading while writing is not modelled below that.
- Two goroutines inside one `Since` or one `AppendRemote`: each is one step.
- Convergence.ForksSurface: assumes no line of one archive sits at another position in the other, where an insert is dropped instead (see Gaps.CollisionLeavesGap).
- Network.ReplicasArePrefixes: assumes that a listing comes in sequence order; Bridge.ByteOrderIsSequenceOrder says when byte order is that.
- Liveness.ExchangeTerminates: with no other writer and no failure; a failing read or write only ends an exchange sooner, which Network covers.
- Bridge.Bridge.Publish: an object is named by the range its key parses to, so two different keys that parse alike, which only a person could write, are one object here; a bundle over the 256 MiB read limit is an unreadable one.
- Collector.Collector.CollectOnce: says nothing of a file that is replaced during the pass or has no known identity; a stat and the open that follows it are taken to see the same file.
- Files are taken to be append-only: an identity names one file for ever, so a device and inode used again for another file are not modelled (by Tail.KnownIdentityDecides such a file would be read on from the old cursor), nor is a file cut short in place, nor other content under a path of unknown identity.
- Collector.Collector.Ingest: a read of more than 50,000 short lines makes a batch that is always refused, so completeness is claimed only for passes without error.
- Resolution.Resolve: for directories without a NUL character, which no path has; Unicode case folding is not modelled.
- Deliveries.Entries: the final sort by cost is not modelled. An empty model stands for NULL, and labelling it `unknown` is left to the price lookup.
- Daily.Report: labels, notes, names of peers and the session-to-project naming are display only.
- The attributed ratio, cache savings, cache hit rate and inflation of the summary: quotients of the totals proved here.
- `of` on a single path: the same rules as `resolve`, with the guard it lacks.
- Collection statistics, restart logging and discovery of streams: counters and directory walks.
- Model-name normalisation and loading the price table: a trim and a suffix pattern.
- Dial backoff, supervision, resume detection, hostname sweeps, log rotation: timers and operating-system state.
- Release download, service installation, the command line, the HTTP interface and the dashboard: input and output.
- Version ranking, peer bookkeeping: single comparisons and upserts.
