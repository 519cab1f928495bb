# Cluster state sync: a verified model

Two or more Home Assistant nodes share a Valkey store. One of them leads: it
holds a lease, mirrors its tracked entities into a shared hash, publishes its
configuration as a content-addressed fileset and ships its long-term statistics.
When it is lost, a standby takes the lease, installs the fileset under its own
identity, starts, and restores the mirrored state. This project models that logic
and proves what it promises over every run; the store, Home Assistant, SQLite and
the shell's external commands are maps and failure oracles.

| file | component | what is proved |
|---|---|---|
| `Lease.dfy`, `Leadership.dfy` | the lease scripts, the two-step hold check | exclusion over every interleaving; a renewing holder keeps its lease; the maintenance hold freezes leadership |
| `Snapshot.dfy`, `Mirror.dfy` | entries on the wire, the revision-counter mirror | authenticated round trip; no lost update with changes and lost replies anywhere |
| `Restore.dfy`, `Boot.dfy` | the restore loop, the restore gate | exact accounting and effect; the restore reads before this node publishes |
| `Failover.dfy` | the composition | what the leader's home last reported is what the standby's home shows |
| `Fileset.dfy`, `Publisher.dfy` | scan and publisher | incremental equals full; no dangling reference in any intermediate state; one generation of rollback |
| `Includes.dfy` | the include closure | termination, single visit, exact reachability, the path laws |
| `Statistics.dfy` | statistics export and apply | by-name exactness, replay, convergence without gaps |
| `Identity.dfy`, `Swap.dfy` | the identity tool, the promotion script | the peer's identity is never installed; every reason and the marker; the exact condition of a clean swap; owners are kept |
| `GoBag.dfy` | the composition | what the leader's pass found on its disk is what the promoted standby runs |
| `Alerts.dfy`, `Gating.dfy`, `HoldText.dfy`, `ClockSkew.dfy` | the smaller state machines and the hold text | properties of whole histories, an exact round trip, error bounds |

Each protocol is a `State`, an `Event`, a total `Step` and `At(s, es, k)`, the
state after the first `k` of any sequence of events; a step that is not possible
changes nothing. Where the source updates an object in place there is a class,
and each of its methods is proved equal to a step or function of the
specification. Where a promise needs a condition, a lemma with a concrete run
shows it fails without.

Where the code and its documentation disagree the model follows the code:

- The promotion script's header says the marker is written on every degraded path
  and that every path exits 0. The container-running branch
  (`custom_components/cluster_state_sync/bundle.py:1566`) calls `mark` before it is
  defined and writes nothing (`Swap.MarkerIsTheFirstReason`); without a staged
  `.storage` the unset `OWNER[.storage]` aborts the shell with status 1
  (`Swap.WithoutStagedStorage`), and when the restore fails there, the node's own
  storage is set aside with nothing to replace it (`Swap.OwnStorageIsSetAside`; exactly
  when the storage is safe, `Swap.SafeWithoutStagedStorage`).
- `schema_version` (`custom_components/cluster_state_sync/statistics_sync.py:149-161`)
  says an unreadable schema, 0, fails the guard. `apply_payload` compares the two
  numbers: an unreadable side is refused if and only if the other side is readable
  (`Statistics.UnreadableSchemaGuard`), and 0 passes against 0
  (`Statistics.UnreadablePassesUnreadable`). Adopting a seed does refuse an unreadable
  one; that program is not part of this model.
- `async_is_held` (`custom_components/cluster_state_sync/leadership.py:124-126`) says
  failing toward "not held" can never promote anything. It promotes if
  and only if the lease call after the failed read gets through to a free lease
  (`Leadership.BlindCheckTakesExactlyAFreeLease`, with a run in
  `Leadership.BlindCheckTakesUnderAHold`).
- `clock_skew` says the round trip largely cancels. Agreeing clocks may report a whole
  round trip (`ClockSkew.AgreeingClocksMayReportASkew`); it cancels exactly when both
  answers fall equally far from their midpoints (`ClockSkew.RoundTripsCancelExactly`),
  and what two nodes can rely on is half the sum of their round trips, no less
  (`ClockSkew.GuaranteedExactly`).
- The restore gate holds back the scheduled flush only; the service, stop and unload
  flushes go around it, and only they do (`Boot.OnlyAnUngatedFlushIsSent`,
  `Boot.UngatedFlushHidesThePeer`).

`dafny verify dfyconfig.toml` checks the whole project.

## Model

| member | source | states |
|---|---|---|
| `Lease.LeaderKey.LeaseScript` | custom_components/cluster_state_sync/lease.py:21-31 | answers 0 exactly when a live key is another's, and then leaves it; otherwise the key is the caller's for the TTL from now |
| `Lease.LeaderKey.RenewOnlyScript` | custom_components/cluster_state_sync/lease.py:79-85 | renews one's own live key and never takes a free one |
| `Lease.LeaderKey.ReleaseScript` | custom_components/cluster_state_sync/lease.py:57-62 | deletes the key exactly when it is live and the caller's |
| `Lease.LeaderKey.ForceScript` | custom_components/cluster_state_sync/lease.py:44-47 | overwrites whatever is there |
| `Leadership.LeadershipMonitor.FromLease` | custom_components/cluster_state_sync/leadership.py:135-151 | "leader" only if the call reached the server, the reply came back and the script selected by the hold said yes; then, and only then or when just the reply was lost, the key is this node's for 30 seconds: a live key must be its own, a free one is taken only when not held |
| `Leadership.GrantPersists` | custom_components/cluster_state_sync/lease.py:21-31 | an unexpired grant that nobody ended keeps the key in the grantee's name for its whole TTL, over every interleaving |
| `Leadership.RenewalSucceeds` | custom_components/cluster_state_sync/lease.py:26-28 | a check of the node the live key names, held or not, leaves the key in its name for a full TTL from now |
| `Leadership.RenewingHolderKeepsTheLease` | custom_components/cluster_state_sync/lease.py:21-31 | over every run, a node whose checks get through less than a TTL apart is the key's owner at every instant, until it releases or another node forces |
| `Leadership.WholeCheckExactly` | custom_components/cluster_state_sync/leadership.py:110-151 | a check in one go grants the lease if and only if the live key is its node's already, or no key is live and no hold is seen, the shared one up to its time |
| `Leadership.CallsTakeEffect` | custom_components/cluster_state_sync/lease.py:44-62 | a release frees the key of its own node only, a force overwrites any, and a call that is lost leaves the key |
| `Leadership.SharedHoldLastsItsTime` | custom_components/cluster_state_sync/backend.py:887-938 | a shared hold stands from the step that sets it exactly until its time is up, if it has one, unless set anew or cleared |
| `Leadership.KeyIsTheHolder` | custom_components/cluster_state_sync/backend.py:819-885 | the key names a node if and only if the history says it was granted the lease within the last TTL and has not given it up |
| `Leadership.AtMostOneHolder` | custom_components/cluster_state_sync/lease.py:21-85 | at most one unexpired, unreleased grant exists at any instant of any run |
| `Leadership.Exclusion` | custom_components/cluster_state_sync/lease.py:21-85 | between a grant to one node and a later unforced grant to another lies the first node's own release or its full TTL |
| `Leadership.ForceOverridesALiveLease` | custom_components/cluster_state_sync/lease.py:44-47 | a concrete run in which force breaks exclusion: the no-force condition is needed |
| `Leadership.ChecksStaySettled` | custom_components/cluster_state_sync/leadership.py:114-145 | while the hold stays visible, no check in flight can turn into a take |
| `Leadership.HoldFreezesLeadership` | custom_components/cluster_state_sync/leadership.py:114-145 | once the hold is visible and earlier checks have finished, the holder stays the same or becomes none |
| `Leadership.CheckSampledBeforeTheHoldStillTakes` | custom_components/cluster_state_sync/leadership.py:137-145 | the sampling gap: a check that looked before the hold landed takes the free lease after it |
| `Leadership.TakesExactlyAFreeLease` | custom_components/cluster_state_sync/leadership.py:135-145 | a check makes its node a new holder if and only if the call gets through, its reads answered "not held" and the lease is free at that moment |
| `Leadership.BlindCheckTakesExactlyAFreeLease` | custom_components/cluster_state_sync/leadership.py:124-133 | in every run, a check whose hold read failed promotes its node if and only if the call gets through to a free lease, whatever hold stands |
| `Leadership.BlindCheckTakesUnderAHold` | custom_components/cluster_state_sync/leadership.py:124-133 | such a run, under a standing hold |
| `Snapshot.FromJson` | custom_components/cluster_state_sync/backend.py:105-175 | with a secret, an accepted value is exactly one signed under it, for this entity, with no extra field |
| `Snapshot.AcceptedExactly` | custom_components/cluster_state_sync/backend.py:105-175 | a stored object is accepted exactly when its signature holds, its schema is not newer and its state and stamps are there; each field of the entry is the stored one or its default |
| `Snapshot.WireRoundTrip` | custom_components/cluster_state_sync/backend.py:90-175 | an entry reads back as written under the same secret on its own field, and under no other secret or field |
| `Snapshot.Domain` | custom_components/cluster_state_sync/__init__.py:2848-2850 | the part before the first dot |
| `Snapshot.ScopePrecedence` | custom_components/cluster_state_sync/__init__.py:2802-2850 | exclusion, and being the leadership entity, always win; naming an entity comes next; its domain decides the rest |
| `Mirror.StateMirror.SeedFromCurrentStates` | custom_components/cluster_state_sync/__init__.py:2248-2255 | captures every state in scope as reported, field by field, and keeps the others; the revision moves only when something is tracked |
| `Mirror.StateMirror.Record` | custom_components/cluster_state_sync/__init__.py:2258-2264 | folds one report in, field by field, under a new revision; every other entry stays |
| `Mirror.StateMirror.BeginFlush` | custom_components/cluster_state_sync/__init__.py:2266-2301 | what is sent, when anything is: the whole map less the oversized entries, with the revision of that moment |
| `Mirror.StateMirror.FinishFlush` | custom_components/cluster_state_sync/__init__.py:2303-2315 | only the revision actually written becomes clean; a failed write leaves everything dirty |
| `Mirror.FlushPayloadExactly` | custom_components/cluster_state_sync/__init__.py:2266-2301 | a flush sends exactly when something changed since the last one written and some tracked entry is within 16384 bytes; it sends each such entry and no other |
| `Mirror.TrackedIsLastReported` | custom_components/cluster_state_sync/__init__.py:2248-2327 | over every run an entity is mirrored exactly when it was reported, and its entry has the state, the attributes and both stamps of the last report |
| `Mirror.LastWriteIsWhatWasReported` | custom_components/cluster_state_sync/__init__.py:2266-2327 | the last applied write carries exactly what had last been reported, by the step it was sent at, about each entity small enough |
| `Mirror.MetaIsTheLastWrite` | custom_components/cluster_state_sync/backend.py:654-664 | the snapshot's metadata is the time of the last applied write and the node that wrote it |
| `Mirror.ExcludedIsNotMirrored` | custom_components/cluster_state_sync/__init__.py:2187-2190 | an exclusion keeps what it names from being recorded or seeded afterwards, and drops nothing mirrored before |
| `Mirror.RunKeepsInv` | custom_components/cluster_state_sync/__init__.py:2266-2315 | over every run with in-order landing, the hash holds the payload of the write that landed last |
| `Mirror.NoLostUpdate` | custom_components/cluster_state_sync/__init__.py:2266-2315 | a clean mirror means the shared hash holds its current entry for every tracked entity that fits, with changes at any point and replies lost |
| `Mirror.HashHoldsTheLastWrite` | custom_components/cluster_state_sync/backend.py:632-668 | in whatever order writes land, the hash holds the whole payload of the last one |
| `Mirror.PayloadIsTheMirrorWhenSent` | custom_components/cluster_state_sync/__init__.py:2276-2303 | every payload is the mirror, less the oversized entries, of the moment it was sent |
| `Mirror.CleanMeansFlushed` | custom_components/cluster_state_sync/__init__.py:2266-2315 | a clean mirror, after in-order landings, is what the last write held |
| `Mirror.OnlyAnAcknowledgedWriteCleans` | custom_components/cluster_state_sync/__init__.py:2303-2315 | only a positive reply to a write of the current revision makes a dirty mirror clean |
| `Mirror.OneOutstandingLandsInOrder` | custom_components/cluster_state_sync/__init__.py:2266-2315 | one flush at a time is enough for the landing order |
| `Mirror.OverlappingFlushesMayLoseAnUpdate` | custom_components/cluster_state_sync/__init__.py:2303-2309 | two overlapping flushes that land in the wrong order leave a clean mirror over a stale hash: the condition is needed |
| `Mirror.OtherFieldsSurvive` | custom_components/cluster_state_sync/backend.py:632-668 | the write merges: fields of entities this mirror never tracked survive every flush |
| `Restore.ReadSnapshot` | custom_components/cluster_state_sync/backend.py:671-715 | one unreadable value costs one entry, never the snapshot |
| `Restore.ReadableExact` | custom_components/cluster_state_sync/backend.py:671-715 | the entries read are exactly the stored fields that parse, each once |
| `Restore.ReadableInOrder` | custom_components/cluster_state_sync/backend.py:671-715 | and in the order the server listed the fields |
| `Restore.BucketsPartition` | custom_components/cluster_state_sync/__init__.py:2504-2616 | every entry lands in exactly one of nine buckets (the untracked one uncounted by the source); none is local-newer at boot |
| `Restore.FirstReasonDecides` | custom_components/cluster_state_sync/__init__.py:2504-2616 | the first of the eight checks, in their order, that objects to an entry decides its bucket; one none objects to is restored |
| `Restore.CountExactly` | custom_components/cluster_state_sync/__init__.py:2504-2616 | a bucket's count is the number of entries that went there |
| `Restore.OwnNodeCount` | custom_components/cluster_state_sync/__init__.py:2508-2510 | all entries are counted as own-node exactly when nobody else wrote any |
| `Restore.OthersUntouched` | custom_components/cluster_state_sync/__init__.py:2504-2616 | an entity without a restored entry keeps its state and its last command |
| `Restore.RestoredShows` | custom_components/cluster_state_sync/__init__.py:2574-2611 | every restored entry is what the home shows afterwards: the state and attributes, or the on/off command to an automation |
| `Restore.AgeDecides` | custom_components/cluster_state_sync/__init__.py:2493-2503 | the snapshot is refused for its age exactly when it is known to have been written more than the limit ago; one without readable metadata never is |
| `Restore.HomeAssistant.RestoreEntry` | custom_components/cluster_state_sync/__init__.py:2504-2616 | one entry: its bucket, and its effect only when restored |
| `Restore.HomeAssistant.RestoreFromSnapshot` | custom_components/cluster_state_sync/__init__.py:2436-2633 | refuses without a secret, starts cold without entries, refuses one written more than the limit before now, leaving the home untouched; otherwise applies the first 5000 entries with exact counts, and `peer_snapshot` is true exactly when another node wrote some entry |
| `Boot.ReadSeesOnlyPeers` | custom_components/cluster_state_sync/__init__.py:1416-1482 | the snapshot the restore reads is exactly what the other nodes left, in every run where nothing goes around the gate before the read |
| `Boot.PeersOnlyIsLastWritten` | custom_components/cluster_state_sync/backend.py:632-668 | field by field, what the others left is the last write of another node, or what was there before |
| `Boot.SendsExactly` | custom_components/cluster_state_sync/__init__.py:1606-1629 | which flushes send, with anything to say: the scheduled one of a leader behind an open gate, a leader's service and stop flushes, the unload flush always |
| `Boot.GateOpensExactly` | custom_components/cluster_state_sync/__init__.py:1431-1482 | the gate is open if and only if the restore is over, however it ended, or the timeout fired |
| `Boot.PublishesAfterTheRestore` | custom_components/cluster_state_sync/__init__.py:1445-1461 | a restore that raised does not silence the node: the next leading tick with news sends it |
| `Boot.OnlyAnUngatedFlushIsSent` | custom_components/cluster_state_sync/__init__.py:1606-1629 | behind a closed gate this node sends something if and only if a service, leading stop or unload flush has something to say |
| `Boot.UngatedFlushHidesThePeer` | custom_components/cluster_state_sync/__init__.py:282-282 | a service flush that lands before the read leaves that restore, and a stop or unload flush the next boot's, this node's own entry, classified own-node |
| `Boot.RestoreGate.OnStart` | custom_components/cluster_state_sync/__init__.py:1434-1455 | the gate opens however the restore ends: normally, raising at the read, or raising after any number of entries, which stay applied |
| `Boot.RestoreGate.ScheduledFlush` | custom_components/cluster_state_sync/__init__.py:1606-1629 | sends nothing unless leading and released |
| `Failover.MirrorTracksItsOwn` | custom_components/cluster_state_sync/__init__.py:2318-2327 | a mirror tracks, and sends, only entries authored by its own node, with readable stamps; what it sends fits |
| `Failover.EligibleIsRestored` | custom_components/cluster_state_sync/__init__.py:2504-2616 | at boot, a peer's entry that fits is restored if and only if it is not implausibly future, in scope, not pinned and not refused |
| `Failover.EndToEnd` | custom_components/cluster_state_sync/__init__.py:2266-2616 | for every run of the leader, clean or dirty at the end and landing in any order, and every gated boot of the standby: an entry of the leader's last applied write is what the home shows after the restore exactly when the snapshot is not too old, the cap admits the entry and it is eligible; otherwise the home is untouched there |
| `Failover.CarriedOverByAge` | custom_components/cluster_state_sync/__init__.py:2436-2616 | in terms of the report and of time: shown exactly when the last write landed no longer ago than the limit, the entity is among the first 5000 and nothing on the standby keeps it out; otherwise the home is untouched there |
| `Failover.ReportedIsShown` | custom_components/cluster_state_sync/__init__.py:2248-2616 | for every run of the leader and every gated boot of the standby: what the leader's home had last reported when the last applied write was sent is what the standby's home shows, under exactly those conditions |
| `Failover.EndToEndWhenClean` | custom_components/cluster_state_sync/__init__.py:2266-2616 | in particular, after an in-order run that ends flushed: every entity that fits shows what the leader's home last reported about it, exactly when the last write is young enough and nothing on the standby keeps it out |
| `Fileset.Candidates` | custom_components/cluster_state_sync/fileset.py:158-230 | the floor, the referenced and the extra files that exist, none twice; the floor alone when following includes fails |
| `Fileset.QuickCheckExactly` | custom_components/cluster_state_sync/fileset.py:283-301 | a file is passed over exactly when its size, mode and time are those of its last entry, which is then carried on; every other one is described as it is and uploaded |
| `Fileset.UploadsExactly` | custom_components/cluster_state_sync/fileset.py:293-302 | what is uploaded is exactly the contents of the files not passed over |
| `Fileset.NothingToUpload` | custom_components/cluster_state_sync/fileset.py:283-301 | when no stat changed nothing is uploaded and no file need be readable |
| `Fileset.FullEntriesExactly` | custom_components/cluster_state_sync/fileset.py:293-301 | a scan from nothing describes every kept file by its path, content and stat |
| `Fileset.TotalSizeExactly` | custom_components/cluster_state_sync/fileset.py:279-281 | each existing candidate that is not excluded counts once, by its size |
| `Fileset.Scan` | custom_components/cluster_state_sync/fileset.py:233-303 | entries, bodies and total of one pass; it succeeds exactly when every file it has to read can be read and the total is within the cap |
| `Fileset.IncrementalEqualsFull` | custom_components/cluster_state_sync/fileset.py:283-301 | against entries that once described their files, the incremental scan equals the full one |
| `Fileset.IncrementalEqualsFullExactly` | custom_components/cluster_state_sync/fileset.py:283-301 | one incremental scan equals the full one if and only if every file the quick check lets through still is what its entry says |
| `Fileset.IncrementalRefinesFullOverHistory` | custom_components/cluster_state_sync/fileset.py:158-303 | so along any history in which a change of content shows in size, mode or time, with failed passes anywhere and candidates and exclusions changing from pass to pass |
| `Fileset.DishonestRewriteIsMissed` | custom_components/cluster_state_sync/fileset.py:249-254 | a rewrite that keeps all three goes unseen: the condition is needed |
| `Publisher.FilesetPublisher.Publish` | custom_components/cluster_state_sync/fileset.py:366-444 | one pass is a run of the protocol: it publishes exactly when the files can be read, the total fits and no blob or manifest write fails, and is refused exactly when it does not fit; a completed one leaves the manifest of the scanned disk and only two generations of blobs, a failed one leaves the publisher's memory as it was |
| `Publisher.FilesetPublisher.WriteFileset` | custom_components/cluster_state_sync/backend.py:948-978 | blobs first, manifest last; it succeeds exactly when no blob or manifest write fails, and otherwise leaves no manifest naming an unwritten blob |
| `Publisher.FilesetPublisher.PruneBlobs` | custom_components/cluster_state_sync/backend.py:1017-1036 | deletes every blob outside the two generations |
| `Publisher.NeverDangling` | custom_components/cluster_state_sync/fileset.py:413-433 | in every intermediate store state of every run, each reference of the stored manifest has its blob, with its content |
| `Publisher.TakeoverEstablishesInv` | custom_components/cluster_state_sync/fileset.py:331-364 | a fresh publisher may take over any store without dangling references |
| `Publisher.CarriesScan` | custom_components/cluster_state_sync/fileset.py:256-303 | every reference of a scan is in its bodies or already published |
| `Publisher.OneGenerationOfRollback` | custom_components/cluster_state_sync/fileset.py:431-433 | a reader of a completed manifest finds its blobs until a second later pass completes |
| `Publisher.SecondLaterPublishMayPrune` | custom_components/cluster_state_sync/fileset.py:431-433 | and after two it may not: the bound is tight |
| `Publisher.PassDanglesExactly` | custom_components/cluster_state_sync/fileset.py:413-433 | whatever its publisher remembers, a pass leaves a whole manifest if and only if every reference it does not itself carry is stored when it starts |
| `Publisher.ResumedPublisherDangles` | custom_components/cluster_state_sync/fileset.py:431-433 | the input: a publisher that resumes after another node has pruned publishes a dangling manifest |
| `Publisher.PullRebuildsTheScannedDisk` | custom_components/cluster_state_sync/scripts/fileset_pull.py:116-237 | a follower that pulls rebuilds byte for byte the files the leader's pass found |
| `Includes.Scan` | custom_components/cluster_state_sync/includes.py:135-187 | terminates on every configuration, cyclic or not, opens no file twice, raises exactly when a reachable file is not text, and otherwise opens each reachable file and reports exactly the in-tree targets, the escaping ones, the missing and the unreadable |
| `Includes.PlainIncludeResolves` | custom_components/cluster_state_sync/includes.py:165-165 | a plain relative include resolves beside the file that names it, a plain absolute one where it says |
| `Includes.ResolveAppend` | custom_components/cluster_state_sync/includes.py:165-165 | a longer include goes on from the directory a shorter one names |
| `Includes.ComponentLaws` | custom_components/cluster_state_sync/includes.py:165-165 | empty components and "." mean nothing, a name followed by ".." cancels, above the root is the root, and an absolute include does not depend on the file |
| `Includes.PlainIncludeIsFollowed` | custom_components/cluster_state_sync/includes.py:164-187 | a plain relative include of a reachable file in the tree is listed under its relative name, and the file, or all of the directory outside dotted components, is reached |
| `Includes.EscapingIncludeIsReported` | custom_components/cluster_state_sync/includes.py:166-168 | an absolute include outside the tree is reported with its file, and nothing is followed from it |
| `Includes.ReportExact` | custom_components/cluster_state_sync/includes.py:164-187 | any order that visits exactly the reachable files calls for an exact report |
| `Includes.MissingReportExact` | custom_components/cluster_state_sync/includes.py:157-181 | missing lists exactly the absent files and the absent included directories |
| `Includes.OutsideReportExact` | custom_components/cluster_state_sync/includes.py:164-168 | every escaping reference of an opened file is reported, and nothing else |
| `Includes.ProgressStep` | custom_components/cluster_state_sync/includes.py:142-185 | one turn of the worklist keeps the seen files reachable and closed up to the queue |
| `Statistics.ExportSince` | custom_components/cluster_state_sync/statistics_sync.py:164-195 | all metadata and every row above the floor under its name, each once, oldest first, with the watermark |
| `Statistics.ExportLeavesNothingBehind` | custom_components/cluster_state_sync/statistics_sync.py:182-192 | resuming the same database from the watermark ships nothing more; the watermark is the start of a shipped row, or the floor |
| `Statistics.Recorder.ApplyPayload` | custom_components/cluster_state_sync/statistics_sync.py:198-247 | refuses another schema; otherwise inserts exactly the growth it reports |
| `Statistics.ApplyByName` | custom_components/cluster_state_sync/statistics_sync.py:220-245 | exactly the described carried rows are added under their names, whatever the numeric ids; nothing already there changes |
| `Statistics.ReplayIsIdentity` | custom_components/cluster_state_sync/statistics_sync.py:205-207 | replaying a payload later changes nothing |
| `Statistics.FollowerExact` | custom_components/cluster_state_sync/statistics_sync.py:164-247 | windows in any order, with replays and gaps: the follower holds what it had plus exactly what they shipped, rows and metadata, each new record from the first window that had it |
| `Statistics.Converges` | custom_components/cluster_state_sync/statistics_sync.py:164-247 | without a gap the follower holds every leader row between the first floor and any applied watermark that was not backfilled below a watermark already read, with the leader's reading where it had none |
| `Statistics.AddedRowArrivesAboveTheFloor` | custom_components/cluster_state_sync/statistics_sync.py:182-192 | a row that appears between two reads arrives with the second if and only if it lies above the second's floor |
| `Statistics.BackfilledRowIsMissed` | custom_components/cluster_state_sync/statistics_sync.py:182-192 | a row backfilled below a watermark that the next window resumes from is missed, without any gap |
| `Statistics.UnreadableSchemaGuard` | custom_components/cluster_state_sync/statistics_sync.py:149-161 | two readable schemas must be equal; an unreadable one is refused if and only if the other side is readable |
| `Statistics.UnreadablePassesUnreadable` | custom_components/cluster_state_sync/statistics_sync.py:211-212 | 0 passes the guard against 0: a window of a leader without a readable schema is applied to a follower without one |
| `Statistics.GapLosesARow` | custom_components/cluster_state_sync/statistics_sync.py:84-88 | a floor above everything applied leaves a hole |
| `Identity.GraftKeepsBothHalves` | custom_components/cluster_state_sync/scripts/fileset_identity.py:277-360 | other integrations' entries cross unchanged and in order, own-domain entries are this node's one for one; refused exactly when the go-bag has more of them than a configured node |
| `Identity.SettingCrosses` | custom_components/cluster_state_sync/scripts/fileset_identity.py:363-388 | a setting is inherited exactly when it is cluster-wide and the leader carries it |
| `Identity.NothingPerNodeCrosses` | custom_components/cluster_state_sync/scripts/fileset_identity.py:107-150 | no per-node setting is ever inherited |
| `Identity.RehomeIsStable` | custom_components/cluster_state_sync/scripts/fileset_identity.py:277-388 | grafting again changes no setting anybody reads |
| `Identity.RehomedEntry` | custom_components/cluster_state_sync/scripts/fileset_identity.py:349-358 | the entry keeps its domain, data and the rest and takes the go-bag's id where there is one |
| `Identity.RestoreRefusesExactly` | custom_components/cluster_state_sync/scripts/fileset_identity.py:430-478 | the tool refuses exactly when there is no readable store or a configured node has fewer entries than the go-bag, and then leaves the store alone |
| `Identity.RestoreKeepsIdentity` | custom_components/cluster_state_sync/scripts/fileset_identity.py:430-478 | a restore that answers 0 or 2 leaves this node's identities in the store; 2 exactly when it has none |
| `Swap.PromotionScript.Promote` | custom_components/cluster_state_sync/bundle.py:1562-1870 | the emitted script, branch by branch, against its specification |
| `Swap.PromotionScript.InstallDirectory` | custom_components/cluster_state_sync/bundle.py:1679-1686 | copy beside, two renames; what is left when the copy or the rename fails |
| `Swap.MarkerIsTheFirstReason` | custom_components/cluster_state_sync/bundle.py:1570-1586 | the marker afterwards is the first reason of the run, and with none it is removed; the container-running branch marks nothing |
| `Swap.ReasonsExactly` | custom_components/cluster_state_sync/bundle.py:1588-1868 | with a staged storage, every reason a run marks, in order, from what fails: early refusals, the graft, the storage's owner, each directory, each file, and the age if nothing else |
| `Swap.StorageIsSafe` | custom_components/cluster_state_sync/bundle.py:1648-1730 | with a staged storage, at every exit the storage is exactly what it was (absent if it was), or the staged one with this node's identity grafted in |
| `Swap.NeverThePeersIdentity` | custom_components/cluster_state_sync/bundle.py:1648-1730 | so the entries this node leads with are the ones it had, in every setting that is not cluster-wide |
| `Swap.WithoutStagedStorage` | custom_components/cluster_state_sync/bundle.py:1712-1741 | without a staged storage directory, the whole outcome: where the tool can restore the live store every entry of it stays (and the shell aborts on the unset owner if nothing of that name was staged); where it cannot, the live storage is set aside as `.rejected` and a stale `.previous`, or nothing, takes its place |
| `Swap.SafeWithoutStagedStorage` | custom_components/cluster_state_sync/bundle.py:1712-1741 | the storage then keeps its files and every integration's entries if and only if: the tool can restore the live store and no staged file of its name lands in it; or the tool cannot, and the fallback is the node's own tree or there was no storage to lose |
| `Swap.OwnStorageIsSetAside` | custom_components/cluster_state_sync/bundle.py:1717-1727 | the losing input: the tool fails with no `.previous`, and the node comes up without the storage it had |
| `Swap.EveryEntryIsAttempted` | custom_components/cluster_state_sync/bundle.py:1743-1777 | each entry whose own commands succeed is installed, whatever happened to the others |
| `Swap.CleanExactly` | custom_components/cluster_state_sync/bundle.py:1779-1868 | no reason is marked, and the marker removed, if and only if every command succeeded and the go-bag is fresh |
| `Swap.CleanInstallsEverything` | custom_components/cluster_state_sync/bundle.py:1743-1777 | then every staged entry has reached its name under its captured owner (a file that meets a directory lands inside it), the old storage is kept beside the new, and nothing else moved |
| `Swap.CleanOwnership` | custom_components/cluster_state_sync/bundle.py:1640-1774 | when no reason is marked every staged entry, the storage too, belongs to whom it belonged to, or to the configuration's owner where that is not known; directories have the staged contents, the replaced ones are still there, and everything else is as it was |
| `Swap.OwnersAreKept` | custom_components/cluster_state_sync/bundle.py:1640-1774 | the same of each entry whose own commands succeed, in any run that gets as far as the entries |
| `Swap.FailedEntryStays` | custom_components/cluster_state_sync/bundle.py:1679-1686 | a directory whose copy fails, or that would replace a file, is left as it was in the promoted tree |
| `Swap.RefusedGraftIsRolledBack` | custom_components/cluster_state_sync/bundle.py:1712-1730 | a go-bag whose identity cannot be grafted is rolled back: storage and all else as before, the staged storage kept as the rejected one |
| `Swap.FileLandsAtItsName` | custom_components/cluster_state_sync/bundle.py:1763-1771 | in a clean run a staged file is at its own name if and only if no directory was there; otherwise its text is inside that directory |
| `GoBag.PullStraddlesOnePublish` | custom_components/cluster_state_sync/scripts/fileset_pull.py:189-195 | a pull whose blobs are fetched after at most one more pass has completed is whole, with the manifest's exact contents |
| `GoBag.PullsAllOrNothing` | custom_components/cluster_state_sync/scripts/fileset_pull.py:189-195 | a missing blob costs the whole pull, and only that does |
| `GoBag.StagedWhole` | custom_components/cluster_state_sync/scripts/fileset_pull.py:206-230 | staging loses nothing and moves nothing: every pulled path holds its text, the config-entries file its parsed entries |
| `GoBag.OnlyThePulledIsStaged` | custom_components/cluster_state_sync/scripts/fileset_pull.py:206-230 | nothing else is staged, and all of it is root's |
| `GoBag.InstalledText` | custom_components/cluster_state_sync/bundle.py:1743-1774 | an entry whose commands succeed holds after the script the text that was staged |
| `GoBag.InstalledStore` | custom_components/cluster_state_sync/bundle.py:1648-1730 | the store after the script holds the staged one's entries of every other integration, in order, and this node's own identities |
| `GoBag.StagedConfigurationCrosses` | custom_components/cluster_state_sync/bundle.py:1743-1774 | what was found on a disk, published and fetched whole has arrived at the same path, entry by entry, whatever happened to the others |
| `GoBag.ConfigurationCrosses` | custom_components/cluster_state_sync/bundle.py:1648-1774 | scan, publish, pull and swap together: over every run of the publisher with a pull that may straddle one more publish, what the leader's pass found on its disk has arrived at every path -- its text, or in the config-entries file every other integration's entries -- under the node's own identity |
| `Alerts.AlertRouter.RaiseCondition` | custom_components/cluster_state_sync/alerts.py:177-199 | a no-op while active; otherwise the edge, then one call per existing service exactly when the condition is chosen, outside its flap window and the home has started |
| `Alerts.AlertRouter.ClearCondition` | custom_components/cluster_state_sync/alerts.py:201-213 | the same for the all-clear, under the `recovered` choice and a window of its own |
| `Alerts.AlertRouter.AnnounceEvent` | custom_components/cluster_state_sync/alerts.py:226-238 | a push without a rate limit, subject to choice |
| `Alerts.AlertRouter.CheckForPromotion` | custom_components/cluster_state_sync/alerts.py:242-279 | announces a takeover, to every existing service, exactly when leading over a snapshot of another node not yet announced |
| `Alerts.AlertRouter.HomeStarted` | custom_components/cluster_state_sync/alerts.py:150-156 | delivers the held pushes in order |
| `Alerts.AlertRouter.Deliver` | custom_components/cluster_state_sync/alerts.py:363-379 | one call per configured service that exists, whatever the others do |
| `Alerts.AlertRouter.CallsForEach` | custom_components/cluster_state_sync/alerts.py:363-379 | service by service: one call to each that exists and none to one that does not |
| `Alerts.RaiseExactly` | custom_components/cluster_state_sync/alerts.py:177-199 | what a raise says: nothing while standing; otherwise the edge, and a push exactly when chosen and not pushed in the last 300 seconds, delivered when the home is up and else held if fewer than sixteen are |
| `Alerts.ClearExactly` | custom_components/cluster_state_sync/alerts.py:201-213 | the same of its all-clear, under the choice to hear of recoveries |
| `Alerts.AnnounceExactly` | custom_components/cluster_state_sync/alerts.py:216-238 | an event is pushed whenever it is chosen; an acknowledgement says nothing |
| `Alerts.PromotionExactly` | custom_components/cluster_state_sync/alerts.py:242-279 | a takeover is noticed exactly when leading over a snapshot some other node wrote, not the one last noticed; losing the lead forgets it |
| `Alerts.OnlyARecentPushSilences` | custom_components/cluster_state_sync/alerts.py:297-317 | over every run, a fresh edge the operator chose is announced unless the history holds a push of that edge less than 300 seconds old |
| `Alerts.RaisedOncePerEdge` | custom_components/cluster_state_sync/alerts.py:177-224 | between two announcements of one condition it was cleared or acknowledged, over every run, reloads included |
| `Alerts.ClearedOnlyAfterRaised` | custom_components/cluster_state_sync/alerts.py:201-213 | an all-clear answers an announcement that still stands |
| `Alerts.FlapWindowsAreRespected` | custom_components/cluster_state_sync/alerts.py:311-317 | two accepted pushes of one edge of one condition are at least 300 seconds apart |
| `Alerts.EveryPushWasChosen` | custom_components/cluster_state_sync/alerts.py:297-310 | nothing is pushed under a condition the operator had not chosen at the time |
| `Alerts.AllClearFollowsAtOnce` | custom_components/cluster_state_sync/alerts.py:286-296 | the two edges of a condition have separate windows: an alarm that clears at once still announces it |
| `Alerts.TakeoverAnnouncedOnce` | custom_components/cluster_state_sync/alerts.py:258-269 | the same source is announced again only after leadership was lost, another source came between, or the router was rebuilt |
| `Alerts.HeldPushesAreDeliveredInOrder` | custom_components/cluster_state_sync/alerts.py:350-362 | the pushes of the boot are held, the first sixteen, and delivered in that order after the start |
| `Gating.ServiceGate.ApplyRole` | custom_components/cluster_state_sync/gating.py:68-92 | one pass over the opted-in layers |
| `Gating.ServiceGate.RestoreAll` | custom_components/cluster_state_sync/gating.py:112-137 | undoes only what this gate did |
| `Gating.CallsAlternate` | custom_components/cluster_state_sync/gating.py:94-110 | effective calls strictly alternate, off first, and the gate believes a layer off exactly when the service is |
| `Gating.LeaderIsLeftAlone` | custom_components/cluster_state_sync/gating.py:68-92 | a node never seen as a follower issues no call |
| `Gating.PassSettlesOrRetries` | custom_components/cluster_state_sync/gating.py:94-110 | a pass whose calls succeed matches the role; a failed one changes no belief and is tried again |
| `Gating.UnloadLeavesNothingOff` | custom_components/cluster_state_sync/gating.py:112-137 | after an unload whose calls succeed every off has its on |
| `HoldText.OriginRoundTrip` | custom_components/cluster_state_sync/hold.py:70-95 | the origin reads back stripped unless the reason itself has an origin line |
| `HoldText.DeadlineRoundTrip` | custom_components/cluster_state_sync/hold.py:70-108 | and so does the deadline |
| `HoldText.ReasonRoundTrip` | custom_components/cluster_state_sync/hold.py:70-148 | the reason reads back if and only if its breaks are newlines and none of its lines begins like a structured one |
| `HoldText.BodyFormat` | custom_components/cluster_state_sync/hold.py:70-83 | the printed text line by line: the stripped reason, `origin: `, `expires: `, each where given |
| `HoldText.StripExactly` | custom_components/cluster_state_sync/hold.py:77-77 | stripping leaves a stretch of the text and takes only spaces |
| `HoldText.LineByLine` | custom_components/cluster_state_sync/hold.py:86-108 | a break ends a line whatever follows, CR LF is one break, and text without a break is one line |
| `HoldText.OperatorsHoldSurvives` | custom_components/cluster_state_sync/hold.py:261-302 | no sequence of automatic steps touches an operator's hold that lacks the marker |
| `HoldText.OperatorsHoldIsWritten` | custom_components/cluster_state_sync/hold.py:183-219 | an operator's hold replaces whatever was there and reads back its reason and origin, without a deadline |
| `HoldText.AutoHoldUndoesItself` | custom_components/cluster_state_sync/hold.py:245-302 | an automatic hold is removed by the next start-up, and its origin and deadline read back |
| `HoldText.AutoHoldIsWritten` | custom_components/cluster_state_sync/hold.py:245-281 | a hold is set across a restart wherever there is none, with the marker, the sentence, its deadline and origin; one that is there is left alone |
| `HoldText.HoldFile.SetAuto` | custom_components/cluster_state_sync/hold.py:261-281 | never overwrites an existing hold |
| `HoldText.HoldFile.ClearAuto` | custom_components/cluster_state_sync/hold.py:284-302 | removes a hold only if it carries the marker |
| `ClockSkew.Rounded` | custom_components/cluster_state_sync/backend.py:771-771 | rounds to three decimals, within half of one |
| `ClockSkew.RoundedExactly` | custom_components/cluster_state_sync/backend.py:771-771 | the nearest thousandth, and of two equally near the even one |
| `ClockSkew.OffsetIsWithinHalfTheRoundTrip` | custom_components/cluster_state_sync/backend.py:762-775 | a measured offset is within half its round trip, plus rounding, of the true one |
| `ClockSkew.Skew` | custom_components/cluster_state_sync/coordinator.py:147-171 | none below two nodes; otherwise the maximum pairwise difference, a member's number replacing its promoter's |
| `ClockSkew.MemberWins` | custom_components/cluster_state_sync/coordinator.py:158-167 | a member's own number wins, a promoter's counts where the member has none, and a node with neither is not counted |
| `ClockSkew.ReportedSkewIsWithinTwiceTheBound` | custom_components/cluster_state_sync/coordinator.py:147-171 | the skew reported over measured offsets, members laid over promoters, is within twice the largest single bound (half a round trip plus rounding) of the true one |
| `ClockSkew.SkewIsWithinTwiceTheError` | custom_components/cluster_state_sync/coordinator.py:147-171 | the widest differences of two sets of offsets that agree within an error differ by at most twice that error |
| `ClockSkew.TwiceTheErrorIsReached` | custom_components/cluster_state_sync/coordinator.py:169-171 | and opposite errors of that size reach it |
| `ClockSkew.AgreeingClocksMayReportASkew` | custom_components/cluster_state_sync/coordinator.py:151-153 | an input: two agreeing clocks measured over round trips of 2k seconds, one answered at once and one at the last moment, report a skew of 2k |
| `ClockSkew.RoundTripsCancelExactly` | custom_components/cluster_state_sync/coordinator.py:151-153 | rounding apart, the round trips cancel in a difference if and only if both answers fall equally far from their midpoints |
| `ClockSkew.GuaranteedExactly` | custom_components/cluster_state_sync/coordinator.py:151-153 | the error of a difference is within a bound wherever the answers fall if and only if half the sum of the round trips is |

## Left out

- Redis/Valkey clients, TLS, Sentinel, sockets: the store is a map with a clock, and a call may be lost on the way or on the way back.
- Cryptography: a signature and a blob reference are injective functions of what they are computed over; sealing is an authenticated pair.
- Leadership from an entity or configured as always: no protocol to prove anything about; the lease source is modelled.
- Snapshot.FromJson: an object whose fields have unexpected JSON types counts as malformed; attributes that JSON changes (tuples, non-string keys) are not modelled, so the round trip is of entries whose attributes JSON represents.
- Mirror.NoLostUpdate: an entity deleted in Home Assistant, or excluded after it was tracked, stays tracked and in the hash, as in the source; peers writing the same hash at the same time are not part of this lemma, because snapshot writes are not fenced by the lease.
- Failover.EndToEnd: assumes that only the lost leader writes the snapshot before the standby reads it, and a shared non-empty secret, as the restore itself does. Writes of the leader that land after the standby's read come too late for it.
- Leadership.HoldFreezesLeadership: assumes no lease call gets through on a hold read that failed, and that nobody forces the lease.
- Restore.HomeAssistant.RestoreEntry: the order of service calls the home executes later (they are not awaited) is not part of this model; a command is what was asked for.
- Fileset.Scan: exclusion by glob patterns is a set of excluded paths; a file that changes between its `stat` and its read is not modelled.
- Publisher.NeverDangling: assumes one live publisher at a time, each starting with empty memory (a restart is an event); commands of an abandoned pass that the server applies later are not modelled.
- Manifest and statistics payload serialisation (JSON, gzip): string generation without a deep property.
- Includes.Scan: symbolic links and the YAML grammar; a file parses, giving its includes in order, or does not, or is not text in the expected encoding.
- Statistics.ExportSince: the two SELECTs are one consistent read; duplicate keys in a database, floating-point time and SQLite itself are not modelled. Writing the seed database is left out.
- Swap.PromotionScript.Promote: the recorder hand-over (it only logs), names containing white space, links, a failing removal, and a failing write of the marker. The owner of a tree is one value for all of it, and a copy that fails leaves whatever `torn` says.
- Swap.CleanExactly: assumes no staged name is another staged name with `.new` or `.previous` appended, and a staged `.storage` directory.
- Statistics.Converges: assumes leader rows never change, windows without a gap, and a row not backfilled below a watermark already read; `GapLosesARow` and `BackfilledRowIsMissed` show what happens otherwise.
- Identity.RestoreKeepsIdentity: entries are compared by position, as the tool pairs them.
- GoBag.ConfigurationCrosses: how a config-entries file's text becomes its entries is a parameter; file modes and a pull that fails to authenticate are left out; no path is both a file and a directory of others, as on any disk.
- Alerts.AlertRouter.HomeStarted: runs the listener without a pause; the interleaved form is the protocol's `Drain` step. Persistent notification cards follow the raised and cleared edges and have no state of their own here.
- Gating.CallsAlternate: passes do not overlap, and a call that raised is taken not to have had its effect.
- HoldText.ReasonRoundTrip: file encoding and the newline translation of text files are left out.
- ClockSkew.OffsetIsWithinHalfTheRoundTrip: clocks run at the same rate during one exchange; arithmetic is over reals.
- The device pre-flight, the host promoter, firewall rules, dashboards, config flow, repairs, diagnostics, areas and ingress checks: plumbing or string generation.
