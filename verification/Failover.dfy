/**
 The failover the system exists for, end to end: what the leader's mirror held at
 its last successful flush is what the promoted standby's home shows after its
 boot restore.
 */
module Failover {
  import opened Sequences
  import opened Wrappers
  import opened Snapshot
  import opened Restore
  import M = Mirror
  import B = Boot

  /** A mirror tracks only entries of its own node, with readable stamps. */
  predicate Authored(tracked: M.Entries, node: Node) {
    forall e :: e in tracked ==>
      && tracked[e].entityId == e
      && tracked[e].sourceNode == node
      && tracked[e].lastUpdated.Iso?
  }

  /** A payload holds only entries that fit. */
  predicate AllFit(payload: M.Entries) {
    forall e :: e in payload ==> WithinBudget(payload[e].attributes)
  }

  /** All a mirror tracks, and all it has sent, is its own; what it has sent fits. */
  predicate OwnOnly(s: M.State) {
    && Authored(s.memory.tracked, s.node)
    && forall id :: id in s.flights ==> Authored(s.flights[id].payload, s.node) && AllFit(s.flights[id].payload)
  }

  lemma StepKeepsOwnOnly(s: M.State, e: M.Event)
    requires OwnOnly(s)
    ensures OwnOnly(M.Step(s, e))
  {
  }

  lemma {:induction false} MirrorTracksItsOwn(s: M.State, es: seq<M.Event>, k: nat)
    requires k <= |es| && M.Fresh(s)
    ensures var t := M.At(s, es, k);
            OwnOnly(t) && t.node == s.node && t.secret == s.secret && t.cfg == s.cfg
  {
    if k > 0 {
      MirrorTracksItsOwn(s, es, k - 1);
      StepKeepsOwnOnly(M.At(s, es, k - 1), es[k - 1]);
    }
  }

  /** What the standby needs of one entry to take it over. */
  predicate Eligible(id: EntityId, e: SnapshotEntry, c: Context) {
    && e.lastUpdated.Iso? && e.lastUpdated.at <= c.now + 60_000_000
    && ShouldTrack(id, c.cfg, c.excludedIds)
    && !(Domain(id) == "automation" && id in c.pinned)
    && id !in c.refuses
  }

  /** At boot these are the only reasons left to skip a peer's entry that fits. */
  lemma EligibleIsRestored(id: EntityId, e: SnapshotEntry, c: Context)
    requires c.atBoot && e.sourceNode != c.nodeId && WithinBudget(e.attributes)
    ensures Classify(id, e, c) == Restored <==> Eligible(id, e, c)
  {
  }

  /** A hash holding the encoded entry, read under the same secret, lists it once. */
  lemma ListedOnce(hash: map<EntityId, Raw>, order: seq<EntityId>, secret: string, e: SnapshotEntry)
    requires NoDuplicates(order) && secret != ""
    requires e.entityId in order && e.entityId in hash && hash[e.entityId] == ToJson(e, secret)
    ensures var entries := Readable(hash, order, secret);
            && DistinctIds(entries) && (e.entityId, e) in entries
            && (|order| <= MAX_RESTORE_ENTRIES ==> (e.entityId, e) in Capped(entries))
  {
    ReadableExact(hash, order, secret);
    WireRoundTrip(e, secret, secret, e.entityId);
  }

  /** Restored exactly where the restore reaches it and does not skip it; elsewhere the
      home is untouched. */
  lemma TakesOver(entries: EntryList, meta: Option<M.Meta>, id: EntityId, e: SnapshotEntry, h: Home, c: Context)
    requires DistinctIds(entries) && (id, e) in entries && c.secret != ""
    ensures var after := AfterRestore(h, entries, meta, c);
            if !TooOldToRestore(meta, c) && (id, e) in Capped(entries) && Classify(id, e, c) == Restored
            then Shows(after, id, e)
            else SameAt(h, after, id)
  {
    if TooOldToRestore(meta, c) {
      return;
    }
    var n :| 0 <= n < |entries| && entries[n] == (id, e);
    var capped := Capped(entries);
    if (id, e) in capped && Classify(id, e, c) == Restored {
      var i :| 0 <= i < |capped| && capped[i] == (id, e);
      RestoredShows(h, capped, c, i);
    } else {
      forall j | 0 <= j < |capped| && capped[j].0 == id
        ensures Classify(id, capped[j].1, c) != Restored
      {
        assert entries[j] == capped[j] && j == n;
      }
      OthersUntouched(h, capped, c, id);
    }
  }

  /** The standby's boot, gated, up to the read. While it boots the lost leader's last
      writes may still land: `store` is what the other nodes make of it by then. */
  predicate Promotion(s: B.State, es: seq<B.Event>, store: M.Store) {
    && B.Booting(s)
    && B.Gated(s, es, |es|)
    && B.PeersOnly(s.mirror.store, es, |es|) == store
    && B.At(s, es, |es|).phase == B.Reading
  }

  lemma ReadSeesTheStore(s: B.State, es: seq<B.Event>, store: M.Store)
    requires Promotion(s, es, store)
    ensures B.Step(B.At(s, es, |es|), B.Read).seen == Some(store)
  {
    B.ReadSeesOnlyPeers(s, es, |es|);
  }

  /** What restoring from `store` makes of one stored entry: it is what the home shows,
      exactly when the snapshot is not too old, the entry is among those the cap admits
      and it is eligible; otherwise the home is untouched there. */
  predicate CarriedOver(store: M.Store, order: seq<EntityId>, h: Home, c: Context, id: EntityId, e: SnapshotEntry) {
    var entries := Readable(store.hash, order, c.secret);
    var after := AfterRestore(h, entries, store.meta, c);
    if !TooOldToRestore(store.meta, c) && (id, e) in Capped(entries) && Eligible(id, e, c)
    then Shows(after, id, e)
    else SameAt(h, after, id)
  }

  lemma StoredIsCarriedOver(store: M.Store, order: seq<EntityId>, h: Home, c: Context, e: SnapshotEntry)
    requires NoDuplicates(order) && c.secret != "" && c.atBoot
    requires e.entityId in order && e.entityId in store.hash && store.hash[e.entityId] == ToJson(e, c.secret)
    requires e.sourceNode != c.nodeId && WithinBudget(e.attributes)
    ensures CarriedOver(store, order, h, c, e.entityId, e)
  {
    ListedOnce(store.hash, order, c.secret, e);
    EligibleIsRestored(e.entityId, e, c);
    TakesOver(Readable(store.hash, order, c.secret), store.meta, e.entityId, e, h, c);
  }

  /** Every entry of the leader's last applied write is in the store, signed, its own. */
  lemma LastFlushedIsStored(ls: M.State, les: seq<M.Event>, id: EntityId)
    requires M.Fresh(ls) && id in M.LastFlushed(ls, les, |les|)
    ensures var store, e := M.At(ls, les, |les|).store, M.LastFlushed(ls, les, |les|)[id];
            && id in store.hash && store.hash[id] == ToJson(e, ls.secret)
            && e.entityId == id && e.sourceNode == ls.node && WithinBudget(e.attributes)
  {
    M.HashHoldsTheLastWrite(ls, les, |les|);
    MirrorTracksItsOwn(ls, les, |les|);
  }

  /** The leader's run and the standby's boot around one store: what the leader left is
      what the standby is about to read, under the same secret. */
  predicate Handover(ls: M.State, les: seq<M.Event>, bs: B.State, bes: seq<B.Event>, store: M.Store, c: Context) {
    && M.Fresh(ls) && ls.secret == c.secret != ""
    && M.At(ls, les, |les|).store == store
    && Promotion(bs, bes, store)
    && c.atBoot && c.nodeId != ls.node
  }

  /** End-to-end failover. For every run of the leader -- dirty or clean at the end,
      with writes in flight, replies lost and landings in any order -- and every boot of
      the standby, each entry of the leader's last applied write is carried over. */
  lemma EndToEnd(ls: M.State, les: seq<M.Event>, bs: B.State, bes: seq<B.Event>, store: M.Store,
                 order: seq<EntityId>, h: Home, c: Context, id: EntityId)
    requires Handover(ls, les, bs, bes, store, c)
    requires NoDuplicates(order) && forall f :: f in order <==> f in store.hash
    requires id in M.LastFlushed(ls, les, |les|)
    ensures B.Step(B.At(bs, bes, |bes|), B.Read).seen == Some(store)
    ensures CarriedOver(store, order, h, c, id, M.LastFlushed(ls, les, |les|)[id])
  {
    var e := M.LastFlushed(ls, les, |les|)[id];
    LastFlushedIsStored(ls, les, id);
    ReadSeesTheStore(bs, bes, store);
    StoredIsCarriedOver(store, order, h, c, e);
  }

  // --------------------------------------------- from what the home reported

  /** What the standby needs of a report to take it over: no stamp more than a minute
      ahead, in scope here, not pinned by its configuration, not refused. */
  predicate MayTakeOver(id: EntityId, live: M.Live, c: Context) {
    && live.lastUpdated <= c.now + 60_000_000
    && ShouldTrack(id, c.cfg, c.excludedIds)
    && !(Domain(id) == "automation" && id in c.pinned)
    && id !in c.refuses
  }

  /** The home is as `live` says: an automation was last commanded on or off accordingly,
      anything else has that state and those attributes. */
  predicate HomeShows(h: Home, id: EntityId, live: M.Live) {
    if Domain(id) == "automation" && live.state in {"on", "off"}
    then LastCommand(h.commands, id) == Some(live.state == "on")
    else id in h.states && h.states[id].state == live.state && h.states[id].attributes == live.attributes
  }

  /** `id` is among the first 5000 readable entries. */
  predicate WithinTheCap(entries: EntryList, id: EntityId) {
    exists i :: 0 <= i < |entries| && i < 5000 && entries[i].0 == id
  }

  /** One report in the last write: the home shows it exactly when that write landed within
      the age limit, the cap admits the entity and nothing on the standby keeps it out. */
  lemma CarriedOverByAge(ls: M.State, les: seq<M.Event>, bs: B.State, bes: seq<B.Event>, store: M.Store,
                         order: seq<EntityId>, h: Home, c: Context, id: EntityId, live: M.Live) returns (at: int)
    requires Handover(ls, les, bs, bes, store, c)
    requires NoDuplicates(order) && forall f :: f in order <==> f in store.hash
    requires id in M.LastFlushed(ls, les, |les|)
    requires M.Mirrors(M.LastFlushed(ls, les, |les|)[id], id, live, ls.node)
    ensures M.LastLandedAt(ls, les, |les|) == Some(at) && store.meta == Some(M.Meta(at, ls.node))
    ensures var entries := Readable(store.hash, order, c.secret);
            var after := AfterRestore(h, entries, store.meta, c);
            if at >= c.now - c.maxAge && WithinTheCap(entries, id) && MayTakeOver(id, live, c)
            then HomeShows(after, id, live)
            else SameAt(h, after, id)
  {
    M.MetaIsTheLastWrite(ls, les, |les|);
    at := M.LastLandedAt(ls, les, |les|).value;
    var e, entries := M.LastFlushed(ls, les, |les|)[id], Readable(store.hash, order, c.secret);
    EndToEnd(ls, les, bs, bes, store, order, h, c, id);
    LastFlushedIsStored(ls, les, id);
    ListedOnce(store.hash, order, c.secret, e);
    OnceWithinTheCap(entries, id, e);
  }

  lemma OnceWithinTheCap(entries: EntryList, id: EntityId, e: SnapshotEntry)
    requires DistinctIds(entries) && (id, e) in entries
    ensures (id, e) in Capped(entries) <==> WithinTheCap(entries, id)
  {
    var n :| 0 <= n < |entries| && entries[n] == (id, e);
    assert forall i :: 0 <= i < |entries| && entries[i].0 == id ==> i == n;
    var capped := Capped(entries);
    assert forall i :: 0 <= i < |capped| ==> capped[i] == entries[i];
  }

  /** End to end, from what the leader's home reported. The last write the server applied
      was sent at some step `j` of the leader's run: whatever had last been reported about
      an entity by then, and fits, the standby's home shows after its boot restore, if and
      only if that write landed within the age limit, the entity is within the cap and
      nothing on the standby keeps it out. Otherwise the home is untouched there. */
  lemma ReportedIsShown(ls: M.State, les: seq<M.Event>, bs: B.State, bes: seq<B.Event>, store: M.Store,
                        order: seq<EntityId>, h: Home, c: Context, id: EntityId)
    returns (j: nat, at: int)
    requires Handover(ls, les, bs, bes, store, c)
    requires NoDuplicates(order) && forall f :: f in order <==> f in store.hash
    requires M.LastLanded(ls, les, |les|).Some?
    ensures j < |les| && M.SentAt(ls, les, j, M.LastLanded(ls, les, |les|).value)
    ensures M.LastLandedAt(ls, les, |les|) == Some(at) && store.meta == Some(M.Meta(at, ls.node))
    ensures B.Step(B.At(bs, bes, |bes|), B.Read).seen == Some(store)
    ensures var reported := M.LastReported(ls, les, j, id);
            reported.Some? && reported.value.attributes.bytes.Some?
            && reported.value.attributes.bytes.value <= 16384 ==>
              var entries := Readable(store.hash, order, c.secret);
              var after := AfterRestore(h, entries, store.meta, c);
              if at >= c.now - c.maxAge && WithinTheCap(entries, id) && MayTakeOver(id, reported.value, c)
              then HomeShows(after, id, reported.value)
              else SameAt(h, after, id)
  {
    j := M.LastWriteIsWhatWasReported(ls, les, |les|, id);
    M.MetaIsTheLastWrite(ls, les, |les|);
    at := M.LastLandedAt(ls, les, |les|).value;
    ReadSeesTheStore(bs, bes, store);
    if id in M.LastFlushed(ls, les, |les|) {
      var same := CarriedOverByAge(ls, les, bs, bes, store, order, h, c, id, M.LastReported(ls, les, j, id).value);
    }
  }

  /** In particular, when the leader had flushed everything, in order, and the snapshot is
      not too large: every entity shows what the leader's home last reported about it. */
  lemma EndToEndWhenClean(ls: M.State, les: seq<M.Event>, bs: B.State, bes: seq<B.Event>, store: M.Store,
                          order: seq<EntityId>, h: Home, c: Context, id: EntityId, live: M.Live)
    returns (at: int)
    requires Handover(ls, les, bs, bes, store, c)
    requires M.InOrderThroughout(ls, les, |les|) && M.At(ls, les, |les|).memory.Clean()
    requires NoDuplicates(order) && (forall f :: f in order <==> f in store.hash) && |order| <= 5000
    requires M.LastReported(ls, les, |les|, id) == Some(live)
    requires live.attributes.bytes.Some? && live.attributes.bytes.value <= 16384
    ensures B.Step(B.At(bs, bes, |bes|), B.Read).seen == Some(store)
    ensures M.LastLandedAt(ls, les, |les|) == Some(at)
    ensures var after := AfterRestore(h, Readable(store.hash, order, c.secret), store.meta, c);
            if at >= c.now - c.maxAge && MayTakeOver(id, live, c) then HomeShows(after, id, live)
            else SameAt(h, after, id)
  {
    M.TrackedIsLastReported(ls, les, |les|, id);
    M.CleanMeansFlushed(ls, les, |les|);
    assert id in M.LastFlushed(ls, les, |les|);
    ReadSeesTheStore(bs, bes, store);
    at := CarriedOverByAge(ls, les, bs, bes, store, order, h, c, id, live);
    LastFlushedIsStored(ls, les, id);
    var e := M.LastFlushed(ls, les, |les|)[id];
    ListedOnce(store.hash, order, c.secret, e);
    OnceWithinTheCap(Readable(store.hash, order, c.secret), id, e);
  }
}
