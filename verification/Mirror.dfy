/**
 The authoritative mirror of one node's tracked entities and its flush cycle.

 A flush is three separate moments: it is sent with the revision of that moment,
 the server applies it, and its reply is seen (or not). Changes may be recorded
 between any two of them, several flushes may be in flight, and a write whose
 reply was lost may still land later.
 */
module Mirror {
  import opened Wrappers
  import opened Snapshot

  type Entries = map<EntityId, SnapshotEntry>

  /** A live entity state, as the home reports it. */
  datatype Live = Live(state: string, attributes: Attributes, lastChanged: int, lastUpdated: int)

  function EntryFromState(entityId: EntityId, live: Live, node: Node): SnapshotEntry {
    SnapshotEntry(entityId, live.state, live.attributes, Iso(live.lastChanged), Iso(live.lastUpdated), node)
  }

  /** `e` is the report `live` about `x`, field by field, in the name of `node`. */
  predicate Mirrors(e: SnapshotEntry, x: EntityId, live: Live, node: Node) {
    && e.entityId == x && e.sourceNode == node
    && e.state == live.state && e.attributes == live.attributes
    && e.lastChanged == Iso(live.lastChanged) && e.lastUpdated == Iso(live.lastUpdated)
  }

  datatype Memory = Memory(tracked: Entries, revision: nat, flushed: nat) {
    predicate Clean() { revision == flushed }
  }

  /** The entries a flush writes: the oversized ones are dropped. */
  function Budgeted(tracked: Entries): Entries {
    map e | e in tracked && WithinBudget(tracked[e].attributes) :: tracked[e]
  }

  /** What a flush started now would send, if it sends anything. */
  function FlushPayload(m: Memory): Option<Entries> {
    if m.Clean() || m.tracked == map[] || Budgeted(m.tracked) == map[] then None else Some(Budgeted(m.tracked))
  }

  /** A flush has something to send when anything changed since the last one written and
      any tracked entry fits; it sends each entry that fits, and no other. */
  lemma FlushPayloadExactly(m: Memory)
    ensures FlushPayload(m).Some? <==>
              m.revision != m.flushed
              && exists x :: x in m.tracked && m.tracked[x].attributes.bytes.Some?
                             && m.tracked[x].attributes.bytes.value <= 16384
    ensures FlushPayload(m).Some? ==>
              forall x :: (x in FlushPayload(m).value <==>
                           x in m.tracked && m.tracked[x].attributes.bytes.Some?
                           && m.tracked[x].attributes.bytes.value <= 16384)
                          && (x in FlushPayload(m).value ==> FlushPayload(m).value[x] == m.tracked[x])
  {
    if x :| x in m.tracked && WithinBudget(m.tracked[x].attributes) {
      assert x in Budgeted(m.tracked);
    } else {
      assert Budgeted(m.tracked) == map[];
    }
  }

  // ---------------------------------------------------------- the shared store

  datatype Meta = Meta(lastSnapshotAt: int, sourceNode: Node)

  datatype Store = Store(hash: map<EntityId, Raw>, meta: Option<Meta>)

  /** The payload of one HSET. */
  function Encode(payload: Entries, secret: string): map<EntityId, Raw> {
    map e | e in payload :: ToJson(payload[e], secret)
  }

  /** HSET merges: fields outside the payload are left alone. */
  function Written(store: Store, payload: Entries, secret: string, node: Node, now: int): Store {
    Store(store.hash + Encode(payload, secret), Some(Meta(now, node)))
  }

  // --------------------------------------------------------------- the protocol

  datatype Flight = Flight(revision: nat, payload: Entries, landed: bool, open: bool)

  datatype State = State(
    node: Node,
    secret: string,
    cfg: Config,
    excludedIds: set<EntityId>,
    memory: Memory,
    flights: map<nat, Flight>,
    store: Store)

  datatype Event =
    | Exclude(ids: set<EntityId>)
    | Seed(states: map<EntityId, Live>)
    | Record(entityId: EntityId, live: Live)
    | Begin(id: nat)
    | Land(id: nat, now: int)
    | Reply(id: nat, ok: bool)

  function SeedMemory(m: Memory, seeded: Entries): Memory {
    var tracked := m.tracked + seeded;
    Memory(tracked, if tracked == map[] then m.revision else m.revision + 1, m.flushed)
  }

  function RecordMemory(m: Memory, e: SnapshotEntry): Memory {
    Memory(m.tracked[e.entityId := e], m.revision + 1, m.flushed)
  }

  function SeededEntries(states: map<EntityId, Live>, cfg: Config, excludedIds: set<EntityId>, node: Node): Entries {
    map e | e in states && ShouldTrack(e, cfg, excludedIds) :: EntryFromState(e, states[e], node)
  }

  predicate CanLand(s: State, id: nat) {
    id in s.flights && !s.flights[id].landed
  }

  /** A positive reply exists only for a write the server applied. */
  predicate CanReply(s: State, id: nat, ok: bool) {
    id in s.flights && s.flights[id].open && (ok ==> s.flights[id].landed)
  }

  function Step(s: State, e: Event): State {
    match e
    case Exclude(ids) => s.(excludedIds := ids)
    case Seed(states) => s.(memory := SeedMemory(s.memory, SeededEntries(states, s.cfg, s.excludedIds, s.node)))
    case Record(id, live) =>
      if !ShouldTrack(id, s.cfg, s.excludedIds) then s
      else s.(memory := RecordMemory(s.memory, EntryFromState(id, live, s.node)))
    case Begin(id) =>
      var payload := FlushPayload(s.memory);
      if id in s.flights || payload == None then s
      else s.(flights := s.flights[id := Flight(s.memory.revision, payload.value, false, true)])
    case Land(id, now) =>
      if !CanLand(s, id) then s
      else s.(flights := s.flights[id := s.flights[id].(landed := true)],
              store := Written(s.store, s.flights[id].payload, s.secret, s.node, now))
    case Reply(id, ok) =>
      if !CanReply(s, id, ok) then s
      else s.(flights := s.flights[id := s.flights[id].(open := false)],
              memory := if ok then s.memory.(flushed := s.flights[id].revision) else s.memory)
  }

  function At(s: State, es: seq<Event>, k: nat): State
    requires k <= |es|
  {
    if k == 0 then s else Step(At(s, es, k - 1), es[k - 1])
  }

  predicate Fresh(s: State) {
    s.memory == Memory(map[], 0, 0) && s.flights == map[]
  }

  // ------------------------------------------------------------ no lost update

  predicate Holds(hash: map<EntityId, Raw>, payload: Entries, secret: string) {
    forall e :: e in payload ==> e in hash && hash[e] == ToJson(payload[e], secret)
  }

  /** The shared hash holds the current entry of every tracked entity that fits. */
  predicate Synced(s: State) {
    Holds(s.store.hash, Budgeted(s.memory.tracked), s.secret)
  }

  /** This write is not overtaken: nothing newer has landed before it. */
  predicate InOrder(s: State, e: Event) {
    e.Land? && CanLand(s, e.id) ==>
      forall other :: other in s.flights && s.flights[other].landed ==>
        s.flights[other].revision <= s.flights[e.id].revision
  }

  predicate InOrderAt(s: State, es: seq<Event>, i: nat) {
    i < |es| && InOrder(At(s, es, i), es[i])
  }

  predicate InOrderThroughout(s: State, es: seq<Event>, k: nat) {
    forall i: nat :: i < k ==> InOrderAt(s, es, i)
  }

  /** `last` is the write that landed last, if any: the hash holds its payload. */
  predicate Inv(s: State, last: Option<nat>) {
    && (last.Some? ==> last.value in s.flights && s.flights[last.value].landed)
    && var m, top := s.memory, if last.Some? then s.flights[last.value].revision else 0;
    && m.flushed <= top <= m.revision
    && (m.revision == 0 ==> m.tracked == map[])
    && (last.Some? ==> Holds(s.store.hash, s.flights[last.value].payload, s.secret))
    && (forall id :: id in s.flights ==>
          && 0 < s.flights[id].revision <= m.revision
          && (s.flights[id].landed ==> s.flights[id].revision <= top)
          && (s.flights[id].revision == m.revision ==> s.flights[id].payload == Budgeted(m.tracked)))
  }

  /** Any change of the tracked map comes with a revision of its own. */
  lemma MemoryChangeKeepsInv(s: State, last: Option<nat>, m: Memory)
    requires Inv(s, last) && m.revision == s.memory.revision + 1 && m.flushed == s.memory.flushed
    ensures Inv(s.(memory := m), last)
  {
  }

  lemma StepKeepsInv(s: State, last: Option<nat>, e: Event)
    requires Inv(s, last) && InOrder(s, e)
    ensures Inv(Step(s, e), if e.Land? && CanLand(s, e.id) then Some(e.id) else last)
  {
    match e
    case Exclude(ids) =>
    case Seed(states) =>
      var m := SeedMemory(s.memory, SeededEntries(states, s.cfg, s.excludedIds, s.node));
      if m.revision == s.memory.revision {
        assert s.memory.tracked == map[] && m == s.memory;
      } else {
        MemoryChangeKeepsInv(s, last, m);
      }
    case Record(id, live) =>
      if ShouldTrack(id, s.cfg, s.excludedIds) {
        MemoryChangeKeepsInv(s, last, RecordMemory(s.memory, EntryFromState(id, live, s.node)));
      }
    case Begin(id) =>
    case Land(id, now) =>
    case Reply(id, ok) =>
  }

  // ------------------------------------------------------- reported is mirrored

  /** What the home last reported about `x` among the first `k` events, if anything
      reached the mirror. */
  function LastReported(s: State, es: seq<Event>, k: nat, x: EntityId): Option<Live>
    requires k <= |es|
  {
    if k == 0 then None
    else
      var before, e := At(s, es, k - 1), es[k - 1];
      if e.Record? && e.entityId == x && ShouldTrack(x, s.cfg, before.excludedIds) then Some(e.live)
      else if e.Seed? && x in e.states && ShouldTrack(x, s.cfg, before.excludedIds) then Some(e.states[x])
      else LastReported(s, es, k - 1, x)
  }

  lemma {:induction false} SettingsStay(s: State, es: seq<Event>, k: nat)
    requires k <= |es|
    ensures At(s, es, k).node == s.node && At(s, es, k).cfg == s.cfg && At(s, es, k).secret == s.secret
  {
    if k > 0 { SettingsStay(s, es, k - 1); }
  }

  /** What `tracked` has for `x` is the report `last`, if there is one. */
  predicate TracksReport(tracked: Entries, x: EntityId, last: Option<Live>, node: Node) {
    && (x in tracked <==> last.Some?)
    && (last.Some? ==>
          && tracked[x].entityId == x && tracked[x].sourceNode == node
          && tracked[x].state == last.value.state && tracked[x].attributes == last.value.attributes
          && tracked[x].lastChanged == Iso(last.value.lastChanged)
          && tracked[x].lastUpdated == Iso(last.value.lastUpdated))
  }

  lemma StepKeepsReport(s: State, e: Event, x: EntityId, last: Option<Live>)
    requires TracksReport(s.memory.tracked, x, last, s.node)
    ensures TracksReport(Step(s, e).memory.tracked, x,
                         if e.Record? && e.entityId == x && ShouldTrack(x, s.cfg, s.excludedIds) then Some(e.live)
                         else if e.Seed? && x in e.states && ShouldTrack(x, s.cfg, s.excludedIds) then Some(e.states[x])
                         else last,
                         s.node)
  {
  }

  /** Over every run, an entity is mirrored exactly when it was reported, and then its
      entry is the last report about it: each of its fields, in its own place. */
  lemma {:induction false} TrackedIsLastReported(s: State, es: seq<Event>, k: nat, x: EntityId)
    requires k <= |es| && Fresh(s)
    ensures TracksReport(At(s, es, k).memory.tracked, x, LastReported(s, es, k, x), s.node)
  {
    if k > 0 {
      TrackedIsLastReported(s, es, k - 1, x);
      SettingsStay(s, es, k - 1);
      StepKeepsReport(At(s, es, k - 1), es[k - 1], x, LastReported(s, es, k - 1, x));
    }
  }

  /** An exclusion takes effect at once: nothing excluded is recorded or seeded after it,
      and what was mirrored before stays. */
  lemma ExcludedIsNotMirrored(s: State, ids: set<EntityId>, x: EntityId, live: Live)
    requires x in ids && x !in s.memory.tracked
    ensures x !in Step(Step(s, Exclude(ids)), Record(x, live)).memory.tracked
    ensures x !in Step(Step(s, Exclude(ids)), Seed(map[x := live])).memory.tracked
    ensures Step(s, Exclude(ids)).memory == s.memory
  {
  }

  /** When the server applied the last write, if it applied any. */
  function LastLandedAt(s: State, es: seq<Event>, k: nat): Option<int>
    requires k <= |es|
  {
    if k == 0 then None
    else if es[k - 1].Land? && CanLand(At(s, es, k - 1), es[k - 1].id) then Some(es[k - 1].now)
    else LastLandedAt(s, es, k - 1)
  }

  /** The snapshot's metadata is the time of its last write, and who wrote it. */
  lemma {:induction false} MetaIsTheLastWrite(s: State, es: seq<Event>, k: nat)
    requires k <= |es|
    ensures At(s, es, k).node == s.node
    ensures var last := LastLandedAt(s, es, k);
            At(s, es, k).store.meta == if last.Some? then Some(Meta(last.value, s.node)) else s.store.meta
    ensures LastLandedAt(s, es, k).Some? <==> LastLanded(s, es, k).Some?
  {
    if k > 0 {
      MetaIsTheLastWrite(s, es, k - 1);
    }
  }

  /** The write the server applied last, if it applied any. */
  function LastLanded(s: State, es: seq<Event>, k: nat): Option<nat>
    requires k <= |es|
  {
    if k == 0 then None
    else if es[k - 1].Land? && CanLand(At(s, es, k - 1), es[k - 1].id) then Some(es[k - 1].id)
    else LastLanded(s, es, k - 1)
  }

  lemma {:induction false} RunKeepsInv(s: State, es: seq<Event>, k: nat)
    requires k <= |es| && Fresh(s) && InOrderThroughout(s, es, k)
    ensures Inv(At(s, es, k), LastLanded(s, es, k))
  {
    if k > 0 {
      RunKeepsInv(s, es, k - 1);
      assert InOrderAt(s, es, k - 1);
      StepKeepsInv(At(s, es, k - 1), LastLanded(s, es, k - 1), es[k - 1]);
    }
  }

  /** What the shared hash was last given: the payload of that write. */
  function LastFlushed(s: State, es: seq<Event>, k: nat): Entries
    requires k <= |es|
  {
    var last, t := LastLanded(s, es, k), At(s, es, k);
    if last.Some? && last.value in t.flights then t.flights[last.value].payload else map[]
  }

  /** The write landed last is known, and the hash holds its payload. */
  predicate LastHolds(s: State, last: Option<nat>) {
    last.Some? ==>
      && last.value in s.flights && s.flights[last.value].landed
      && Holds(s.store.hash, s.flights[last.value].payload, s.secret)
  }

  lemma StepKeepsLastHolds(s: State, last: Option<nat>, e: Event)
    requires LastHolds(s, last)
    ensures LastHolds(Step(s, e), if e.Land? && CanLand(s, e.id) then Some(e.id) else last)
  {
  }

  /** In whatever order writes land, the hash holds the payload of the last one: a
      change recorded meanwhile, a lost reply or an earlier write still in flight
      takes nothing back. */
  lemma {:induction false} HashHoldsTheLastWrite(s: State, es: seq<Event>, k: nat)
    requires k <= |es| && Fresh(s)
    ensures LastHolds(At(s, es, k), LastLanded(s, es, k))
  {
    if k > 0 {
      HashHoldsTheLastWrite(s, es, k - 1);
      StepKeepsLastHolds(At(s, es, k - 1), LastLanded(s, es, k - 1), es[k - 1]);
    }
  }

  /** Flush `id` was sent at step `j`. */
  predicate SentAt(s: State, es: seq<Event>, j: nat, id: nat) {
    && j < |es| && es[j] == Begin(id)
    && id !in At(s, es, j).flights && id in At(s, es, j + 1).flights
  }

  /** Every payload is the mirror, less the oversized entries, of the moment it was sent. */
  lemma {:induction false} PayloadIsTheMirrorWhenSent(s: State, es: seq<Event>, k: nat, id: nat) returns (j: nat)
    requires k <= |es| && Fresh(s) && id in At(s, es, k).flights
    ensures j < k && SentAt(s, es, j, id)
    ensures var f := At(s, es, k).flights[id];
            f.payload == Budgeted(At(s, es, j).memory.tracked) && f.revision == At(s, es, j).memory.revision
  {
    if id in At(s, es, k - 1).flights {
      j := PayloadIsTheMirrorWhenSent(s, es, k - 1, id);
    } else {
      j := k - 1;
    }
  }

  /** So the last write carries, for each entity reported by the time it was sent and small
      enough, what was last reported about it then -- and nothing else. */
  lemma LastWriteIsWhatWasReported(s: State, es: seq<Event>, k: nat, x: EntityId) returns (j: nat)
    requires k <= |es| && Fresh(s) && LastLanded(s, es, k).Some?
    ensures j < k && SentAt(s, es, j, LastLanded(s, es, k).value)
    ensures var reported, payload := LastReported(s, es, j, x), LastFlushed(s, es, k);
            && (x in payload <==> reported.Some? && reported.value.attributes.bytes.Some?
                                  && reported.value.attributes.bytes.value <= 16384)
            && (x in payload ==> Mirrors(payload[x], x, reported.value, s.node))
  {
    HashHoldsTheLastWrite(s, es, k);
    j := PayloadIsTheMirrorWhenSent(s, es, k, LastLanded(s, es, k).value);
    TrackedIsLastReported(s, es, j, x);
  }

  /** No lost update: over every run from a fresh mirror in which writes land in
      the order they were sent (one flush at a time in particular), a clean mirror
      means the hash holds its current entry for every tracked entity that fits --
      whatever was recorded mid-write and whichever replies were lost. */
  lemma NoLostUpdate(s: State, es: seq<Event>, k: nat)
    requires k <= |es| && Fresh(s) && InOrderThroughout(s, es, k)
    requires At(s, es, k).memory.Clean()
    ensures Synced(At(s, es, k))
  {
    RunKeepsInv(s, es, k);
  }

  /** Then the last write held all there was to hold. */
  lemma CleanMeansFlushed(s: State, es: seq<Event>, k: nat)
    requires k <= |es| && Fresh(s) && InOrderThroughout(s, es, k)
    requires At(s, es, k).memory.Clean()
    ensures LastFlushed(s, es, k) == Budgeted(At(s, es, k).memory.tracked)
  {
    RunKeepsInv(s, es, k);
  }

  /** Only a positive reply to a write of the current revision makes a dirty
      mirror clean; a failed write never does. */
  lemma OnlyAnAcknowledgedWriteCleans(s: State, e: Event)
    requires !s.memory.Clean() && Step(s, e).memory.Clean() && s.memory.flushed <= s.memory.revision
    ensures e.Reply? && e.ok && CanReply(s, e.id, true) && s.flights[e.id].revision == s.memory.revision
  {
  }

  /** No flush is sent while an earlier one has yet to land. */
  predicate SentAlone(s: State, e: Event) {
    e.Begin? ==> forall id :: id in s.flights ==> s.flights[id].landed
  }

  predicate SentAloneAt(s: State, es: seq<Event>, i: nat) {
    i < |es| && SentAlone(At(s, es, i), es[i])
  }

  predicate OneOutstanding(s: State, es: seq<Event>, k: nat) {
    forall i: nat :: i < k ==> SentAloneAt(s, es, i)
  }

  /** A write still to land is the newest of all. */
  ghost predicate Latest(s: State) {
    forall i, j :: CanLand(s, i) && j in s.flights ==> s.flights[j].revision <= s.flights[i].revision
  }

  lemma LatestStep(s: State, last: Option<nat>, e: Event)
    requires Inv(s, last) && Latest(s)
    requires SentAlone(s, e)
    ensures InOrder(s, e) && Latest(Step(s, e))
  {
  }

  /** One outstanding flush is enough for writes to land in order. */
  lemma {:induction false} OneOutstandingLandsInOrder(s: State, es: seq<Event>, k: nat)
    requires k <= |es| && Fresh(s) && OneOutstanding(s, es, k)
    ensures InOrderThroughout(s, es, k) && Latest(At(s, es, k))
  {
    if k > 0 {
      OneOutstandingLandsInOrder(s, es, k - 1);
      var before := At(s, es, k - 1);
      RunKeepsInv(s, es, k - 1);
      assert SentAloneAt(s, es, k - 1);
      LatestStep(before, LastLanded(s, es, k - 1), es[k - 1]);
    }
  }

  /** Seeding by entity: each one in scope is mirrored as reported, every other stays. */
  ghost predicate SeededFrom(before: Entries, after: Entries, states: map<EntityId, Live>, cfg: Config,
                             excludedIds: set<EntityId>, node: Node) {
    && (forall x :: x in after <==> x in before || (x in states && ShouldTrack(x, cfg, excludedIds)))
    && (forall x :: x in states && ShouldTrack(x, cfg, excludedIds) ==> Mirrors(after[x], x, states[x], node))
    && (forall x :: x in before && !(x in states && ShouldTrack(x, cfg, excludedIds)) ==> after[x] == before[x])
  }

  lemma SeedIsByEntity(m: Memory, states: map<EntityId, Live>, cfg: Config, excludedIds: set<EntityId>, node: Node)
    ensures var after := SeedMemory(m, SeededEntries(states, cfg, excludedIds, node));
            && SeededFrom(m.tracked, after.tracked, states, cfg, excludedIds, node)
            && after.revision == m.revision + (if after.tracked == map[] then 0 else 1) && after.flushed == m.flushed
  {
  }

  lemma RecordThenSend(s: State, x: EntityId, live: Live, id: nat)
    requires ShouldTrack(x, s.cfg, s.excludedIds) && WithinBudget(live.attributes)
    requires s.memory.tracked.Keys <= {x} && s.memory.flushed <= s.memory.revision && id !in s.flights
    ensures var e := EntryFromState(x, live, s.node);
            Step(Step(s, Record(x, live)), Begin(id)) == s.(
              memory := Memory(map[x := e], s.memory.revision + 1, s.memory.flushed),
              flights := s.flights[id := Flight(s.memory.revision + 1, map[x := e], false, true)])
  {
    var e := EntryFromState(x, live, s.node);
    assert s.memory.tracked[x := e] == map[x := e];
    assert Budgeted(map[x := e]) == map[x := e] && x in map[x := e];
  }

  /** The condition is needed. Two overlapping flushes whose writes land in the
      wrong order leave a clean mirror over a stale hash. */
  lemma OverlappingFlushesMayLoseAnUpdate(s: State, x: EntityId, old': Live, new': Live)
    requires Fresh(s) && ShouldTrack(x, s.cfg, s.excludedIds)
    requires WithinBudget(old'.attributes) && WithinBudget(new'.attributes) && old'.state != new'.state
    ensures var sent := Step(Step(Step(Step(s, Record(x, old')), Begin(0)), Record(x, new')), Begin(1));
            var replied := Step(Step(Step(Step(sent, Land(1, 0)), Land(0, 0)), Reply(0, true)), Reply(1, true));
            replied.memory.Clean() && !Synced(replied)
  {
    RecordThenSend(s, x, old', 0);
    RecordThenSend(Step(Step(s, Record(x, old')), Begin(0)), x, new', 1);
    var a, b := EntryFromState(x, old', s.node), EntryFromState(x, new', s.node);
    var f0, f1 := Flight(1, map[x := a], false, true), Flight(2, map[x := b], false, true);
    var sent := s.(memory := Memory(map[x := b], 2, 0), flights := map[0 := f0, 1 := f1]);
    StaleAfterSwap(sent, x, a, b);
  }

  lemma StaleAfterSwap(sent: State, x: EntityId, a: SnapshotEntry, b: SnapshotEntry)
    requires sent.memory == Memory(map[x := b], 2, 0) && WithinBudget(b.attributes) && a.state != b.state
    requires sent.flights == map[0 := Flight(1, map[x := a], false, true), 1 := Flight(2, map[x := b], false, true)]
    ensures var replied := Step(Step(Step(Step(sent, Land(1, 0)), Land(0, 0)), Reply(0, true)), Reply(1, true));
            replied.memory.Clean() && !Synced(replied)
  {
    var landed := Step(Step(sent, Land(1, 0)), Land(0, 0));
    assert landed.flights[0] == Flight(1, map[x := a], true, true);
    assert landed.flights[1] == Flight(2, map[x := b], true, true);
    assert landed.store.hash[x] == ToJson(a, sent.secret);
    assert x in Budgeted(sent.memory.tracked);
  }

  /** Merging: fields of entities this mirror never tracked survive every flush. */
  lemma {:induction false} OtherFieldsSurvive(s: State, es: seq<Event>, k: nat, x: EntityId)
    requires k <= |es| && x !in At(s, es, k).memory.tracked
    requires forall id :: id in s.flights ==> x !in s.flights[id].payload
    ensures x !in s.memory.tracked
    ensures (x in At(s, es, k).store.hash <==> x in s.store.hash)
            && (x in s.store.hash ==> At(s, es, k).store.hash[x] == s.store.hash[x])
    ensures forall id :: id in At(s, es, k).flights ==> x !in At(s, es, k).flights[id].payload
  {
    if k > 0 {
      OtherFieldsSurvive(s, es, k - 1, x);
    }
  }

  // ---------------------------------------------------------- the implementation

  class StateMirror {
    const node: Node
    const cfg: Config
    var excludedIds: set<EntityId>
    var tracked: Entries
    var revision: nat
    var flushed: nat

    constructor (node: Node, cfg: Config)
      ensures this.node == node && this.cfg == cfg && excludedIds == {} && View() == Memory(map[], 0, 0)
    {
      this.node, this.cfg, excludedIds := node, cfg, {};
      tracked, revision, flushed := map[], 0, 0;
    }

    function View(): Memory
      reads this
    {
      Memory(tracked, revision, flushed)
    }

    /** The entries of the states in scope. */
    method CaptureStates(states: map<EntityId, Live>) returns (seeded: Entries)
      ensures seeded == SeededEntries(states, cfg, excludedIds, node)
    {
      seeded := map[];
      var todo := states.Keys;
      while todo != {}
        invariant todo <= states.Keys
        invariant seeded == map e | e in states.Keys - todo && ShouldTrack(e, cfg, excludedIds)
                              :: EntryFromState(e, states[e], node)
      {
        var e :| e in todo;
        if ShouldTrack(e, cfg, excludedIds) {
          seeded := seeded[e := EntryFromState(e, states[e], node)];
        }
        todo := todo - {e};
      }
    }

    method SeedFromCurrentStates(states: map<EntityId, Live>)
      modifies this`tracked, this`revision
      ensures View() == SeedMemory(old(View()), SeededEntries(states, cfg, excludedIds, node))
      ensures SeededFrom(old(tracked), tracked, states, cfg, excludedIds, node)
      ensures revision == old(revision) + if tracked == map[] then 0 else 1
    {
      SeedIsByEntity(View(), states, cfg, excludedIds, node);
      var seeded := CaptureStates(states);
      tracked := tracked + seeded;
      if tracked != map[] {
        revision := revision + 1;
      }
    }

    method Record(entityId: EntityId, live: Live) returns (isNew: bool)
      modifies this`tracked, this`revision
      ensures View() == RecordMemory(old(View()), EntryFromState(entityId, live, node))
      ensures tracked.Keys == old(tracked).Keys + {entityId} && Mirrors(tracked[entityId], entityId, live, node)
      ensures forall x :: x in old(tracked) && x != entityId ==> tracked[x] == old(tracked)[x]
      ensures revision == old(revision) + 1
      ensures isNew == (entityId !in old(tracked))
    {
      isNew := entityId !in tracked;
      tracked := tracked[entityId := EntryFromState(entityId, live, node)];
      revision := revision + 1;
    }

    /** The first half of a flush, up to the await. `oversized` is what it dropped. */
    method BeginFlush() returns (payload: Option<Entries>, sent: nat, oversized: set<EntityId>)
      ensures payload == FlushPayload(View()) && sent == revision
      ensures !View().Clean() ==> oversized == tracked.Keys - Budgeted(tracked).Keys
      ensures payload.Some? <==>
                revision != flushed && exists e :: e in tracked && WithinBudget(tracked[e].attributes)
      ensures payload.Some? ==>
                && (forall e :: e in payload.value <==> e in tracked && WithinBudget(tracked[e].attributes))
                && (forall e :: e in payload.value ==> payload.value[e] == tracked[e])
    {
      sent, oversized := revision, {};
      if revision == flushed || tracked == map[] {
        if revision != flushed {
          assert Budgeted(tracked) == map[];
        }
        return None, sent, oversized;
      }
      oversized := set e | e in tracked && !WithinBudget(tracked[e].attributes);
      var kept := tracked - oversized;
      assert kept == Budgeted(tracked);
      payload := if kept == map[] then None else Some(kept);
      assert forall e :: e in tracked && WithinBudget(tracked[e].attributes) ==> e in kept;
      if kept != map[] {
        ghost var e :| e in kept;
        assert e in tracked && WithinBudget(tracked[e].attributes);
      }
    }

    /** The second half, after the await: only the revision actually written is
        marked clean, and a failed write leaves everything dirty. */
    method FinishFlush(sent: nat, written: bool)
      modifies this`flushed
      ensures View() == if written then old(View()).(flushed := sent) else old(View())
    {
      if written {
        flushed := sent;
      }
    }
  }
}
