/**
 The boot restore: read the shared snapshot, and apply what the peer wrote to
 this node's state machine, entry by entry.
 */
module Restore {
  import opened Sequences
  import opened Wrappers
  import opened Snapshot
  import Mirror

  const MAX_RESTORE_ENTRIES: nat := 5000
  const CLOCK_SKEW_TOLERANCE: int := 60_000_000

  /** What this node knows when the restore runs. `localUpdated` is when each local
      state was last updated, `pinned` the automations whose configuration pins
      their startup state, and `refuses` the entities whose call would raise. */
  datatype Context = Context(
    nodeId: Node,
    secret: string,
    cfg: Config,
    excludedIds: set<EntityId>,
    now: int,
    maxAge: nat,
    atBoot: bool,
    localUpdated: map<EntityId, int>,
    pinned: set<EntityId>,
    refuses: set<EntityId>)

  datatype Value = Value(state: string, attributes: Attributes)

  /** The state machine, and the on/off commands sent to components that own
      their own state. */
  datatype Home = Home(states: map<EntityId, Value>, commands: seq<(EntityId, bool)>)

  type EntryList = seq<(EntityId, SnapshotEntry)>

  // ------------------------------------------------------------ read_snapshot

  /** The entries that parse, in the order the server listed the fields. */
  function Readable(hash: map<EntityId, Raw>, order: seq<EntityId>, secret: string): EntryList {
    if order == [] then []
    else
      var front, e := Readable(hash, order[..|order| - 1], secret), order[|order| - 1];
      if e in hash && FromJson(e, hash[e], secret).Ok? then front + [(e, FromJson(e, hash[e], secret).value)] else front
  }

  /** One unreadable value costs one entry, never the snapshot. */
  method ReadSnapshot(hash: map<EntityId, Raw>, order: seq<EntityId>, secret: string)
    returns (entries: EntryList, skipped: nat)
    requires forall e :: e in order ==> e in hash
    ensures entries == Readable(hash, order, secret)
    ensures |entries| + skipped == |order|
  {
    entries, skipped := [], 0;
    for i := 0 to |order|
      invariant entries == Readable(hash, order[..i], secret)
      invariant |entries| + skipped == i
    {
      assert order[..i + 1][..i] == order[..i];
      var parsed := FromJson(order[i], hash[order[i]], secret);
      if parsed.Ok? {
        entries := entries + [(order[i], parsed.value)];
      } else {
        skipped := skipped + 1;
      }
    }
    assert order[..|order|] == order;
  }

  predicate DistinctIds(entries: EntryList) {
    forall i, j :: 0 <= i < j < |entries| ==> entries[i].0 != entries[j].0
  }

  lemma {:induction false} ReadableExact(hash: map<EntityId, Raw>, order: seq<EntityId>, secret: string)
    requires NoDuplicates(order)
    ensures var entries := Readable(hash, order, secret);
            DistinctIds(entries) && |entries| <= |order|
            && (forall e, s :: (e, s) in entries <==> e in order && e in hash && FromJson(e, hash[e], secret) == Ok(s))
  {
    if order != [] {
      var front := order[..|order| - 1];
      ReadableExact(hash, front, secret);
      var entries, shorter := Readable(hash, order, secret), Readable(hash, front, secret);
      assert order == front + [order[|order| - 1]];
      forall i | 0 <= i < |shorter|
        ensures shorter[i].0 in front
      {
        assert (shorter[i].0, shorter[i].1) in shorter;
      }
    }
  }

  /** The entries come in the order the server listed their fields. */
  lemma {:induction false} ReadableInOrder(hash: map<EntityId, Raw>, order: seq<EntityId>, secret: string)
    requires NoDuplicates(order)
    ensures forall i, j, p, q :: 0 <= i < j < |Readable(hash, order, secret)| && 0 <= p < |order| && 0 <= q < |order|
              && Readable(hash, order, secret)[i].0 == order[p] && Readable(hash, order, secret)[j].0 == order[q]
              ==> p < q
  {
    if order != [] {
      var front := order[..|order| - 1];
      ReadableInOrder(hash, front, secret);
      ReadableExact(hash, front, secret);
      var entries, shorter := Readable(hash, order, secret), Readable(hash, front, secret);
      forall i, j, p, q | 0 <= i < j < |entries| && 0 <= p < |order| && 0 <= q < |order|
        && entries[i].0 == order[p] && entries[j].0 == order[q]
        ensures p < q
      {
        assert (shorter[i].0, shorter[i].1) in shorter && shorter[i].0 in front;
        var r :| 0 <= r < |front| && front[r] == order[p];
        assert order[r] == order[p];
        if j < |shorter| {
          assert (shorter[j].0, shorter[j].1) in shorter && shorter[j].0 in front;
          var u :| 0 <= u < |front| && front[u] == order[q];
          assert order[u] == order[q];
        }
      }
    }
  }

  // -------------------------------------------------------------- one entry

  datatype Outcome =
    | OwnNode | Unparseable | Future | Untracked | Oversized | LocalNewer | Pinned | Refused | Restored

  predicate IsAutomation(entityId: EntityId) {
    Domain(entityId) == "automation"
  }

  /** A component that owns its own state is commanded, not written. */
  predicate ByService(entityId: EntityId, e: SnapshotEntry) {
    IsAutomation(entityId) && (e.state == "on" || e.state == "off")
  }

  function Classify(entityId: EntityId, e: SnapshotEntry, c: Context): Outcome {
    if e.sourceNode == c.nodeId then OwnNode
    else
      var stamp := ParseStamp(e.lastUpdated);
      if stamp == None then Unparseable
      else if stamp.value > c.now + CLOCK_SKEW_TOLERANCE then Future
      else
        var updated := if stamp.value > c.now then c.now else stamp.value;
        if !ShouldTrack(entityId, c.cfg, c.excludedIds) then Untracked
        else if !WithinBudget(e.attributes) then Oversized
        else if entityId in c.localUpdated && c.localUpdated[entityId] > updated && !c.atBoot then LocalNewer
        else if IsAutomation(entityId) && entityId in c.pinned then Pinned
        else if entityId in c.refuses then Refused
        else Restored
  }

  /** Newer than the entry, whose stamp counts as `now` when it lies ahead. */
  predicate LaterThan(at: int, e: SnapshotEntry, now: int) {
    at > now || (e.lastUpdated.Iso? && at > e.lastUpdated.at)
  }

  /** The checks in the order they are made, each with the bucket it sends an entry to. */
  function Reasons(id: EntityId, e: SnapshotEntry, c: Context): seq<(bool, Outcome)> {
    [ (e.sourceNode == c.nodeId, OwnNode),
      (e.lastUpdated.Garbage?, Unparseable),
      (e.lastUpdated.Iso? && e.lastUpdated.at > c.now + 60_000_000, Future),
      (!ShouldTrack(id, c.cfg, c.excludedIds), Untracked),
      (e.attributes.bytes == None || e.attributes.bytes.value > 16384, Oversized),
      (!c.atBoot && id in c.localUpdated && LaterThan(c.localUpdated[id], e, c.now), LocalNewer),
      (Domain(id) == "automation" && id in c.pinned, Pinned),
      (id in c.refuses, Refused)]
  }

  /** The first check that objects decides the bucket; an entry none objects to is restored. */
  lemma FirstReasonDecides(id: EntityId, e: SnapshotEntry, c: Context) returns (i: nat)
    ensures var reasons := Reasons(id, e, c);
            && i <= |reasons| && (forall j :: 0 <= j < i ==> !reasons[j].0)
            && (i < |reasons| ==> reasons[i].0)
            && Classify(id, e, c) == if i < |reasons| then reasons[i].1 else Restored
  {
    var r := Reasons(id, e, c);
    i := if r[0].0 then 0 else if r[1].0 then 1 else if r[2].0 then 2 else if r[3].0 then 3
         else if r[4].0 then 4 else if r[5].0 then 5 else if r[6].0 then 6 else if r[7].0 then 7 else 8;
  }

  function Effect(h: Home, entityId: EntityId, e: SnapshotEntry): Home {
    if ByService(entityId, e) then h.(commands := h.commands + [(entityId, e.state == "on")])
    else h.(states := h.states[entityId := Value(e.state, e.attributes)])
  }

  function RestoreAll(h: Home, entries: EntryList, c: Context): Home {
    if entries == [] then h
    else
      var before, (id, e) := RestoreAll(h, entries[..|entries| - 1], c), entries[|entries| - 1];
      if Classify(id, e, c) == Restored then Effect(before, id, e) else before
  }

  function Count(entries: EntryList, c: Context, o: Outcome): nat {
    if entries == [] then 0
    else
      var (id, e) := entries[|entries| - 1];
      Count(entries[..|entries| - 1], c, o) + if Classify(id, e, c) == o then 1 else 0
  }

  // ------------------------------------------------------------- accounting

  /** Where the entries of one bucket stand. */
  function Hits(entries: EntryList, c: Context, o: Outcome): set<int> {
    set i | 0 <= i < |entries| && Classify(entries[i].0, entries[i].1, c) == o
  }

  lemma HitsOfOneMore(entries: EntryList, c: Context, o: Outcome)
    requires entries != []
    ensures var n := |entries| - 1;
            Hits(entries, c, o) == Hits(entries[..n], c, o)
                                   + if Classify(entries[n].0, entries[n].1, c) == o then {n} else {}
  {
  }

  /** A bucket's count is the number of entries that went there. */
  lemma {:induction false} CountExactly(entries: EntryList, c: Context, o: Outcome)
    ensures Count(entries, c, o) == |Hits(entries, c, o)|
  {
    if entries != [] {
      CountExactly(entries[..|entries| - 1], c, o);
      HitsOfOneMore(entries, c, o);
    }
  }

  /** Every entry lands in exactly one bucket -- the untracked ones in the bucket
      nobody counts. */
  lemma {:induction false} BucketsPartition(entries: EntryList, c: Context)
    ensures Count(entries, c, OwnNode) + Count(entries, c, Unparseable) + Count(entries, c, Future)
            + Count(entries, c, Untracked) + Count(entries, c, Oversized) + Count(entries, c, LocalNewer)
            + Count(entries, c, Pinned) + Count(entries, c, Refused) + Count(entries, c, Restored) == |entries|
    ensures c.atBoot ==> Count(entries, c, LocalNewer) == 0
  {
    if entries != [] { BucketsPartition(entries[..|entries| - 1], c); }
  }

  /** "All of them are our own" is the same as "nobody else wrote any". */
  lemma {:induction false} OwnNodeCount(entries: EntryList, c: Context)
    ensures Count(entries, c, OwnNode) <= |entries|
    ensures Count(entries, c, OwnNode) == |entries| <==>
              forall i :: 0 <= i < |entries| ==> entries[i].1.sourceNode == c.nodeId
  {
    if entries != [] {
      var front := entries[..|entries| - 1];
      OwnNodeCount(front, c);
      assert entries == front + [entries[|entries| - 1]];
    }
  }

  // -------------------------------------------------- the effect on the home

  function LastCommand(commands: seq<(EntityId, bool)>, id: EntityId): Option<bool> {
    if commands == [] then None
    else
      var (to, on) := commands[|commands| - 1];
      if to == id then Some(on) else LastCommand(commands[..|commands| - 1], id)
  }

  /** The last command is one that was given, with none to the same entity after it. */
  lemma {:induction false} LastCommandExactly(commands: seq<(EntityId, bool)>, id: EntityId, on: bool)
    ensures LastCommand(commands, id) == Some(on) <==>
              exists i :: 0 <= i < |commands| && commands[i] == (id, on)
                          && forall j :: i < j < |commands| ==> commands[j].0 != id
  {
    if commands != [] {
      var n := |commands| - 1;
      var front := commands[..n];
      LastCommandExactly(front, id, on);
      if commands[n].0 == id {
        assert commands[n] == (id, commands[n].1);
      } else if LastCommand(front, id) == Some(on) {
        var i :| 0 <= i < |front| && front[i] == (id, on) && forall j :: i < j < |front| ==> front[j].0 != id;
        assert commands[i] == (id, on) && forall j :: i < j < n ==> commands[j] == front[j];
      }
    }
  }

  /** How the home shows the value `e` carries for `id`: an automation's on or off is the
      last command it was given, anything else is in the state machine. */
  predicate Shows(h: Home, id: EntityId, e: SnapshotEntry) {
    if Domain(id) == "automation" && e.state in {"on", "off"} then LastCommand(h.commands, id) == Some(e.state == "on")
    else id in h.states && h.states[id] == Value(e.state, e.attributes)
  }

  predicate Mentions(entries: EntryList, c: Context, id: EntityId) {
    exists i :: 0 <= i < |entries| && entries[i].0 == id && Classify(id, entries[i].1, c) == Restored
  }

  /** `id` has the same state, and the same last command, in both. */
  predicate SameAt(before: Home, after: Home, id: EntityId) {
    && (id in after.states <==> id in before.states)
    && (id in before.states ==> after.states[id] == before.states[id])
    && LastCommand(after.commands, id) == LastCommand(before.commands, id)
  }

  /** An entry changes the home at its own entity only. */
  lemma EffectIsLocal(h: Home, id: EntityId, e: SnapshotEntry, x: EntityId)
    ensures Shows(Effect(h, id, e), id, e)
    ensures x != id ==> SameAt(h, Effect(h, id, e), x)
  {
    var commands := Effect(h, id, e).commands;
    if ByService(id, e) {
      assert commands[..|commands| - 1] == h.commands;
    }
  }

  /** Entities without a restored entry are left exactly as they were. */
  lemma {:induction false} OthersUntouched(h: Home, entries: EntryList, c: Context, id: EntityId)
    requires !Mentions(entries, c, id)
    ensures SameAt(h, RestoreAll(h, entries, c), id)
  {
    if entries != [] {
      var front, last := entries[..|entries| - 1], entries[|entries| - 1];
      forall i | 0 <= i < |front| && front[i].0 == id
        ensures Classify(id, front[i].1, c) != Restored
      {
        assert entries[i] == front[i];
      }
      OthersUntouched(h, front, c, id);
      assert entries[|entries| - 1].0 == id ==> Classify(id, last.1, c) != Restored;
      EffectIsLocal(RestoreAll(h, front, c), last.0, last.1, id);
    }
  }

  /** Every restored entry is what the home shows afterwards. */
  lemma {:induction false} RestoredShows(h: Home, entries: EntryList, c: Context, i: nat)
    requires DistinctIds(entries) && i < |entries|
    requires Classify(entries[i].0, entries[i].1, c) == Restored
    ensures Shows(RestoreAll(h, entries, c), entries[i].0, entries[i].1)
  {
    var (id, e) := entries[i];
    var front := entries[..|entries| - 1];
    var (last, le) := entries[|entries| - 1];
    EffectIsLocal(RestoreAll(h, front, c), last, le, id);
    if i < |entries| - 1 {
      assert front[i] == entries[i];
      RestoredShows(h, front, c, i);
    }
  }

  // ---------------------------------------------------------- the whole restore

  datatype Counts = Counts(
    ownNode: nat, unparseable: nat, future: nat, oversized: nat,
    localNewer: nat, pinned: nat, refused: nat, restored: nat)

  function Tally(es: EntryList, c: Context): Counts {
    Counts(Count(es, c, OwnNode), Count(es, c, Unparseable), Count(es, c, Future), Count(es, c, Oversized),
           Count(es, c, LocalNewer), Count(es, c, Pinned), Count(es, c, Refused), Count(es, c, Restored))
  }

  function Total(n: Counts): nat {
    n.ownNode + n.unparseable + n.future + n.oversized + n.localNewer + n.pinned + n.refused + n.restored
  }

  datatype Report = NoSecret | Cold | TooOld | Done(entries: nat, counts: Counts, peerSnapshot: bool)

  /** The first entries only, when a snapshot is implausibly large. */
  function Capped(entries: EntryList): (r: EntryList)
    ensures r <= entries && |r| == if |entries| < 5000 then |entries| else 5000
  {
    if |entries| > MAX_RESTORE_ENTRIES then entries[..MAX_RESTORE_ENTRIES] else entries
  }

  /** The age gate belongs to the snapshot; unreadable metadata bypasses it. */
  predicate TooOldToRestore(meta: Option<Mirror.Meta>, c: Context) {
    meta.Some? && meta.value.lastSnapshotAt < c.now - c.maxAge
  }

  /** What the restore leaves of a snapshot read as `entries` and `meta`. */
  function AfterRestore(h: Home, entries: EntryList, meta: Option<Mirror.Meta>, c: Context): Home {
    if c.secret == "" || entries == [] || TooOldToRestore(meta, c) then h else RestoreAll(h, Capped(entries), c)
  }

  /** A snapshot is refused for its age alone when it is known to have been written more
      than the limit ago; one whose age is unknown never is. */
  lemma AgeDecides(h: Home, entries: EntryList, meta: Option<Mirror.Meta>, c: Context)
    requires c.secret != ""
    ensures AfterRestore(h, entries, meta, c)
            == if meta.Some? && c.now - meta.value.lastSnapshotAt > c.maxAge then h
               else RestoreAll(h, Capped(entries), c)
  {
  }

  class HomeAssistant {
    var states: map<EntityId, Value>
    var commands: seq<(EntityId, bool)>

    constructor ()
      ensures View() == Home(map[], [])
    {
      states, commands := map[], [];
    }

    function View(): Home
      reads this
    {
      Home(states, commands)
    }

    /** The service call or the state write; may refuse. */
    method Apply(id: EntityId, e: SnapshotEntry, refuses: bool) returns (ok: bool)
      modifies this
      ensures ok == !refuses && View() == if ok then Effect(old(View()), id, e) else old(View())
      ensures ok && Domain(id) == "automation" && e.state in {"on", "off"} ==>
                commands == old(commands) + [(id, e.state == "on")] && states == old(states)
      ensures ok && !(Domain(id) == "automation" && e.state in {"on", "off"}) ==>
                states == old(states)[id := Value(e.state, e.attributes)] && commands == old(commands)
    {
      if refuses {
        return false;
      }
      if ByService(id, e) {
        commands := commands + [(id, e.state == "on")];
      } else {
        states := states[id := Value(e.state, e.attributes)];
      }
      ok := true;
    }

    method RestoreEntry(id: EntityId, e: SnapshotEntry, c: Context) returns (outcome: Outcome)
      modifies this
      ensures outcome == Classify(id, e, c)
      ensures View() == if outcome == Restored then Effect(old(View()), id, e) else old(View())
    {
      if e.sourceNode == c.nodeId {
        return OwnNode;
      }
      var stamp := ParseStamp(e.lastUpdated);
      if stamp == None {
        return Unparseable;
      }
      var updated := stamp.value;
      if updated > c.now + CLOCK_SKEW_TOLERANCE {
        return Future;
      }
      if updated > c.now {
        updated := c.now;
      }
      if !ShouldTrack(id, c.cfg, c.excludedIds) {
        return Untracked;
      }
      if !WithinBudget(e.attributes) {
        return Oversized;
      }
      if id in c.localUpdated && c.localUpdated[id] > updated && !c.atBoot {
        return LocalNewer;
      }
      if IsAutomation(id) && id in c.pinned {
        return Pinned;
      }
      var ok := Apply(id, e, id in c.refuses);
      outcome := if ok then Restored else Refused;
    }

    method RestoreEntries(es: EntryList, c: Context) returns (n: Counts)
      modifies this
      ensures View() == RestoreAll(old(View()), es, c) && n == Tally(es, c)
    {
      n := Counts(0, 0, 0, 0, 0, 0, 0, 0);
      for i := 0 to |es|
        invariant View() == RestoreAll(old(View()), es[..i], c)
        invariant n == Tally(es[..i], c)
      {
        assert es[..i + 1][..i] == es[..i];
        var outcome := RestoreEntry(es[i].0, es[i].1, c);
        match outcome {
          case OwnNode => n := n.(ownNode := n.ownNode + 1);
          case Unparseable => n := n.(unparseable := n.unparseable + 1);
          case Future => n := n.(future := n.future + 1);
          case Untracked =>
          case Oversized => n := n.(oversized := n.oversized + 1);
          case LocalNewer => n := n.(localNewer := n.localNewer + 1);
          case Pinned => n := n.(pinned := n.pinned + 1);
          case Refused => n := n.(refused := n.refused + 1);
          case Restored => n := n.(restored := n.restored + 1);
        }
      }
      assert es[..|es|] == es;
    }

    method RestoreFromSnapshot(entries: EntryList, meta: Option<Mirror.Meta>, c: Context) returns (report: Report)
      modifies this
      ensures report == NoSecret <==> c.secret == ""
      ensures report == Cold <==> c.secret != "" && entries == []
      ensures report == TooOld <==>
                c.secret != "" && entries != [] && meta.Some? && c.now - meta.value.lastSnapshotAt > c.maxAge
      ensures View() == AfterRestore(old(View()), entries, meta, c)
      ensures View() == if report.Done? then RestoreAll(old(View()), Capped(entries), c) else old(View())
      ensures report.Done? ==>
                var es := Capped(entries);
                report.entries == |es|
                && report.counts == Tally(es, c)
                && report.counts.restored == Count(es, c, Restored) && report.counts.ownNode == Count(es, c, OwnNode)
                && report.counts.future == Count(es, c, Future) && report.counts.pinned == Count(es, c, Pinned)
                && report.counts.oversized == Count(es, c, Oversized)
                && report.counts.unparseable == Count(es, c, Unparseable)
                && report.counts.localNewer == Count(es, c, LocalNewer)
                && report.counts.refused == Count(es, c, Refused)
                && Total(report.counts) == |es| - Count(es, c, Untracked)
                && (c.atBoot ==> report.counts.localNewer == 0)
                && (report.peerSnapshot <==> exists i :: 0 <= i < |es| && es[i].1.sourceNode != c.nodeId)
    {
      if c.secret == "" {
        return NoSecret;
      }
      if entries == [] {
        return Cold;
      }
      var es := Capped(entries);
      if TooOldToRestore(meta, c) {
        return TooOld;
      }
      var n := RestoreEntries(es, c);
      BucketsPartition(es, c);
      OwnNodeCount(es, c);
      report := Done(|es|, n, n.ownNode < |es|);
    }
  }
}
