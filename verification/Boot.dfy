/**
 The boot of a node: the restore gate, the flushes it holds back, and the flushes
 that go around it.

 Every mirror event other than a flush happens freely during the boot; so do the
 writes of other nodes. The restore starts when the home has started, reads the
 shared snapshot once, and ends normally or by raising at any point.
 */
module Boot {
  import opened Wrappers
  import opened Snapshot
  import opened Restore
  import M = Mirror

  /** Whether the restore is still to start, about to read, applying, or over. */
  datatype Phase = Waiting | Reading | Applying | Ended

  datatype State = State(mirror: M.State, gateOpen: bool, phase: Phase, seen: Option<M.Store>) {
    predicate BeforeTheRead() { phase == Waiting || phase == Reading }
  }

  datatype Event =
    | Mirrored(event: M.Event)
    | Peer(fields: map<EntityId, Raw>, meta: M.Meta)
    | Tick(leading: bool, id: nat)
    | ServiceFlush(leading: bool, id: nat)
    | StopFlush(leading: bool, id: nat)
    | UnloadFlush(id: nat)
    | Started
    | Read
    | Over
    | Timeout

  function PeerWrite(store: M.Store, fields: map<EntityId, Raw>, meta: M.Meta): M.Store {
    M.Store(store.hash + fields, Some(meta))
  }

  function Flush(s: State, id: nat): State {
    s.(mirror := M.Step(s.mirror, M.Begin(id)))
  }

  function Step(s: State, e: Event): State {
    match e
    case Mirrored(event) => if event.Begin? then s else s.(mirror := M.Step(s.mirror, event))
    case Peer(fields, meta) => s.(mirror := s.mirror.(store := PeerWrite(s.mirror.store, fields, meta)))
    case Tick(leading, id) => if leading && s.gateOpen then Flush(s, id) else s
    case ServiceFlush(leading, id) => if leading then Flush(s, id) else s
    case StopFlush(leading, id) => if leading then Flush(s, id) else s
    case UnloadFlush(id) => Flush(s, id)
    case Started => if s.phase == Waiting then s.(phase := Reading) else s
    case Read => if s.phase == Reading then s.(phase := Applying, seen := Some(s.mirror.store)) else s
    case Over => if s.phase == Reading || s.phase == Applying then s.(phase := Ended, gateOpen := true) else s
    case Timeout => s.(gateOpen := true)
  }

  function At(s: State, es: seq<Event>, k: nat): State
    requires k <= |es|
  {
    if k == 0 then s else Step(At(s, es, k - 1), es[k - 1])
  }

  /** A node set up while the home is still starting. */
  predicate Booting(s: State) {
    M.Fresh(s.mirror) && !s.gateOpen && s.phase == Waiting && s.seen == None
  }

  /** A node set up in a running home: no restore is coming. */
  predicate AddedLive(s: State) {
    M.Fresh(s.mirror) && s.gateOpen && s.phase == Ended && s.seen == None
  }

  /** The flushes that never look at the gate. */
  predicate Bypasses(e: Event) {
    (e.ServiceFlush? && e.leading) || (e.StopFlush? && e.leading) || e.UnloadFlush?
  }

  /** Until the read, nothing goes around the gate and the timeout stays quiet. */
  predicate Gated(s: State, es: seq<Event>, k: nat)
    requires k <= |es|
  {
    forall i: nat :: i < k ==> GatedAt(s, es, i)
  }

  predicate GatedAt(s: State, es: seq<Event>, i: nat) {
    i < |es| && (At(s, es, i).BeforeTheRead() ==> !Bypasses(es[i]) && !es[i].Timeout?)
  }

  /** The shared store as the other nodes alone make it. */
  function PeersOnly(store: M.Store, es: seq<Event>, k: nat): M.Store
    requires k <= |es|
  {
    if k == 0 then store
    else
      var before := PeersOnly(store, es, k - 1);
      if es[k - 1].Peer? then PeerWrite(before, es[k - 1].fields, es[k - 1].meta) else before
  }

  /** What another node last wrote in field `x`, and the metadata last written. */
  function LastPeerValue(es: seq<Event>, k: nat, x: EntityId): Option<Raw>
    requires k <= |es|
  {
    if k == 0 then None
    else if es[k - 1].Peer? && x in es[k - 1].fields then Some(es[k - 1].fields[x])
    else LastPeerValue(es, k - 1, x)
  }

  function LastPeerMeta(es: seq<Event>, k: nat): Option<M.Meta>
    requires k <= |es|
  {
    if k == 0 then None else if es[k - 1].Peer? then Some(es[k - 1].meta) else LastPeerMeta(es, k - 1)
  }

  /** Field by field: the last write of another node, or what was there before. */
  lemma {:induction false} PeersOnlyIsLastWritten(store: M.Store, es: seq<Event>, k: nat, x: EntityId)
    requires k <= |es|
    ensures var left, last := PeersOnly(store, es, k), LastPeerValue(es, k, x);
            && (x in left.hash <==> last.Some? || x in store.hash)
            && (x in left.hash ==> left.hash[x] == if last.Some? then last.value else store.hash[x])
            && left.meta == if LastPeerMeta(es, k).Some? then LastPeerMeta(es, k) else store.meta
  {
    if k > 0 {
      PeersOnlyIsLastWritten(store, es, k - 1, x);
    }
  }

  predicate Untouched(s: State, store: M.Store) {
    s.BeforeTheRead() ==> !s.gateOpen && s.mirror.flights == map[] && s.mirror.store == store
  }

  lemma StepKeepsUntouched(s: State, store: M.Store, e: Event)
    requires Untouched(s, store)
    requires s.BeforeTheRead() ==> !Bypasses(e) && !e.Timeout?
    ensures Untouched(Step(s, e), if e.Peer? then PeerWrite(store, e.fields, e.meta) else store)
  {
  }

  /** Restore before publish: the snapshot the restore reads is exactly the one the
      other nodes left, whatever this node's own mirror did meanwhile. */
  lemma {:induction false} ReadSeesOnlyPeers(s: State, es: seq<Event>, k: nat)
    requires k <= |es| && Booting(s) && Gated(s, es, k)
    ensures Untouched(At(s, es, k), PeersOnly(s.mirror.store, es, k))
    ensures k < |es| && es[k] == Read && At(s, es, k).phase == Reading ==>
              At(s, es, k + 1).seen == Some(PeersOnly(s.mirror.store, es, k))
  {
    if k > 0 {
      ReadSeesOnlyPeers(s, es, k - 1);
      assert GatedAt(s, es, k - 1);
      StepKeepsUntouched(At(s, es, k - 1), PeersOnly(s.mirror.store, es, k - 1), es[k - 1]);
    }
  }

  /** The gate is open once the restore is over, however it ended, and before that
      only when the timeout opened it. It never closes again. */
  lemma {:induction false} GateOpensExactly(s: State, es: seq<Event>, k: nat)
    requires k <= |es| && (Booting(s) || AddedLive(s))
    ensures At(s, es, k).gateOpen <==> At(s, es, k).phase == Ended || exists i :: 0 <= i < k && es[i].Timeout?
  {
    if k > 0 {
      GateOpensExactly(s, es, k - 1);
    }
  }

  /** So a failed restore does not silence the node: the next tick of a leader with
      anything new to say sends it. */
  lemma PublishesAfterTheRestore(s: State, es: seq<Event>, k: nat, id: nat)
    requires k <= |es| && Booting(s) && At(s, es, k).phase == Ended
    requires id !in At(s, es, k).mirror.flights && M.FlushPayload(At(s, es, k).mirror.memory).Some?
    ensures id in Step(At(s, es, k), Tick(true, id)).mirror.flights
  {
    GateOpensExactly(s, es, k);
  }

  /** Exactly when this node sends anything behind a closed gate: on a flush that goes
      around it, with something to say. */
  lemma OnlyAnUngatedFlushIsSent(s: State, e: Event)
    requires !s.gateOpen && s.mirror.flights == map[]
    ensures Step(s, e).mirror.flights != map[] <==> Bypasses(e) && M.FlushPayload(s.mirror.memory).Some?
  {
    if Bypasses(e) && M.FlushPayload(s.mirror.memory).Some? {
      assert e.id in Step(s, e).mirror.flights;
    }
  }

  /** Which flushes send, with anything to say: the scheduled one of a leader behind an
      open gate, a leader's service and stop flushes, and the unload flush always. */
  lemma SendsExactly(s: State, leading: bool, id: nat)
    requires id !in s.mirror.flights
    ensures var news := M.FlushPayload(s.mirror.memory).Some?;
            && (id in Step(s, Tick(leading, id)).mirror.flights <==> news && leading && s.gateOpen)
            && (id in Step(s, ServiceFlush(leading, id)).mirror.flights <==> news && leading)
            && (id in Step(s, StopFlush(leading, id)).mirror.flights <==> news && leading)
            && (id in Step(s, UnloadFlush(id)).mirror.flights <==> news)
    ensures Step(s, UnloadFlush(id)).mirror.store == s.mirror.store
  {
  }

  /** Who reads the snapshot next: after a service flush the same boot; a stop or an
      unload ends this instance, and the next boot over the same store reads it. */
  predicate ReadsNext(landed: State, e: Event, reader: State) {
    if e.ServiceFlush? then reader == landed
    else Booting(reader) && reader.mirror.store == landed.mirror.store && reader.mirror.node == landed.mirror.node
  }

  /** What the gate prevents, and the ungated flushes do not: one that lands before the
      read leaves the next restore nothing but this node's own entry. The unload flush
      needs no leadership for it. */
  lemma UngatedFlushHidesThePeer(s: State, x: EntityId, live: M.Live, e: Event, now: int, reader: State, c: Context)
    requires Booting(s) && ShouldTrack(x, s.mirror.cfg, s.mirror.excludedIds) && WithinBudget(live.attributes)
    requires Bypasses(e) && c.nodeId == s.mirror.node && c.secret == s.mirror.secret
    requires ReadsNext(Step(Step(Step(s, Mirrored(M.Record(x, live))), e), Mirrored(M.Land(e.id, now))), e, reader)
    ensures var read := Step(Step(reader, Started), Read);
            && read.seen.Some? && x in read.seen.value.hash
            && FromJson(x, read.seen.value.hash[x], c.secret).Ok?
            && Classify(x, FromJson(x, read.seen.value.hash[x], c.secret).value, c) == OwnNode
  {
    var entry := M.EntryFromState(x, live, s.mirror.node);
    M.RecordThenSend(s.mirror, x, live, e.id);
    var sent := Step(Step(s, Mirrored(M.Record(x, live))), e);
    assert sent.mirror == M.Step(M.Step(s.mirror, M.Record(x, live)), M.Begin(e.id));
    var landed := Step(sent, Mirrored(M.Land(e.id, now)));
    assert landed.phase == Waiting && landed.mirror.store.hash[x] == ToJson(entry, c.secret);
    assert reader.phase == Waiting && reader.mirror.store == landed.mirror.store;
  }

  // ---------------------------------------------------------- the implementation

  /** The entries a pass gets to before it raises. */
  function Reached(entries: EntryList, n: nat): (r: EntryList)
    ensures r <= entries && |r| <= n && |r| <= 5000
    ensures |r| in {n, 5000, |entries|}
  {
    var capped := Capped(entries);
    if n < |capped| then capped[..n] else capped
  }

  /** Where the restore raises, if it does: at the read, or after `n` entries. */
  datatype RestoreFault = NoFault | AtRead | After(n: nat)

  class RestoreGate {
    const mirror: M.StateMirror
    var done: bool

    constructor (mirror: M.StateMirror, homeRunning: bool)
      ensures this.mirror == mirror && done == homeRunning
    {
      this.mirror, done := mirror, homeRunning;
    }

    /** The listener for the start of the home: the gate opens however the restore ends.
        What it applied before it raised stays applied. */
    method OnStart(home: HomeAssistant, entries: EntryList, meta: Option<M.Meta>, c: Context, fault: RestoreFault)
      requires c.atBoot
      modifies this, home
      ensures done
      ensures home.View() == match fault
                             case NoFault => AfterRestore(old(home.View()), entries, meta, c)
                             case AtRead => old(home.View())
                             case After(n) => AfterRestore(old(home.View()), Reached(entries, n), meta, c)
    {
      match fault {
        case NoFault =>
          var report := home.RestoreFromSnapshot(entries, meta, c);
        case AtRead =>
        case After(n) =>
          var report := home.RestoreFromSnapshot(Reached(entries, n), meta, c);
      }
      done := true;
    }

    method OpenAnyway()
      modifies this
      ensures done
    {
      if done {
        return;
      }
      done := true;
    }

    /** What the scheduled flush sends. */
    method ScheduledFlush(leading: bool) returns (payload: Option<M.Entries>, sent: nat)
      ensures payload == if leading && done then M.FlushPayload(mirror.View()) else None
      ensures leading && done ==> sent == mirror.revision
    {
      if !leading {
        return None, 0;
      }
      if !done {
        return None, 0;
      }
      var oversized;
      payload, sent, oversized := mirror.BeginFlush();
    }
  }
}
