/**
 The fileset publisher as a protocol over the shared store: every blob SET, the
 manifest SET and every prune DEL is its own step, a pass may fail between any
 two of them (or after a write whose reply was lost), and the publisher may be
 replaced by a fresh one at any point.
 */
module Publisher {
  import opened Wrappers
  import opened Fileset

  datatype Plan = Plan(entries: Entries, bodies: map<Ref, Body>)

  datatype Phase = Idle | Writing(plan: Plan, todo: set<Ref>) | Pruning(keep: set<Ref>)

  /** The store (`blobs`, `manifest`) and the live publisher's own memory. */
  datatype State = State(
    blobs: map<Ref, Body>,
    manifest: Option<Entries>,
    generation: nat,
    current: Entries,
    previous: Entries,
    phase: Phase)

  datatype Event =
    | Begin(plan: Plan)
    | PutBlob(ref: Ref)
    | PutManifest(acked: bool)
    | Prune(ref: Ref)
    | Finish
    | Abort
    | Restart

  /** What a scan against `current` guarantees: a reference is new and carried, or
      was already published. */
  predicate Carries(plan: Plan, current: Entries) {
    && Refs(plan.entries) <= plan.bodies.Keys + Refs(current)
    && forall ref :: ref in plan.bodies ==> plan.bodies[ref] == ref.content
  }

  predicate Enabled(s: State, e: Event) {
    match e
    case Begin(plan) => s.phase.Idle? && Carries(plan, s.current)
    case PutBlob(ref) => s.phase.Writing? && ref in s.phase.todo && ref in s.phase.plan.bodies
    case PutManifest(_) => s.phase.Writing? && s.phase.todo == {}
    case Prune(ref) => s.phase.Pruning? && ref !in s.phase.keep
    case _ => true
  }

  function Step(s: State, e: Event): State {
    if !Enabled(s, e) then s
    else match e
      case Begin(plan) => s.(generation := s.generation + 1, phase := Writing(plan, plan.bodies.Keys))
      case PutBlob(ref) =>
        s.(blobs := s.blobs[ref := s.phase.plan.bodies[ref]], phase := s.phase.(todo := s.phase.todo - {ref}))
      case PutManifest(true) =>
        s.(manifest := Some(s.phase.plan.entries), previous := s.current, current := s.phase.plan.entries,
           phase := Pruning(Refs(s.phase.plan.entries) + Refs(s.current)))
      case PutManifest(false) => s.(manifest := Some(s.phase.plan.entries), phase := Idle)
      case Prune(ref) => s.(blobs := s.blobs - {ref})
      case Finish => s.(phase := Idle)
      case Abort => s.(phase := Idle)
      case Restart => s.(generation := 0, current := map[], previous := map[], phase := Idle)
  }

  function At(s: State, es: seq<Event>, k: nat): State
    requires k <= |es|
  {
    if k == 0 then s else Step(At(s, es, k - 1), es[k - 1])
  }

  // ------------------------------------------------------ no dangling reference

  predicate NoDangling(s: State) {
    s.manifest.Some? ==> Refs(s.manifest.value) <= s.blobs.Keys
  }

  predicate Addressed(s: State) {
    forall ref :: ref in s.blobs ==> s.blobs[ref] == ref.content
  }

  predicate Inv(s: State) {
    && NoDangling(s)
    && Addressed(s)
    && Refs(s.current) <= s.blobs.Keys
    && Refs(s.previous) <= s.blobs.Keys
    && (s.phase.Writing? ==>
          && Carries(s.phase.plan, s.current)
          && s.phase.todo <= s.phase.plan.bodies.Keys
          && Refs(s.phase.plan.entries) <= s.blobs.Keys + s.phase.todo)
    && (s.phase.Pruning? ==>
          s.manifest == Some(s.current) && s.phase.keep == Refs(s.current) + Refs(s.previous))
  }

  lemma WriteKeepsInv(s: State, e: Event)
    requires Inv(s) && (e.Begin? || e.PutBlob?)
    ensures Inv(Step(s, e))
  {
  }

  lemma PutManifestKeepsInv(s: State, acked: bool)
    requires Inv(s)
    ensures Inv(Step(s, PutManifest(acked)))
  {
  }

  lemma StepKeepsInv(s: State, e: Event)
    requires Inv(s)
    ensures Inv(Step(s, e))
  {
    match e
    case Begin(_) => WriteKeepsInv(s, e);
    case PutBlob(_) => WriteKeepsInv(s, e);
    case PutManifest(acked) => PutManifestKeepsInv(s, acked);
    case Prune(_) =>
    case Finish =>
    case Abort =>
    case Restart => assert Refs(map[]) == {};
  }

  /** In every intermediate store state of every run, every reference of the
      stored manifest has its blob, and the blob is that reference's content. */
  lemma {:induction false} NeverDangling(s: State, es: seq<Event>, k: nat)
    requires k <= |es| && Inv(s)
    ensures Inv(At(s, es, k)) && NoDangling(At(s, es, k)) && Addressed(At(s, es, k))
  {
    if k > 0 {
      NeverDangling(s, es, k - 1);
      StepKeepsInv(At(s, es, k - 1), es[k - 1]);
    }
  }

  /** A store nobody has published to satisfies the invariant; so does any store
      without dangling references, once a fresh publisher takes it over. */
  lemma TakeoverEstablishesInv(s: State)
    requires NoDangling(s) && Addressed(s)
    ensures Inv(Step(s, Restart))
  {
    assert Refs(map[]) == {};
  }

  // -------------------------------------------------- one generation of rollback

  predicate Completes(s: State, es: seq<Event>, i: nat) {
    i < |es| && es[i] == PutManifest(true) && Enabled(At(s, es, i), es[i])
  }

  function Completions(s: State, es: seq<Event>, i: nat, k: nat): nat
    requires i <= k <= |es|
  {
    if i == k then 0 else Completions(s, es, i, k - 1) + if Completes(s, es, k - 1) then 1 else 0
  }

  lemma {:induction false} MemoryAfterCompletion(s: State, es: seq<Event>, i: nat, k: nat)
    requires i < k <= |es| && Completes(s, es, i)
    requires Completions(s, es, i + 1, k) <= 1
    requires forall j :: i < j < k ==> es[j] != Restart
    ensures var published := At(s, es, i).phase.plan.entries;
            if Completions(s, es, i + 1, k) == 0 then At(s, es, k).current == published
            else At(s, es, k).previous == published
  {
    if i + 1 < k {
      MemoryAfterCompletion(s, es, i, k - 1);
    }
  }

  /** Every blob the entries name is there, with its exact content. */
  predicate Whole(entries: Entries, blobs: map<Ref, Body>) {
    forall p :: p in entries ==> entries[p].ref in blobs && blobs[entries[p].ref] == entries[p].ref.content
  }

  /** A reader holding the manifest of a completed pass finds all its blobs, with
      their exact contents, until a second later pass by the same publisher
      completes -- however many passes fail in between. */
  lemma OneGenerationOfRollback(s: State, es: seq<Event>, i: nat, k: nat)
    requires i < k <= |es| && Inv(s) && Completes(s, es, i)
    requires Completions(s, es, i + 1, k) <= 1
    requires forall j :: i < j < k ==> es[j] != Restart
    ensures Whole(At(s, es, i).phase.plan.entries, At(s, es, k).blobs)
  {
    var published := At(s, es, i).phase.plan.entries;
    MemoryAfterCompletion(s, es, i, k);
    NeverDangling(s, es, k);
    forall p | p in published
      ensures published[p].ref in At(s, es, k).blobs
    {
      assert published[p].ref in Refs(published);
    }
  }

  function OneFile(body: Body): Entries {
    map["f" := FileEntry("f", Ref(body), Stat(1, 0, 0))]
  }

  function OneFilePlan(body: Body): Plan {
    Plan(OneFile(body), map[Ref(body) := body])
  }

  lemma OneRef(body: Body)
    ensures Refs(OneFile(body)) == {Ref(body)}
  {
    assert OneFile(body)["f"].ref == Ref(body);
  }

  /** One whole pass over a one-file configuration, up to its prune. */
  predicate PassAt(es: seq<Event>, i: nat, body: Body) {
    && i + 3 <= |es|
    && es[i] == Begin(OneFilePlan(body)) && es[i + 1] == PutBlob(Ref(body)) && es[i + 2] == PutManifest(true)
  }

  lemma PassRuns(s: State, es: seq<Event>, i: nat, body: Body)
    requires PassAt(es, i, body) && At(s, es, i).phase == Idle
    ensures Completes(s, es, i + 2)
    ensures var old', new' := At(s, es, i), At(s, es, i + 3);
            new' == State(old'.blobs[Ref(body) := body], Some(OneFile(body)), old'.generation + 1, OneFile(body),
                          old'.current, Pruning(Refs(OneFile(body)) + Refs(old'.current)))
  {
    var plan := OneFilePlan(body);
    OneRef(body);
    assert Carries(plan, At(s, es, i).current) && plan.bodies.Keys == {Ref(body)};
    assert At(s, es, i + 1)
        == At(s, es, i).(generation := At(s, es, i).generation + 1, phase := Writing(plan, {Ref(body)}));
    assert At(s, es, i + 2).phase == Writing(plan, {});
  }

  lemma FinishIdles(s: State, es: seq<Event>, i: nat)
    requires i < |es| && es[i] == Finish
    ensures At(s, es, i + 1) == At(s, es, i).(phase := Idle)
  {
  }

  /** The bound is tight: after two later completed passes the blobs may go. */
  lemma SecondLaterPublishMayPrune(s: State, es: seq<Event>, i: nat, j: nat, k: nat)
    requires j == i + 4 && k == j + 4 && k + 3 < |es| && At(s, es, i).phase == Idle
    requires PassAt(es, i, "a") && es[i + 3] == Finish && PassAt(es, j, "b") && es[j + 3] == Finish
    requires PassAt(es, k, "c")
    requires es[k + 3] == Prune(Ref("a"))
    ensures Completes(s, es, i + 2) && Completes(s, es, j + 2) && Completes(s, es, k + 2)
    ensures Ref("a") in At(s, es, i + 3).blobs && Ref("a") !in At(s, es, k + 4).blobs
  {
    PassRuns(s, es, i, "a");
    FinishIdles(s, es, i + 3);
    PassRuns(s, es, j, "b");
    FinishIdles(s, es, j + 3);
    PassRuns(s, es, k, "c");
    OneRef("b");
    OneRef("c");
    assert At(s, es, k + 4) == Step(At(s, es, k + 3), Prune(Ref("a")));
  }

  /** One live publisher is needed: one that resumes without a restart after
      another node has pruned still believes its old blobs are stored. */
  lemma ResumedPublisherDangles()
    ensures var s := State(map[Ref("b") := "b"], Some(OneFile("b")), 1, OneFile("a"), map[], Idle);
            var es := [Begin(Plan(OneFile("a"), map[])), PutManifest(true)];
            NoDangling(s) && Addressed(s) && !NoDangling(At(s, es, 2))
  {
    var s := State(map[Ref("b") := "b"], Some(OneFile("b")), 1, OneFile("a"), map[], Idle);
    var es := [Begin(Plan(OneFile("a"), map[])), PutManifest(true)];
    OneRef("a");
    OneRef("b");
    var plan := Plan(OneFile("a"), map[]);
    assert Carries(plan, OneFile("a")) && plan.bodies.Keys == {};
    assert At(s, es, 1) == s.(generation := 2, phase := Writing(Plan(OneFile("a"), map[]), {}));
    assert At(s, es, 2).manifest == Some(OneFile("a"));
  }

  /** The blob writes of one pass, from the step after its start up to step `k`. */
  predicate WritesOnly(es: seq<Event>, i: nat, k: nat) {
    k <= |es| && forall j :: i < j < k ==> es[j].PutBlob?
  }

  lemma {:induction false} WritesAdd(s: State, es: seq<Event>, i: nat, k: nat, plan: Plan)
    requires i < k && WritesOnly(es, i, k) && es[i] == Begin(plan) && Enabled(At(s, es, i), es[i])
    ensures var t := At(s, es, k);
            && t.phase.Writing? && t.phase.plan == plan && t.phase.todo <= plan.bodies.Keys
            && t.blobs.Keys == At(s, es, i).blobs.Keys + (plan.bodies.Keys - t.phase.todo)
  {
    if k > i + 1 {
      WritesAdd(s, es, i, k - 1, plan);
      assert es[k - 1].PutBlob?;
    }
  }

  /** Exactly when a pass leaves the manifest whole, whatever its publisher remembers --
      fresh, or resumed after another node has pruned: every reference the pass does not
      itself carry is stored when it starts, as the publisher could ask before it
      writes. The same if the manifest lands and its reply is lost. */
  lemma PassDanglesExactly(s: State, es: seq<Event>, i: nat, k: nat, plan: Plan)
    requires i < k < |es| && WritesOnly(es, i, k) && es[i] == Begin(plan) && Enabled(At(s, es, i), es[i])
    requires es[k].PutManifest? && Enabled(At(s, es, k), es[k])
    ensures NoDangling(At(s, es, k + 1)) <==> Refs(plan.entries) - plan.bodies.Keys <= At(s, es, i).blobs.Keys
  {
    WritesAdd(s, es, i, k, plan);
    var t := At(s, es, k);
    assert At(s, es, k + 1).manifest == Some(plan.entries) && At(s, es, k + 1).blobs == t.blobs;
  }

  // ---------------------------------------------------------- the implementation

  class Store {
    var blobs: map<Ref, Body>
    var manifest: Option<Entries>

    constructor ()
      ensures blobs == map[] && manifest == None
    {
      blobs, manifest := map[], None;
    }
  }

  /** Where one pass breaks. A failed manifest write may or may not have landed. */
  datatype Fault =
    | NoFault
    | BlobsFail(landed: set<Ref>)
    | ManifestFail(stored: bool)
    | PruneFail(deleted: set<Ref>)

  datatype Outcome =
    | Published(generation: nat, files: nat, blobsWritten: nat, pruned: nat)
    | Refused(generation: nat, files: nat)
    | Raised

  lemma {:induction false} AtAppend(s: State, es: seq<Event>, e: Event, k: nat)
    requires k <= |es|
    ensures At(s, es + [e], k) == At(s, es, k)
  {
    if k > 0 { AtAppend(s, es, e, k - 1); }
  }

  /** A failed prune does not undo the publish. */
  predicate Succeeds(fault: Fault) {
    fault == NoFault || fault.PruneFail?
  }

  class FilesetPublisher {
    const store: Store
    const excluded: set<Path>
    const maxBytes: nat
    var generation: nat
    var current: Entries
    var previous: Entries

    constructor (store: Store, excluded: set<Path>, maxBytes: nat)
      ensures this.store == store && this.excluded == excluded && this.maxBytes == maxBytes
      ensures View() == Step(View(), Restart)
    {
      this.store, this.excluded, this.maxBytes := store, excluded, maxBytes;
      generation, current, previous := 0, map[], map[];
    }

    function View(): State
      reads this, store
    {
      State(store.blobs, store.manifest, generation, current, previous, Idle)
    }

    /** One pass. `es` is the pass as protocol steps: the store states it goes
        through are exactly those of the run, so each of them is covered by
        `NeverDangling`. */
    method Publish(candidates: seq<Path>, disk: Disk, fault: Fault) returns (outcome: Outcome, ghost es: seq<Event>)
      modifies this`generation, this`current, this`previous, store
      ensures View() == At(old(View()), es, |es|)
      ensures Restart !in es
      ensures outcome.Published? ==>
                && current == EntriesAgainst(candidates, excluded, disk, old(current))
                && store.manifest == Some(current) && previous == old(current)
                && generation == old(generation) + 1 == outcome.generation && outcome.files == |current|
                && outcome.blobsWritten == |Uploads(current, disk, previous)|
      ensures outcome.Published? && !fault.PruneFail? ==>
                Pruned(old(store.blobs.Keys) + Uploads(current, disk, previous), store.blobs.Keys, outcome.pruned)
      ensures fault.BlobsFail? || fault == ManifestFail(false) ==>
                !outcome.Published? && store.manifest == old(store.manifest)
      ensures var readable, fits := CanRead(candidates, excluded, disk, old(current)),
                                    TotalSize(candidates, excluded, disk) <= maxBytes;
              && (outcome.Published? <==> readable && fits && Succeeds(fault))
              && (readable ==> (outcome.Refused? <==> !fits))
      ensures !outcome.Published? ==> current == old(current) && previous == old(previous)
      ensures outcome.Refused? ==>
                View() == old(View()) && TotalSize(candidates, excluded, disk) > maxBytes
    {
      es := [];
      ghost var s0 := View();
      var scanned := Scan(candidates, excluded, disk, current, Some(maxBytes));
      match scanned {
        case TooLarge(_) => return Refused(generation, |current|), es;
        case ReadFailed(_) => return Raised, es;
        case Scanned(entries, bodies, _) =>
          generation := generation + 1;
          ghost var s;
          s, es := Append(s0, es, s0, Begin(Plan(entries, bodies)));
          CarriesScan(candidates, excluded, disk, current, entries, bodies);
          var ok, pruned;
          ok, pruned, es := WriteAndPrune(entries, bodies, fault, s0, s, es);
          if !ok {
            return Raised, es;
          }
          return Published(generation, |current|, |bodies|, pruned), es;
      }
    }

    /** Of the blobs there were once all were written, those of the two generations the
        publisher remembers are left, and the rest are counted. */
    predicate Pruned(written: set<Ref>, left: set<Ref>, pruned: nat)
      reads this`current, this`previous
    {
      left == written * (Refs(current) + Refs(previous)) && pruned == |written - (Refs(current) + Refs(previous))|
    }

    /** The pass once it has a plan. */
    method WriteAndPrune(entries: Entries, bodies: map<Ref, Body>, fault: Fault,
                         ghost s0: State, ghost s1: State, ghost es1: seq<Event>)
      returns (ok: bool, pruned: nat, ghost es: seq<Event>)
      requires s1 == At(s0, es1, |es1|) && s1 == View().(phase := Writing(Plan(entries, bodies), bodies.Keys))
      requires Restart !in es1
      modifies this`current, this`previous, store
      ensures View() == At(s0, es, |es|) && Restart !in es
      ensures ok <==> Succeeds(fault)
      ensures if ok then current == entries && previous == old(current) && store.manifest == Some(entries)
              else current == old(current) && previous == old(previous)
      ensures fault.BlobsFail? || fault == ManifestFail(false) ==> store.manifest == old(store.manifest)
      ensures ok && !fault.PruneFail? ==>
                Pruned(old(store.blobs.Keys) + bodies.Keys, store.blobs.Keys, pruned)
    {
      ghost var s;
      pruned := 0;
      ok, s, es := WriteFileset(entries, bodies, fault, s0, s1, es1);
      if !ok {
        return;
      }
      previous, current := current, entries;
      pruned, s, es := PruneBlobs(fault, s0, s, es);
      s, es := Append(s0, es, s, Finish);
    }

    /** Extend a recorded run by one step. */
    ghost method Append(s0: State, es: seq<Event>, s: State, e: Event) returns (s': State, es': seq<Event>)
      requires s == At(s0, es, |es|)
      ensures s' == Step(s, e) == At(s0, es', |es'|) && es' == es + [e]
    {
      AtAppend(s0, es, e, |es|);
      s', es' := Step(s, e), es + [e];
    }

    /** Blobs first, manifest last; raises (answers false) on any failure. */
    method WriteFileset(entries: Entries, bodies: map<Ref, Body>, fault: Fault,
                        ghost s0: State, ghost s1: State, ghost es1: seq<Event>)
      returns (ok: bool, ghost s: State, ghost es: seq<Event>)
      requires s1 == At(s0, es1, |es1|) && s1 == View().(phase := Writing(Plan(entries, bodies), bodies.Keys))
      requires Restart !in es1
      modifies store
      ensures s == At(s0, es, |es|) && Restart !in es
      ensures s.blobs == store.blobs && s.manifest == store.manifest && s.generation == generation
      ensures ok <==> Succeeds(fault)
      ensures ok ==> store.blobs.Keys == old(store.blobs.Keys) + bodies.Keys
      ensures fault.BlobsFail? || fault == ManifestFail(false) ==> store.manifest == old(store.manifest)
      ensures if ok then
                s.current == entries && s.previous == current && s.phase == Pruning(Refs(entries) + Refs(current))
                && store.manifest == Some(entries)
              else s == View()
    {
      s, es := s1, es1;
      var todo := bodies.Keys;
      while todo != {}
        invariant todo <= bodies.Keys && store.manifest == old(store.manifest)
        invariant store.blobs.Keys == old(store.blobs.Keys) + (bodies.Keys - todo)
        invariant s == At(s0, es, |es|) && Restart !in es
        invariant s == View().(phase := Writing(Plan(entries, bodies), todo))
      {
        var ref :| ref in todo;
        if fault.BlobsFail? && ref !in fault.landed {
          s, es := Append(s0, es, s, Abort);
          return false, s, es;
        }
        store.blobs := store.blobs[ref := bodies[ref]];
        s, es := Append(s0, es, s, PutBlob(ref));
        todo := todo - {ref};
      }
      if fault.BlobsFail? || fault == ManifestFail(false) {
        s, es := Append(s0, es, s, Abort);
        return false, s, es;
      }
      store.manifest := Some(entries);
      ok := !fault.ManifestFail?;
      s, es := Append(s0, es, s, PutManifest(ok));
    }

    /** Delete every blob outside the current and previous generation. A failed
        pass deletes some of them and answers 0. */
    method PruneBlobs(fault: Fault, ghost s0: State, ghost s1: State, ghost es1: seq<Event>)
      returns (pruned: nat, ghost s: State, ghost es: seq<Event>)
      requires s1 == At(s0, es1, |es1|) && s1 == View().(phase := Pruning(Refs(current) + Refs(previous)))
      requires Restart !in es1
      modifies store`blobs
      ensures s == At(s0, es, |es|) && Restart !in es
      ensures s == View().(phase := Pruning(Refs(current) + Refs(previous)))
      ensures !fault.PruneFail? ==>
                var doomed := old(store.blobs.Keys) - (Refs(current) + Refs(previous));
                store.blobs.Keys == old(store.blobs.Keys) * (Refs(current) + Refs(previous)) && pruned == |doomed|
    {
      var keep := Refs(current) + Refs(previous);
      var doomed := store.blobs.Keys - keep;
      if fault.PruneFail? {
        s, es := DeleteAll(doomed * fault.deleted, keep, s0, s1, es1);
        pruned := 0;
      } else {
        s, es := DeleteAll(doomed, keep, s0, s1, es1);
        pruned := |doomed|;
      }
    }

    method DeleteAll(targets: set<Ref>, ghost keep: set<Ref>, ghost s0: State, ghost s1: State, ghost es1: seq<Event>)
      returns (ghost s: State, ghost es: seq<Event>)
      requires targets !! keep && Restart !in es1
      requires s1 == At(s0, es1, |es1|) && s1 == View().(phase := Pruning(keep))
      modifies store`blobs
      ensures s == At(s0, es, |es|) && Restart !in es && s == View().(phase := Pruning(keep))
      ensures store.blobs == old(store.blobs) - targets
    {
      s, es := s1, es1;
      var todo := targets;
      ghost var gone: set<Ref> := {};
      assert store.blobs - gone == store.blobs;
      while todo != {}
        invariant gone + todo == targets
        invariant store.blobs == old(store.blobs) - gone
        invariant s == At(s0, es, |es|) && Restart !in es
        invariant s == s1.(blobs := store.blobs)
      {
        var ref :| ref in todo;
        RemoveOneMore(old(store.blobs), gone, ref);
        store.blobs := store.blobs - {ref};
        s, es := Append(s0, es, s, Prune(ref));
        todo, gone := todo - {ref}, gone + {ref};
      }
    }
  }

  lemma RemoveOneMore(blobs: map<Ref, Body>, gone: set<Ref>, ref: Ref)
    ensures blobs - gone - {ref} == blobs - (gone + {ref})
  {
  }

  /** What a scan returns is always a plan the protocol accepts. */
  lemma CarriesScan(candidates: seq<Path>, excluded: set<Path>, disk: Disk, current: Entries,
                    entries: Entries, bodies: map<Ref, Body>)
    requires entries == EntriesAgainst(candidates, excluded, disk, current)
    requires bodies == map ref | ref in Uploads(entries, disk, current) :: ref.content
    ensures Carries(Plan(entries, bodies), current)
  {
    forall ref | ref in Refs(entries)
      ensures ref in bodies.Keys + Refs(current)
    {
      var p :| p in entries && entries[p].ref == ref;
      if Unchanged(p, disk, current) {
        assert current[p].ref in Refs(current);
      }
    }
  }

  /** A follower that pulls the stored manifest rebuilds, byte for byte, the files
      the leader's pass found on its disk. */
  lemma PullRebuildsTheScannedDisk(s: State, candidates: seq<Path>, excluded: set<Path>, disks: seq<Disk>,
                                   previous: Entries)
    requires Inv(s) && |disks| > 0 && Honest(disks) && Seen(previous, disks)
    requires s.manifest == Some(EntriesAgainst(candidates, excluded, disks[|disks| - 1], previous))
    ensures var disk := disks[|disks| - 1];
            Pulled(s) == map p | p in candidates && Kept(p, excluded, disk) :: disk[p].body
  {
    IncrementalEqualsFull(candidates, excluded, disks, previous);
    var entries := s.manifest.value;
    forall p | p in entries
      ensures entries[p].ref in s.blobs
    {
      assert entries[p].ref in Refs(entries);
    }
  }

  /** The follower's read: the manifest's paths with the blob each one names. */
  function Pulled(s: State): map<Path, Body> {
    if s.manifest == None then map[]
    else map p | p in s.manifest.value && s.manifest.value[p].ref in s.blobs :: s.blobs[s.manifest.value[p].ref]
  }
}
