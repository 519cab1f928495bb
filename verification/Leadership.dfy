/**
 Leadership resolution as a protocol: any number of nodes, each running any
 number of overlapping checks, against one lease key and one maintenance hold.

 A check is three separate steps with arbitrary interleaving between them: read
 the local hold flag, read the shared hold key, then run the lease script the
 two reads selected. A call may be lost before it reaches the server.
 */
module Leadership {
  import opened Wrappers
  import opened Lease

  /** How far a check has got. `blind` marks a failed read of the shared hold
      key, which answers "not held". */
  datatype Stage = LocalClear | Ready(held: bool, blind: bool)

  datatype Check = Check(node: Node, stage: Stage)

  datatype Hold = NoHold | Hold(until: Option<nat>)

  datatype State = State(
    server: Server,
    sharedHold: Hold,
    localHold: set<Node>,
    checks: map<nat, Check>)
  {
    predicate SharedHeld() {
      sharedHold.Hold? && (sharedHold.until == None || server.now < sharedHold.until.value)
    }

    predicate CanEvaluate(id: nat) {
      id in checks && checks[id].stage.Ready?
    }
  }

  /** `id` names one check; a node may have any number of them in flight. */
  datatype Event =
    | Tick(ms: nat)
    | ReadLocal(id: nat, node: Node)
    | ReadShared(id: nat, ok: bool)
    | Evaluate(id: nat, reached: bool)
    | ReleaseCall(node: Node, reached: bool)
    | Force(node: Node, reached: bool)
    | SetLocal(node: Node)
    | ClearLocal(node: Node)
    | SetShared(ttl: Option<nat>)
    | ClearShared

  /** Which script a finished check runs: renew-only under a hold, else take-or-renew. */
  function Script(s: Server, node: Node, held: bool): (Server, bool) {
    if held then RenewOnly(s, node, LEASE_TTL_MS) else TakeOrRenew(s, node, LEASE_TTL_MS)
  }

  function EvaluateCheck(s: Server, c: Check): (Server, bool)
    requires c.stage.Ready?
  {
    Script(s, c.node, c.stage.held)
  }

  function ServerStep(s: State, e: Event): Server {
    match e
    case Tick(ms) => s.server.(now := s.server.now + ms)
    case Evaluate(id, true) => if s.CanEvaluate(id) then EvaluateCheck(s.server, s.checks[id]).0 else s.server
    case ReleaseCall(n, true) => Release(s.server, n).0
    case Force(n, true) => s.server.GrantedTo(n, LEASE_TTL_MS)
    case _ => s.server
  }

  function ChecksStep(s: State, e: Event): map<nat, Check> {
    match e
    case ReadLocal(id, n) =>
      if id in s.checks then s.checks
      else s.checks[id := Check(n, if n in s.localHold then Ready(true, false) else LocalClear)]
    case ReadShared(id, ok) =>
      if id in s.checks && s.checks[id].stage == LocalClear then
        s.checks[id := s.checks[id].(stage := Ready(ok && s.SharedHeld(), !ok))]
      else s.checks
    case Evaluate(id, _) => if s.CanEvaluate(id) then s.checks - {id} else s.checks
    case _ => s.checks
  }

  function Step(s: State, e: Event): State {
    State(
      ServerStep(s, e),
      match e {
        case SetShared(ttl) => Hold(if ttl.Some? then Some(s.server.now + ttl.value) else None)
        case ClearShared => NoHold
        case _ => s.sharedHold
      },
      match e {
        case SetLocal(n) => s.localHold + {n}
        case ClearLocal(n) => s.localHold - {n}
        case _ => s.localHold
      },
      ChecksStep(s, e))
  }

  /** The state after the first `k` events. */
  function At(s: State, es: seq<Event>, k: nat): State
    requires k <= |es|
  {
    if k == 0 then s else Step(At(s, es, k - 1), es[k - 1])
  }

  const INITIAL := State(Server(0, None), NoHold, {}, map[])

  // ---------------------------------------------------------------- exclusion

  /** The node that event `e` makes (or keeps) the lease holder. */
  function Claimant(s: State, e: Event): Option<Node> {
    match e
    case Evaluate(id, true) =>
      if s.CanEvaluate(id) && EvaluateCheck(s.server, s.checks[id]).1 then Some(s.checks[id].node) else None
    case Force(n, true) => Some(n)
    case _ => None
  }

  predicate Claimed(s: State, es: seq<Event>, i: nat, n: Node) {
    i < |es| && Claimant(At(s, es, i), es[i]) == Some(n)
  }

  /** `n` gave its lease up, or an operator's force took it away. */
  predicate Relinquished(e: Event, n: Node) {
    e == ReleaseCall(n, true) || (e.Force? && e.reached && e.node != n)
  }

  predicate KeptSince(es: seq<Event>, i: nat, k: nat, n: Node)
    requires k <= |es|
  {
    forall j :: i < j < k ==> !Relinquished(es[j], n)
  }

  /** History's view of the lease: `n` was granted it within the last TTL and
      nothing ended that grant since. Says nothing about the key. */
  ghost predicate Holding(s: State, es: seq<Event>, k: nat, n: Node)
    requires k <= |es|
  {
    exists i: nat | i < k ::
      && Claimed(s, es, i, n)
      && At(s, es, k).server.now < At(s, es, i).server.now + LEASE_TTL_MS
      && KeptSince(es, i, k, n)
  }

  lemma {:induction false} ClockMonotone(s: State, es: seq<Event>, i: nat, k: nat)
    requires i <= k <= |es|
    ensures At(s, es, i).server.now <= At(s, es, k).server.now
  {
    if i < k { ClockMonotone(s, es, i, k - 1); }
  }

  /** An unexpired, unended grant keeps the key in the grantee's name for its full TTL. */
  lemma {:induction false} GrantPersists(s: State, es: seq<Event>, i: nat, k: nat, n: Node)
    requires i < k <= |es| && Claimed(s, es, i, n) && KeptSince(es, i, k, n)
    requires At(s, es, k).server.now < At(s, es, i).server.now + LEASE_TTL_MS
    ensures At(s, es, k).server.key.Some?
    ensures At(s, es, k).server.key.value.owner == n
    ensures At(s, es, k).server.key.value.expiresAt >= At(s, es, i).server.now + LEASE_TTL_MS
  {
    if i + 1 < k {
      ClockMonotone(s, es, k - 1, k);
      ClockMonotone(s, es, i, k - 1);
      GrantPersists(s, es, i, k - 1, n);
      assert !Relinquished(es[k - 1], n);
    }
  }

  /** A live key always goes back to the grant that wrote it. */
  lemma {:induction false} KeyHasGrant(s: State, es: seq<Event>, k: nat) returns (i: nat)
    requires k <= |es| && s.server.key == None && At(s, es, k).server.Get().Some?
    ensures i < k
    ensures var g := At(s, es, k).server.key.value;
            Claimed(s, es, i, g.owner) && KeptSince(es, i, k, g.owner)
            && g.expiresAt == At(s, es, i).server.now + LEASE_TTL_MS
  {
    var before := At(s, es, k - 1);
    if Claimant(before, es[k - 1]).Some? {
      i := k - 1;
    } else {
      i := KeyHasGrant(s, es, k - 1);
    }
  }

  /** Exactness: the key names a node if and only if history says that node holds the lease. */
  lemma {:induction false} KeyIsTheHolder(s: State, es: seq<Event>, k: nat, n: Node)
    requires k <= |es| && s.server.key == None
    ensures At(s, es, k).server.Get() == Some(n) <==> Holding(s, es, k, n)
  {
    if At(s, es, k).server.Get() == Some(n) {
      var i := KeyHasGrant(s, es, k);
    }
    if Holding(s, es, k, n) {
      var i: nat :| i < k && Claimed(s, es, i, n)
                    && At(s, es, k).server.now < At(s, es, i).server.now + LEASE_TTL_MS
                    && KeptSince(es, i, k, n);
      GrantPersists(s, es, i, k, n);
    }
  }

  /** At most one unexpired, unreleased grant exists at any instant of any run. */
  lemma AtMostOneHolder(s: State, es: seq<Event>, k: nat, a: Node, b: Node)
    requires k <= |es| && s.server.key == None
    requires Holding(s, es, k, a) && Holding(s, es, k, b)
    ensures a == b
  {
    KeyIsTheHolder(s, es, k, a);
    KeyIsTheHolder(s, es, k, b);
  }

  /** Between a grant to one node and a later, unforced grant to another lies
      either the first node's own release or its full TTL. */
  lemma Exclusion(s: State, es: seq<Event>, i: nat, j: nat, a: Node, b: Node)
    requires i < j < |es| && a != b
    requires Claimed(s, es, i, a) && Claimed(s, es, j, b)
    requires forall m :: i < m <= j ==> !es[m].Force?
    ensures (exists m :: i < m < j && es[m] == ReleaseCall(a, true))
            || At(s, es, j).server.now >= At(s, es, i).server.now + LEASE_TTL_MS
  {
    if !(exists m :: i < m < j && es[m] == ReleaseCall(a, true))
       && At(s, es, j).server.now < At(s, es, i).server.now + LEASE_TTL_MS {
      GrantPersists(s, es, i, j, a);
    }
  }

  /** The no-force hypothesis is needed: a forced claim lands on a live lease at once. */
  lemma ForceOverridesALiveLease()
    ensures var es := [ReadLocal(0, "a"), ReadShared(0, true), Evaluate(0, true), Force("b", true)];
            Claimed(INITIAL, es, 2, "a") && Claimed(INITIAL, es, 3, "b")
            && At(INITIAL, es, 3).server.now == At(INITIAL, es, 2).server.now
  {
    var es := [ReadLocal(0, "a"), ReadShared(0, true), Evaluate(0, true), Force("b", true)];
    assert At(INITIAL, es, 1) == INITIAL.(checks := map[0 := Check("a", LocalClear)]);
    assert At(INITIAL, es, 2) == INITIAL.(checks := map[0 := Check("a", Ready(false, false))]);
  }

  // ------------------------------------------------------- a holder keeps its lease

  /** A check of `n` that got through to the server at step `j`. */
  predicate ChecksThrough(s: State, es: seq<Event>, j: nat, n: Node) {
    && j < |es| && es[j].Evaluate? && es[j].reached
    && At(s, es, j).CanEvaluate(es[j].id) && At(s, es, j).checks[es[j].id].node == n
  }

  /** The key names `n` and has time left. */
  predicate KeyNames(v: Server, n: Node) {
    v.key.Some? && v.key.value.owner == n && v.now < v.key.value.expiresAt
  }

  /** A check of `n` got through since step `i`, less than a TTL before instant `m`. */
  ghost predicate RenewedBy(s: State, es: seq<Event>, i: nat, m: nat, n: Node)
    requires m <= |es|
  {
    exists j: nat | i <= j < m ::
      ChecksThrough(s, es, j, n) && At(s, es, m).server.now < At(s, es, j).server.now + LEASE_TTL_MS
  }

  /** The holder's own check re-expires its key a full TTL ahead, under a hold or not. */
  lemma RenewalSucceeds(s: State, id: nat)
    requires s.CanEvaluate(id) && KeyNames(s.server, s.checks[id].node)
    ensures Step(s, Evaluate(id, true)).server
            == Server(s.server.now, Some(Grant(s.checks[id].node, s.server.now + LEASE_TTL_MS)))
    ensures Claimant(s, Evaluate(id, true)) == Some(s.checks[id].node)
  {
  }

  /** A holder whose checks get through less than a TTL apart never loses the lease: it is
      the key's owner at every instant, until it releases or another node forces. */
  lemma {:induction false} RenewingHolderKeepsTheLease(s: State, es: seq<Event>, i: nat, k: nat, n: Node)
    requires i <= k <= |es| && KeyNames(At(s, es, i).server, n)
    requires forall m: nat :: i < m <= k ==> RenewedBy(s, es, i, m, n)
    requires forall j :: i <= j < k ==> !Relinquished(es[j], n)
    ensures KeyNames(At(s, es, k).server, n)
    decreases k
  {
    if i < k {
      assert RenewedBy(s, es, i, k, n);
      var j: nat :| i <= j < k && ChecksThrough(s, es, j, n)
                    && At(s, es, k).server.now < At(s, es, j).server.now + LEASE_TTL_MS;
      RenewingHolderKeepsTheLease(s, es, i, j, n);
      RenewalSucceeds(At(s, es, j), es[j].id);
      assert Claimed(s, es, j, n);
      GrantPersists(s, es, j, k, n);
    }
  }

  /** The other calls, where they get through: a release frees the key of its own node and
      no other, a force overwrites any; a call that is lost does nothing to the key, and
      time only passes. */
  lemma CallsTakeEffect(s: State, n: Node, id: nat, ms: nat)
    ensures Step(s, ReleaseCall(n, true)).server.key == if KeyNames(s.server, n) then None else s.server.key
    ensures Step(s, Force(n, true)).server.key == Some(Grant(n, s.server.now + LEASE_TTL_MS))
    ensures Step(s, ReleaseCall(n, false)).server == Step(s, Force(n, false)).server == s.server
    ensures Step(s, Evaluate(id, false)).server == s.server
    ensures Step(s, Tick(ms)).server == Server(s.server.now + ms, s.server.key)
    ensures n in Step(s, SetLocal(n)).localHold && n !in Step(s, ClearLocal(n)).localHold
    ensures !Step(s, ClearShared).SharedHeld()
  {
  }

  /** A check made in one go, with either read possibly failing: it grants the lease if
      and only if its node has it already, or nobody has it and no hold is seen. */
  lemma WholeCheckExactly(s: State, id: nat, n: Node, ok: bool)
    requires id !in s.checks
    ensures var after := Step(Step(Step(s, ReadLocal(id, n)), ReadShared(id, ok)), Evaluate(id, true));
            var live := s.server.key.Some? && s.server.now < s.server.key.value.expiresAt;
            var shared := s.sharedHold.Hold?
                          && (s.sharedHold.until == None || s.server.now < s.sharedHold.until.value);
            var held := n in s.localHold || (ok && shared);
            var granted := if live then s.server.key.value.owner == n else !held;
            after == s.(server := if granted then Server(s.server.now, Some(Grant(n, s.server.now + LEASE_TTL_MS)))
                                  else s.server)
  {
    var read := Step(s, ReadLocal(id, n));
    var ready := Step(read, ReadShared(id, ok));
    assert ready.CanEvaluate(id) && ready.checks[id].node == n;
    assert ready.checks - {id} == s.checks;
  }

  /** A shared hold stands from the step that sets it until its time is up, if it has
      one, unless it is set anew or cleared. */
  lemma SharedHoldLastsItsTime(s: State, es: seq<Event>, i: nat, k: nat, ttl: Option<nat>)
    requires i < k <= |es| && es[i] == SetShared(ttl)
    requires forall j :: i < j < k ==> !es[j].SetShared? && !es[j].ClearShared?
    ensures At(s, es, k).SharedHeld() <==>
              ttl == None || At(s, es, k).server.now < At(s, es, i).server.now + ttl.value
  {
    SharedHoldIsAsSet(s, es, i, k, ttl);
  }

  lemma {:induction false} SharedHoldIsAsSet(s: State, es: seq<Event>, i: nat, k: nat, ttl: Option<nat>)
    requires i < k <= |es| && es[i] == SetShared(ttl)
    requires forall j :: i < j < k ==> !es[j].SetShared? && !es[j].ClearShared?
    ensures At(s, es, k).sharedHold
            == Hold(if ttl.Some? then Some(At(s, es, i).server.now + ttl.value) else None)
  {
    if i + 1 < k {
      SharedHoldIsAsSet(s, es, i, k - 1, ttl);
      assert !es[k - 1].SetShared? && !es[k - 1].ClearShared?;
    }
  }

  // -------------------------------------------------------------- hold freeze

  ghost predicate SharedThroughout(s: State, es: seq<Event>) {
    forall k: nat :: k <= |es| ==> At(s, es, k).SharedHeld()
  }

  ghost predicate LocalThroughout(s: State, es: seq<Event>, n: Node) {
    forall k: nat :: k <= |es| ==> n in At(s, es, k).localHold
  }

  /** The hold stays visible to `n` through one of its two halves. */
  ghost predicate HeldThroughout(s: State, es: seq<Event>, n: Node) {
    SharedThroughout(s, es) || LocalThroughout(s, es, n)
  }

  /** A check that can no longer end in a take-or-renew unless its read fails. */
  ghost predicate Settled(s: State, es: seq<Event>, stage: Stage) {
    match stage
    case LocalClear => SharedThroughout(s, es)
    case Ready(held, blind) => held || blind
  }

  /** The period: every check already in flight is settled, the hold is visible to
      every node that starts another, no lease call gets through on the strength
      of a hold read that failed, and nobody forces the lease. */
  ghost predicate Frozen(s: State, es: seq<Event>) {
    && (forall id :: id in s.checks ==> Settled(s, es, s.checks[id].stage))
    && (forall k :: 0 <= k < |es| && es[k].ReadLocal? ==> HeldThroughout(s, es, es[k].node))
    && (forall k :: 0 <= k < |es| && es[k].Evaluate? && es[k].reached ==> !Blind(At(s, es, k), es[k].id))
    && (forall k :: 0 <= k < |es| ==> !es[k].Force?)
  }

  predicate Blind(s: State, id: nat) {
    s.CanEvaluate(id) && s.checks[id].stage.blind
  }

  lemma {:induction false} ChecksStaySettled(s: State, es: seq<Event>, k: nat)
    requires k <= |es| && Frozen(s, es)
    ensures forall id :: id in At(s, es, k).checks ==> Settled(s, es, At(s, es, k).checks[id].stage)
  {
    if k > 0 {
      ChecksStaySettled(s, es, k - 1);
      var before := At(s, es, k - 1);
      match es[k - 1]
      case ReadLocal(id, n) => assert HeldThroughout(s, es, n);
      case ReadShared(id, ok) => assert SharedThroughout(s, es) ==> before.SharedHeld();
      case _ =>
    }
  }

  /** Once the hold is visible and earlier checks have settled, the holder stays
      the same or becomes none; the lease never passes to another node. */
  lemma {:induction false} HoldFreezesLeadership(s: State, es: seq<Event>, j: nat, k: nat)
    requires j <= k <= |es| && Frozen(s, es)
    ensures At(s, es, k).server.Get() in {None, At(s, es, j).server.Get()}
  {
    if j < k {
      HoldFreezesLeadership(s, es, j, k - 1);
      ChecksStaySettled(s, es, k - 1);
    }
  }

  /** The sampling gap: a check that looked before the hold landed still takes
      the free lease after it, so waiting for earlier checks is necessary. */
  lemma CheckSampledBeforeTheHoldStillTakes()
    ensures var es := [ReadLocal(0, "b"), ReadShared(0, true), SetShared(None), Evaluate(0, true)];
            At(INITIAL, es, 3).SharedHeld()
            && At(INITIAL, es, 3).server.Get() == None && At(INITIAL, es, 4).server.Get() == Some("b")
  {
    var es := [ReadLocal(0, "b"), ReadShared(0, true), SetShared(None), Evaluate(0, true)];
    assert At(INITIAL, es, 1) == INITIAL.(checks := map[0 := Check("b", LocalClear)]);
    assert At(INITIAL, es, 2) == INITIAL.(checks := map[0 := Check("b", Ready(false, false))]);
  }

  /** The check's evaluation makes its node the holder, who was not. */
  predicate TakesTheLease(s: State, id: nat, reached: bool) {
    && s.CanEvaluate(id) && s.server.Get() != Some(s.checks[id].node)
    && Step(s, Evaluate(id, reached)).server.Get() == Some(s.checks[id].node)
  }

  /** Exactly when a check promotes its node: the call gets through, its reads answered
      "not held", and the lease is free at that moment. */
  lemma TakesExactlyAFreeLease(s: State, id: nat, reached: bool)
    requires s.CanEvaluate(id)
    ensures TakesTheLease(s, id, reached) <==> reached && !s.checks[id].stage.held && s.server.Get() == None
  {
  }

  predicate BlindReadsAreUnheld(s: State) {
    forall id :: id in s.checks && s.checks[id].stage.Ready? && s.checks[id].stage.blind ==> !s.checks[id].stage.held
  }

  lemma {:induction false} BlindIsUnheld(es: seq<Event>, k: nat)
    requires k <= |es|
    ensures BlindReadsAreUnheld(At(INITIAL, es, k))
  {
    if k > 0 { BlindIsUnheld(es, k - 1); }
  }

  /** So a failed hold read can promote, hold or no hold, in any run: it does if and
      only if the lease call after it gets through to a free lease. */
  lemma BlindCheckTakesExactlyAFreeLease(es: seq<Event>, k: nat, id: nat, reached: bool)
    requires k <= |es| && Blind(At(INITIAL, es, k), id)
    ensures TakesTheLease(At(INITIAL, es, k), id, reached) <==> reached && At(INITIAL, es, k).server.Get() == None
  {
    BlindIsUnheld(es, k);
    TakesExactlyAFreeLease(At(INITIAL, es, k), id, reached);
  }

  /** A failed hold read reads as "not held": if the lease call after it gets
      through, a free lease is taken under a standing hold. */
  lemma BlindCheckTakesUnderAHold()
    ensures var es := [SetShared(None), ReadLocal(0, "b"), ReadShared(0, false), Evaluate(0, true)];
            (forall k: nat :: 1 <= k <= 4 ==> At(INITIAL, es, k).SharedHeld())
            && At(INITIAL, es, 3).server.Get() == None && At(INITIAL, es, 4).server.Get() == Some("b")
  {
    var es := [SetShared(None), ReadLocal(0, "b"), ReadShared(0, false), Evaluate(0, true)];
    var held := INITIAL.(sharedHold := Hold(None));
    assert At(INITIAL, es, 1) == held;
    assert At(INITIAL, es, 2) == held.(checks := map[0 := Check("b", LocalClear)]);
    assert At(INITIAL, es, 3) == held.(checks := map[0 := Check("b", Ready(false, true))]);
    assert At(INITIAL, es, 4).sharedHold == Hold(None);
  }

  // ---------------------------------------------------------- the implementation

  /** One node's view. The answer is "yes" only if the call reached the server,
      the reply came back and the script said yes: every failure is a "no". */
  class LeadershipMonitor {
    const nodeId: Node
    var lastKnown: Option<bool>

    constructor (nodeId: Node)
      ensures this.nodeId == nodeId && lastKnown == None
    {
      this.nodeId := nodeId;
      lastKnown := None;
    }

    method FromLease(key: LeaderKey, held: bool, reached: bool, replied: bool) returns (isLeader: bool, changed: bool)
      modifies this`lastKnown, key`stored, key`owner, key`expiresAt
      ensures key.View() == if reached then Script(old(key.View()), nodeId, held).0 else old(key.View())
      ensures isLeader == (reached && replied && Script(old(key.View()), nodeId, held).1)
      ensures isLeader ==> key.View() == old(key.View()).GrantedTo(nodeId, LEASE_TTL_MS)
      ensures var live := old(key.stored && key.now < key.expiresAt);
              var granted := reached && if live then old(key.owner) == nodeId else !held;
              (isLeader <==> granted && replied)
              && key.View().key == if granted then Some(Grant(nodeId, key.now + 30_000)) else old(key.View().key)
      ensures lastKnown == Some(isLeader) && changed == (old(lastKnown) != Some(isLeader))
    {
      var result := 0;
      if reached {
        if held {
          result := key.RenewOnlyScript(nodeId, LEASE_TTL_MS);
        } else {
          result := key.LeaseScript(nodeId, LEASE_TTL_MS);
        }
      }
      isLeader := replied && result == 1;
      changed := lastKnown != Some(isLeader);
      if changed {
        lastKnown := Some(isLeader);
      }
    }
  }
}
