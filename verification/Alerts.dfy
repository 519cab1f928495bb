/**
 The alert router: interruptions on transitions only, at most one per condition and
 edge in a flap window, held back while the home is starting.

 The router's state is paired with the history of what it did, and each promise is
 a property of that history over every run, reloads included. A restart of the
 home begins a new run.
 */
module Alerts {
  import opened Wrappers

  type Condition = string
  type Node = string
  type Message = string

  const ALERT_MIN_INTERVAL: real := 300.0
  const MAX_PENDING_ALERTS: nat := 16
  const PROMOTED: Condition := "promoted"
  const RECOVERED: Condition := "recovered"

  /** The two edges of one condition have windows of their own. */
  datatype Key = Key(condition: Condition, raised: bool)

  datatype Output =
    | Raised(condition: Condition)
    | Cleared(condition: Condition)
    | Forgotten(condition: Condition)
    | Sent(key: Key, at: real)
    | Pushed(gate: Condition, message: Message)
    | Delivered(message: Message, held: bool)
    | TookOver(source: Node)
    | Disarmed
    | Up
    | Reloaded(running: bool, chosen: set<Condition>)

  /** `draining` is what the start-up listener took over to deliver, one await after
      another; `orphans` is what such a listener of an unloaded router still owes. */
  datatype State = State(
    node: Node,
    conditions: set<Condition>,
    active: set<Condition>,
    lastSent: map<Key, real>,
    pending: seq<Message>,
    started: bool,
    tookOverFrom: Option<Node>,
    draining: seq<Message>,
    orphans: seq<Message>,
    history: seq<Output>)

  datatype Event =
    | Raise(condition: Condition, message: Message, now: real)
    | Clear(condition: Condition, message: Message, now: real)
    | Forget(condition: Condition)
    | Announce(condition: Condition, message: Message)
    | CheckPromotion(leader: Option<Node>, source: Option<Node>, message: Message)
    | Started
    | Drain
    | DrainOrphan
    | Reload(conditions: set<Condition>, running: bool)

  function Emit(s: State, o: Output): State { s.(history := s.history + [o]) }

  function Push(s: State, gate: Condition, m: Message): State {
    var pushed := Emit(s, Pushed(gate, m));
    if s.started then Emit(pushed, Delivered(m, false))
    else if |s.pending| < MAX_PENDING_ALERTS then pushed.(pending := s.pending + [m])
    else pushed
  }

  predicate InFlapWindow(lastSent: map<Key, real>, key: Key, now: real) {
    key in lastSent && now - lastSent[key] < ALERT_MIN_INTERVAL
  }

  /** Without a key there is no rate limit. */
  function PushIfEnabled(s: State, gate: Condition, key: Option<Key>, m: Message, now: real): State {
    if gate !in s.conditions then s
    else
      match key
      case None => Push(s, gate, m)
      case Some(k) =>
        if InFlapWindow(s.lastSent, k, now) then s
        else Push(Emit(s.(lastSent := s.lastSent[k := now]), Sent(k, now)), gate, m)
  }

  /** A push under this gate and key goes out at once. */
  predicate Speaks(s: State, gate: Condition, key: Option<Key>, now: real) {
    s.started && gate in s.conditions && (key.Some? ==> !InFlapWindow(s.lastSent, key.value, now))
  }

  /** The lease is this node's, over a snapshot of another node not yet announced. */
  predicate TakesOver(s: State, leader: Option<Node>, source: Option<Node>) {
    leader == Some(s.node) && source.Some? && source.value != "" && source.value != s.node && s.tookOverFrom != source
  }

  function Step(s: State, e: Event): State {
    match e
    case Raise(c, m, now) =>
      if c in s.active then s
      else PushIfEnabled(Emit(s.(active := s.active + {c}), Raised(c)), c, Some(Key(c, true)), m, now)
    case Clear(c, m, now) =>
      if c !in s.active then s
      else PushIfEnabled(Emit(s.(active := s.active - {c}), Cleared(c)), RECOVERED, Some(Key(c, false)), m, now)
    case Forget(c) => if c in s.active then Emit(s.(active := s.active - {c}), Forgotten(c)) else s
    case Announce(c, m) => PushIfEnabled(s, c, None, m, 0.0)
    case CheckPromotion(leader, source, m) =>
      if leader != Some(s.node) then Emit(s.(tookOverFrom := None), Disarmed)
      else if !TakesOver(s, leader, source) then s
      else PushIfEnabled(Emit(s.(tookOverFrom := source), TookOver(source.value)), PROMOTED, None, m, 0.0)
    case Started => if s.started then s else Emit(s.(started := true, draining := s.pending, pending := []), Up)
    case Drain => if s.draining == [] then s else Emit(s.(draining := s.draining[1..]), Delivered(s.draining[0], true))
    case DrainOrphan => if s.orphans == [] then s else s.(orphans := s.orphans[1..])
    case Reload(conditions, running) =>
      Emit(s.(conditions := conditions, pending := [], started := running, tookOverFrom := None,
              draining := [], orphans := s.orphans + s.draining), Reloaded(running, conditions))
  }

  function At(s: State, es: seq<Event>, k: nat): State
    requires k <= |es|
  {
    if k == 0 then s else Step(At(s, es, k - 1), es[k - 1])
  }

  /** The start-up listener undisturbed to its end. */
  function DrainAll(s: State): State
    decreases |s.draining|
  {
    if s.draining == [] then s else DrainAll(Step(s, Drain))
  }

  function Handed(held: seq<Message>): seq<Output> {
    if held == [] then [] else Handed(held[..|held| - 1]) + [Delivered(held[|held| - 1], true)]
  }

  lemma {:induction false} HandedFirst(held: seq<Message>)
    requires held != []
    ensures Handed(held) == [Delivered(held[0], true)] + Handed(held[1..])
  {
    if |held| > 1 {
      assert held[..|held| - 1][1..] == held[1..][..|held| - 2];
      HandedFirst(held[..|held| - 1]);
    }
  }

  lemma {:induction false} DrainAllHands(s: State)
    ensures DrainAll(s) == s.(draining := [], history := s.history + Handed(s.draining))
    decreases |s.draining|
  {
    if s.draining != [] {
      DrainAllHands(Step(s, Drain));
      HandedFirst(s.draining);
      assert s.history + [Delivered(s.draining[0], true)] + Handed(s.draining[1..])
          == s.history + ([Delivered(s.draining[0], true)] + Handed(s.draining[1..]));
    }
  }

  /** The first router of a run. */
  predicate Booted(s: State) {
    s == State(s.node, s.conditions, {}, map[], [], s.started, None, [], [], [Reloaded(s.started, s.conditions)])
  }

  // ---------------------------------------------------- what a history says

  function ActiveStep(before: set<Condition>, o: Output): set<Condition> {
    match o
    case Raised(c) => before + {c}
    case Cleared(c) => before - {c}
    case Forgotten(c) => before - {c}
    case _ => before
  }

  function ActiveAfter(h: seq<Output>): set<Condition> {
    if h == [] then {} else ActiveStep(ActiveAfter(h[..|h| - 1]), h[|h| - 1])
  }

  function LastSentStep(before: map<Key, real>, o: Output): map<Key, real> {
    if o.Sent? then before[o.key := o.at] else before
  }

  function LastSentAfter(h: seq<Output>): map<Key, real> {
    if h == [] then map[] else LastSentStep(LastSentAfter(h[..|h| - 1]), h[|h| - 1])
  }

  function SourceStep(before: Option<Node>, o: Output): Option<Node> {
    match o
    case TookOver(source) => Some(source)
    case Disarmed => None
    case Reloaded(_, _) => None
    case _ => before
  }

  function SourceAfter(h: seq<Output>): Option<Node> {
    if h == [] then None else SourceStep(SourceAfter(h[..|h| - 1]), h[|h| - 1])
  }

  /** The conditions the operator chose, as of the latest router. */
  function ChosenAfter(h: seq<Output>): set<Condition> {
    if h == [] then {}
    else if h[|h| - 1].Reloaded? then h[|h| - 1].chosen
    else ChosenAfter(h[..|h| - 1])
  }

  /** Of the present router: what was pushed while it was still starting, what of it
      has been delivered since, and whether it is up. */
  datatype BootQueue = BootQueue(pushed: seq<Message>, handed: seq<Message>, up: bool)

  function QueueStep(q: BootQueue, o: Output): BootQueue {
    match o
    case Pushed(_, m) => if q.up then q else q.(pushed := q.pushed + [m])
    case Delivered(m, held) => if held then q.(handed := q.handed + [m]) else q
    case Up => q.(up := true)
    case Reloaded(running, _) => BootQueue([], [], running)
    case _ => q
  }

  function QueueAfter(h: seq<Output>): BootQueue {
    if h == [] then BootQueue([], [], false) else QueueStep(QueueAfter(h[..|h| - 1]), h[|h| - 1])
  }

  /** Whether `o` may follow `h`. */
  predicate Allowed(h: seq<Output>, o: Output) {
    match o
    case Raised(c) => c !in ActiveAfter(h)
    case Cleared(c) => c in ActiveAfter(h)
    case Sent(k, at) => !InFlapWindow(LastSentAfter(h), k, at)
    case TookOver(source) => SourceAfter(h) != Some(source)
    case Pushed(gate, _) => gate in ChosenAfter(h)
    case Delivered(_, held) => held ==> QueueAfter(h).up
    case _ => true
  }

  predicate AllowedAt(h: seq<Output>, i: nat) {
    i < |h| && Allowed(h[..i], h[i])
  }

  predicate AllowedThroughout(h: seq<Output>) {
    forall i :: 0 <= i < |h| ==> AllowedAt(h, i)
  }

  function FirstFew(pushed: seq<Message>): (r: seq<Message>)
    ensures r <= pushed && |r| == if |pushed| < 16 then |pushed| else 16
  {
    if |pushed| > MAX_PENDING_ALERTS then pushed[..MAX_PENDING_ALERTS] else pushed
  }

  /** What of the pushes of the boot is delivered, being delivered and pending. */
  predicate Queued(q: BootQueue, started: bool, draining: seq<Message>, pending: seq<Message>) {
    && started == q.up
    && q.handed + draining + pending == FirstFew(q.pushed)
    && (if started then pending == [] else q.handed == [] && draining == [])
  }

  predicate QueueMatches(s: State) {
    Queued(QueueAfter(s.history), s.started, s.draining, s.pending)
  }

  predicate Inv(s: State) {
    && s.active == ActiveAfter(s.history)
    && s.lastSent == LastSentAfter(s.history)
    && s.tookOverFrom == SourceAfter(s.history)
    && s.conditions == ChosenAfter(s.history)
    && QueueMatches(s)
    && AllowedThroughout(s.history)
  }

  /** One more output, by each of the readings of a history. */
  lemma Appended(h: seq<Output>, o: Output)
    requires AllowedThroughout(h) && Allowed(h, o)
    ensures AllowedThroughout(h + [o])
    ensures ActiveAfter(h + [o]) == ActiveStep(ActiveAfter(h), o)
    ensures LastSentAfter(h + [o]) == LastSentStep(LastSentAfter(h), o)
    ensures SourceAfter(h + [o]) == SourceStep(SourceAfter(h), o)
    ensures ChosenAfter(h + [o]) == if o.Reloaded? then o.chosen else ChosenAfter(h)
    ensures QueueAfter(h + [o]) == QueueStep(QueueAfter(h), o)
  {
    assert (h + [o])[..|h|] == h;
    forall i | 0 <= i < |h + [o]|
      ensures AllowedAt(h + [o], i)
    {
      assert (h + [o])[..i] == h[..i];
      assert i < |h| ==> AllowedAt(h, i);
    }
    assert h[..|h|] == h;
  }

  lemma PushKeepsInv(s: State, gate: Condition, m: Message)
    requires Inv(s) && gate in s.conditions
    ensures Inv(Push(s, gate, m))
  {
    Appended(s.history, Pushed(gate, m));
    if s.started {
      Appended(s.history + [Pushed(gate, m)], Delivered(m, false));
    }
  }

  lemma PushIfEnabledKeepsInv(s: State, gate: Condition, key: Option<Key>, m: Message, now: real)
    requires Inv(s)
    ensures Inv(PushIfEnabled(s, gate, key, m, now))
  {
    if gate in s.conditions {
      if key == None {
        PushKeepsInv(s, gate, m);
      } else if !InFlapWindow(s.lastSent, key.value, now) {
        Appended(s.history, Sent(key.value, now));
        PushKeepsInv(Emit(s.(lastSent := s.lastSent[key.value := now]), Sent(key.value, now)), gate, m);
      }
    }
  }

  lemma RaiseKeepsInv(s: State, c: Condition, m: Message, now: real)
    requires Inv(s) && c !in s.active
    ensures Inv(Step(s, Raise(c, m, now)))
  {
    Appended(s.history, Raised(c));
    PushIfEnabledKeepsInv(Emit(s.(active := s.active + {c}), Raised(c)), c, Some(Key(c, true)), m, now);
  }

  lemma ClearKeepsInv(s: State, c: Condition, m: Message, now: real)
    requires Inv(s) && c in s.active
    ensures Inv(Step(s, Clear(c, m, now)))
  {
    Appended(s.history, Cleared(c));
    PushIfEnabledKeepsInv(Emit(s.(active := s.active - {c}), Cleared(c)), RECOVERED, Some(Key(c, false)), m, now);
  }

  lemma TakeoverKeepsInv(s: State, source: Option<Node>, m: Message)
    requires Inv(s) && source.Some? && s.tookOverFrom != source
    ensures Inv(PushIfEnabled(Emit(s.(tookOverFrom := source), TookOver(source.value)), PROMOTED, None, m, 0.0))
  {
    var armed := Emit(s.(tookOverFrom := source), TookOver(source.value));
    Appended(s.history, TookOver(source.value));
    assert Inv(armed);
    PushIfEnabledKeepsInv(armed, PROMOTED, None, m, 0.0);
  }

  lemma CheckPromotionKeepsInv(s: State, leader: Option<Node>, source: Option<Node>, m: Message)
    requires Inv(s)
    ensures Inv(Step(s, CheckPromotion(leader, source, m)))
  {
    var e := CheckPromotion(leader, source, m);
    if leader != Some(s.node) {
      Appended(s.history, Disarmed);
    } else if !TakesOver(s, leader, source) {
      assert Step(s, e) == s;
    } else {
      TakeoverKeepsInv(s, source, m);
    }
  }

  lemma StartedKeepsInv(s: State)
    requires Inv(s) && !s.started
    ensures Inv(Step(s, Started))
  {
    Appended(s.history, Up);
    StartedKeepsQueue(QueueAfter(s.history), s.pending);
  }

  lemma StartedKeepsQueue(q: BootQueue, pending: seq<Message>)
    requires Queued(q, false, [], pending)
    ensures Queued(QueueStep(q, Up), true, pending, [])
  {
    assert q.handed + [] + pending == q.handed + pending + [];
  }

  lemma DrainKeepsInv(s: State)
    requires Inv(s) && s.draining != []
    ensures Inv(Step(s, Drain))
  {
    Appended(s.history, Delivered(s.draining[0], true));
    DrainKeepsQueue(QueueAfter(s.history), s.draining, s.pending);
  }

  lemma DrainKeepsQueue(q: BootQueue, draining: seq<Message>, pending: seq<Message>)
    requires Queued(q, true, draining, pending) && draining != []
    ensures Queued(QueueStep(q, Delivered(draining[0], true)), true, draining[1..], pending)
  {
    assert q.handed + draining + pending == (q.handed + [draining[0]]) + draining[1..] + pending;
  }

  lemma ReloadKeepsInv(s: State, conditions: set<Condition>, running: bool)
    requires Inv(s)
    ensures Inv(Step(s, Reload(conditions, running)))
  {
    var t := Step(s, Reload(conditions, running));
    Appended(s.history, Reloaded(running, conditions));
    assert t.history == s.history + [Reloaded(running, conditions)];
    EmptyQueue(running);
  }

  lemma EmptyQueue(running: bool)
    ensures Queued(BootQueue([], [], running), running, [], [])
  {
  }

  lemma ForgetKeepsInv(s: State, c: Condition)
    requires Inv(s)
    ensures Inv(Step(s, Forget(c)))
  {
    Appended(s.history, Forgotten(c));
  }

  lemma StepKeepsInv(s: State, e: Event)
    requires Inv(s)
    ensures Inv(Step(s, e))
  {
    match e
    case Raise(c, m, now) => if c !in s.active { RaiseKeepsInv(s, c, m, now); }
    case Clear(c, m, now) => if c in s.active { ClearKeepsInv(s, c, m, now); }
    case Forget(c) => ForgetKeepsInv(s, c);
    case Announce(c, m) => PushIfEnabledKeepsInv(s, c, None, m, 0.0);
    case CheckPromotion(leader, source, m) => CheckPromotionKeepsInv(s, leader, source, m);
    case DrainOrphan =>
    case Started => if !s.started { StartedKeepsInv(s); }
    case Drain => if s.draining != [] { DrainKeepsInv(s); }
    case Reload(conditions, running) => ReloadKeepsInv(s, conditions, running);
  }

  lemma BootedKeepsInv(s: State)
    requires Booted(s)
    ensures Inv(s)
  {
    assert s.history[..0] == [];
  }

  lemma {:induction false} RunKeepsInv(s: State, es: seq<Event>, k: nat)
    requires k <= |es| && Booted(s)
    ensures Inv(At(s, es, k))
  {
    if k == 0 {
      BootedKeepsInv(s);
    } else {
      RunKeepsInv(s, es, k - 1);
      var before := At(s, es, k - 1);
      assert Inv(before);
      StepKeepsInv(before, es[k - 1]);
    }
  }

  // ------------------------------------------------- what that means, in words

  lemma {:induction false} StaysActive(h: seq<Output>, i: nat, j: nat, c: Condition)
    requires i < j <= |h| && h[i] == Raised(c)
    requires forall m :: i < m < j ==> h[m] != Cleared(c) && h[m] != Forgotten(c)
    ensures c in ActiveAfter(h[..j])
  {
    assert h[..j][..j - 1] == h[..j - 1];
    if j > i + 1 { StaysActive(h, i, j - 1, c); }
  }

  /** Edge-triggered: between two announcements of one condition, over every run and
      across reloads, it was cleared or acknowledged. */
  lemma RaisedOncePerEdge(s: State, es: seq<Event>, k: nat, i: nat, j: nat, c: Condition)
    requires k <= |es| && Booted(s)
    requires i < j < |At(s, es, k).history| && At(s, es, k).history[i] == Raised(c) == At(s, es, k).history[j]
    ensures exists m :: i < m < j && (At(s, es, k).history[m] == Cleared(c) || At(s, es, k).history[m] == Forgotten(c))
  {
    RunKeepsInv(s, es, k);
    var h := At(s, es, k).history;
    assert AllowedAt(h, j);
    if forall m :: i < m < j ==> h[m] != Cleared(c) && h[m] != Forgotten(c) {
      StaysActive(h, i, j, c);
    }
  }

  lemma {:induction false} ActiveWasRaised(h: seq<Output>, j: nat, c: Condition) returns (i: nat)
    requires j <= |h| && c in ActiveAfter(h[..j])
    ensures i < j && h[i] == Raised(c) && forall m :: i < m < j ==> h[m] != Cleared(c) && h[m] != Forgotten(c)
  {
    assert h[..j][..j - 1] == h[..j - 1];
    if h[j - 1] == Raised(c) {
      i := j - 1;
    } else {
      i := ActiveWasRaised(h, j - 1, c);
    }
  }

  /** An all-clear answers an announcement that is still standing. */
  lemma ClearedOnlyAfterRaised(s: State, es: seq<Event>, k: nat, j: nat, c: Condition) returns (i: nat)
    requires k <= |es| && Booted(s)
    requires j < |At(s, es, k).history| && At(s, es, k).history[j] == Cleared(c)
    ensures i < j && At(s, es, k).history[i] == Raised(c)
    ensures forall m :: i < m < j ==> At(s, es, k).history[m] != Cleared(c) && At(s, es, k).history[m] != Forgotten(c)
  {
    RunKeepsInv(s, es, k);
    assert AllowedAt(At(s, es, k).history, j);
    i := ActiveWasRaised(At(s, es, k).history, j, c);
  }

  lemma {:induction false} LastSentIsLatest(h: seq<Output>, i: nat, j: nat)
    requires AllowedThroughout(h) && i < j <= |h| && h[i].Sent?
    ensures var sent := LastSentAfter(h[..j]);
            h[i].key in sent && h[i].at <= sent[h[i].key]
  {
    assert h[..j][..j - 1] == h[..j - 1];
    if j > i + 1 {
      LastSentIsLatest(h, i, j - 1);
      assert AllowedAt(h, j - 1);
    }
  }

  /** Two accepted pushes of one edge of one condition are a flap window apart. */
  lemma FlapWindowsAreRespected(s: State, es: seq<Event>, k: nat, i: nat, j: nat)
    requires k <= |es| && Booted(s) && i < j < |At(s, es, k).history|
    requires At(s, es, k).history[i].Sent? && At(s, es, k).history[j].Sent?
    requires At(s, es, k).history[i].key == At(s, es, k).history[j].key
    ensures At(s, es, k).history[j].at - At(s, es, k).history[i].at >= 300.0
  {
    RunKeepsInv(s, es, k);
    var h := At(s, es, k).history;
    LastSentIsLatest(h, i, j);
    assert AllowedAt(h, j);
  }

  /** Nothing is pushed that the operator did not choose at the time. */
  lemma EveryPushWasChosen(s: State, es: seq<Event>, k: nat, i: nat)
    requires k <= |es| && Booted(s) && i < |At(s, es, k).history| && At(s, es, k).history[i].Pushed?
    ensures At(s, es, k).history[i].gate in ChosenAfter(At(s, es, k).history[..i])
  {
    RunKeepsInv(s, es, k);
    assert AllowedAt(At(s, es, k).history, i);
  }

  /** The two edges of a condition do not share a window: an alarm that clears at once
      still announces that it cleared. */
  lemma AllClearFollowsAtOnce(s: State, c: Condition, alarm: Message, allClear: Message, raised: real, cleared: real)
    requires c !in s.active && RECOVERED in s.conditions && !InFlapWindow(s.lastSent, Key(c, false), cleared)
    ensures var before := Step(s, Raise(c, alarm, raised));
            var after := Step(before, Clear(c, allClear, cleared));
            before.history + [Cleared(c), Sent(Key(c, false), cleared), Pushed(RECOVERED, allClear)] <= after.history
  {
    var before := Step(s, Raise(c, alarm, raised));
    assert before.lastSent == s.lastSent || before.lastSent == s.lastSent[Key(c, true) := raised];
  }

  lemma {:induction false} StaysArmed(h: seq<Output>, i: nat, j: nat, source: Node)
    requires i < j <= |h| && h[i] == TookOver(source)
    requires forall m :: i < m < j ==> !h[m].TookOver? && !h[m].Disarmed? && !h[m].Reloaded?
    ensures SourceAfter(h[..j]) == Some(source)
  {
    assert h[..j][..j - 1] == h[..j - 1];
    if j > i + 1 { StaysArmed(h, i, j - 1, source); }
  }

  lemma {:induction false} LastOfThem(h: seq<Output>, i: nat, j: nat, source: Node) returns (last: nat)
    requires i < j <= |h| && h[i] == TookOver(source)
    requires forall m :: i < m < j && h[m].TookOver? ==> h[m] == TookOver(source)
    ensures i <= last < j && h[last] == TookOver(source) && forall m :: last < m < j ==> !h[m].TookOver?
  {
    last := j - 1;
    if !h[last].TookOver? {
      last := LastOfThem(h, i, j - 1, source);
    }
  }

  /** A takeover from one node is announced again only after leadership was lost,
      another node was taken over from, or the router was rebuilt. */
  lemma TakeoverAnnouncedOnce(s: State, es: seq<Event>, k: nat, i: nat, j: nat, source: Node)
    requires k <= |es| && Booted(s) && i < j < |At(s, es, k).history|
    requires At(s, es, k).history[i] == TookOver(source) == At(s, es, k).history[j]
    ensures var h := At(s, es, k).history;
            exists m :: i < m < j && (h[m].Disarmed? || h[m].Reloaded? || (h[m].TookOver? && h[m].source != source))
  {
    RunKeepsInv(s, es, k);
    var h := At(s, es, k).history;
    assert AllowedAt(h, j);
    if forall m :: i < m < j ==> !h[m].Disarmed? && !h[m].Reloaded? && (h[m].TookOver? ==> h[m].source == source) {
      var last := LastOfThem(h, i, j, source);
      StaysArmed(h, last, j, source);
    }
  }

  /** Pushes of the boot are held, the first sixteen, and delivered in that order:
      nothing before the start, and all of them once the queue has drained. */
  lemma HeldPushesAreDeliveredInOrder(s: State, es: seq<Event>, k: nat)
    requires k <= |es| && Booted(s)
    ensures var t := At(s, es, k);
            var q := QueueAfter(t.history);
            && q.handed <= FirstFew(q.pushed)
            && (!t.started ==> q.handed == [] && t.pending == FirstFew(q.pushed))
            && (t.started && t.draining == [] ==> q.handed == FirstFew(q.pushed))
  {
    RunKeepsInv(s, es, k);
  }

  // ------------------------------------------------------- what is said, and when

  /** What a push that is accepted adds: at once if the home is up, else it waits if
      fewer than sixteen others do. */
  predicate Accepted(s: State, t: State, said: seq<Output>, gate: Condition, m: Message) {
    && t.history == s.history + said + [Pushed(gate, m)] + (if s.started then [Delivered(m, false)] else [])
    && t.pending == if !s.started && |s.pending| < 16 then s.pending + [m] else s.pending
  }

  /** Something is said, and no push follows from it. */
  predicate Silent(s: State, t: State, said: seq<Output>) {
    t.history == s.history + said && t.pending == s.pending
  }

  /** A condition that is not standing is announced unless the operator did not choose it
      or this edge of it was pushed less than five minutes ago; one that is, never. */
  lemma RaiseExactly(s: State, c: Condition, m: Message, now: real)
    ensures var t := Step(s, Raise(c, m, now));
            var key := Key(c, true);
            && t.active == s.active + {c}
            && if c in s.active then Silent(s, t, [])
               else if c in s.conditions && (key !in s.lastSent || now - s.lastSent[key] >= 300.0)
               then Accepted(s, t, [Raised(c), Sent(key, now)], c, m) && t.lastSent == s.lastSent[key := now]
               else Silent(s, t, [Raised(c)]) && t.lastSent == s.lastSent
  {
  }

  /** Its all-clear likewise, under the operator's choice to hear of recoveries. */
  lemma ClearExactly(s: State, c: Condition, m: Message, now: real)
    ensures var t := Step(s, Clear(c, m, now));
            var key := Key(c, false);
            && t.active == s.active - {c}
            && if c !in s.active then Silent(s, t, [])
               else if "recovered" in s.conditions && (key !in s.lastSent || now - s.lastSent[key] >= 300.0)
               then Accepted(s, t, [Cleared(c), Sent(key, now)], "recovered", m) && t.lastSent == s.lastSent[key := now]
               else Silent(s, t, [Cleared(c)]) && t.lastSent == s.lastSent
  {
  }

  /** Acknowledging says nothing; an event is announced whenever it is chosen. */
  lemma AnnounceExactly(s: State, c: Condition, m: Message)
    ensures var t := Step(s, Announce(c, m));
            && t.active == s.active && t.lastSent == s.lastSent
            && if c in s.conditions then Accepted(s, t, [], c, m) else Silent(s, t, [])
    ensures var t := Step(s, Forget(c));
            t.active == s.active - {c} && Silent(s, t, if c in s.active then [Forgotten(c)] else [])
  {
  }

  /** A takeover is noticed when this node leads over a snapshot some other node wrote,
      not the one last noticed; losing the lead forgets it. */
  lemma PromotionExactly(s: State, leader: Option<Node>, source: Option<Node>, m: Message)
    ensures var t := Step(s, CheckPromotion(leader, source, m));
            if leader != Some(s.node) then t.tookOverFrom == None && Silent(s, t, [Disarmed])
            else if source in {None, Some(""), Some(s.node), s.tookOverFrom}
            then t.tookOverFrom == s.tookOverFrom && Silent(s, t, [])
            else t.tookOverFrom == source
                 && if "promoted" in s.conditions then Accepted(s, t, [TookOver(source.value)], "promoted", m)
                    else Silent(s, t, [TookOver(source.value)])
  {
  }

  lemma {:induction false} LastSentWasSent(h: seq<Output>, key: Key) returns (i: nat)
    requires key in LastSentAfter(h)
    ensures i < |h| && h[i] == Sent(key, LastSentAfter(h)[key])
  {
    var last := |h| - 1;
    if h[last].Sent? && h[last].key == key {
      i := last;
    } else {
      i := LastSentWasSent(h[..last], key);
    }
  }

  /** Over every run: a fresh edge the operator chose to hear of is announced, unless the
      history holds a push of that same edge less than five minutes old. */
  lemma OnlyARecentPushSilences(s: State, es: seq<Event>, k: nat, c: Condition, m: Message, now: real)
    requires k < |es| && Booted(s) && es[k] == Raise(c, m, now)
    requires c !in ActiveAfter(At(s, es, k).history) && c in ChosenAfter(At(s, es, k).history)
    ensures var h, h' := At(s, es, k).history, At(s, es, k + 1).history;
            || h + [Raised(c), Sent(Key(c, true), now), Pushed(c, m)] <= h'
            || exists i :: 0 <= i < |h| && h[i].Sent? && h[i].key == Key(c, true) && now - h[i].at < 300.0
  {
    RunKeepsInv(s, es, k);
    var before := At(s, es, k);
    RaiseExactly(before, c, m, now);
    if Key(c, true) in before.lastSent {
      var i := LastSentWasSent(before.history, Key(c, true));
    }
  }

  // ---------------------------------------------------------- the implementation

  class AlertRouter {
    const node: Node
    const conditions: set<Condition>
    const services: seq<string>
    var active: set<Condition>
    var lastSent: map<Key, real>
    var pending: seq<Message>
    var started: bool
    var tookOverFrom: Option<Node>
    var warned: set<string>
    var calls: seq<(string, Message)>
    ghost var history: seq<Output>

    /** A reload hands the edge state of the previous router over. */
    constructor (node: Node, conditions: set<Condition>, services: seq<string>, active: set<Condition>,
                 lastSent: map<Key, real>, running: bool, ghost before: seq<Output>)
      ensures this.node == node && this.conditions == conditions && this.services == services
      ensures View() == State(node, conditions, active, lastSent, [], running, None, [], [],
                              before + [Reloaded(running, conditions)])
      ensures warned == {} && calls == []
    {
      this.node, this.conditions, this.services := node, conditions, services;
      this.active, this.lastSent, pending, started, tookOverFrom := active, lastSent, [], running, None;
      warned, calls := {}, [];
      history := before + [Reloaded(running, conditions)];
    }

    ghost function View(): State
      reads this
    {
      State(node, conditions, active, lastSent, pending, started, tookOverFrom, [], [], history)
    }

    /** One call per configured service that exists, in order, whatever the others do. */
    static function CallsFor(services: seq<string>, existing: set<string>, m: Message): seq<(string, Message)> {
      if services == [] then []
      else
        var front, last := CallsFor(services[..|services| - 1], existing, m), services[|services| - 1];
        if last in existing then front + [(last, m)] else front
    }

    /** Service by service: one call to each that exists, none to one that does not. */
    static lemma {:induction false} CallsForEach(a: seq<string>, b: seq<string>, existing: set<string>, m: Message)
      ensures CallsFor(a + b, existing, m) == CallsFor(a, existing, m) + CallsFor(b, existing, m)
      ensures |a| == 1 ==> CallsFor(a, existing, m) == if a[0] in existing then [(a[0], m)] else []
    {
      if b == [] {
        assert a + b == a;
      } else {
        assert (a + b)[..|a + b| - 1] == a + b[..|b| - 1];
        CallsForEach(a, b[..|b| - 1], existing, m);
      }
      if |a| == 1 {
        assert a[..0] == [];
      }
    }

    /** And message by message. */
    static lemma {:induction false} AllCallsForEach(services: seq<string>, a: seq<Message>, b: seq<Message>,
                                                    existing: set<string>)
      ensures AllCalls(services, a + b, existing) == AllCalls(services, a, existing) + AllCalls(services, b, existing)
      ensures |a| == 1 ==> AllCalls(services, a, existing) == CallsFor(services, existing, a[0])
    {
      if b == [] {
        assert a + b == a;
      } else {
        assert (a + b)[..|a + b| - 1] == a + b[..|b| - 1];
        AllCallsForEach(services, a, b[..|b| - 1], existing);
      }
      if |a| == 1 {
        assert a[..0] == [];
      }
    }

    method Deliver(m: Message, existing: set<string>)
      modifies this`calls, this`warned
      ensures calls == old(calls) + CallsFor(services, existing, m)
      ensures warned == old(warned) + (set n | n in services && n !in existing)
    {
      for i := 0 to |services|
        invariant calls == old(calls) + CallsFor(services[..i], existing, m)
        invariant warned == old(warned) + (set n | n in services[..i] && n !in existing)
      {
        var name := services[i];
        assert services[..i + 1][..i] == services[..i];
        assert services[..i + 1] == services[..i] + [name];
        if name !in existing {
          warned := warned + {name};
        } else {
          calls := calls + [(name, m)];
        }
      }
      assert services[..|services|] == services;
    }

    method PushMessage(gate: Condition, m: Message, existing: set<string>)
      modifies this
      ensures View() == Push(old(View()), gate, m)
      ensures calls == if old(started) then old(calls) + CallsFor(services, existing, m) else old(calls)
    {
      history := history + [Pushed(gate, m)];
      if !started {
        if |pending| < MAX_PENDING_ALERTS {
          pending := pending + [m];
        }
        return;
      }
      Deliver(m, existing);
      history := history + [Delivered(m, false)];
    }

    method PushGated(gate: Condition, key: Option<Key>, m: Message, now: real, existing: set<string>)
      modifies this
      ensures View() == PushIfEnabled(old(View()), gate, key, m, now)
      ensures calls == if Speaks(old(View()), gate, key, now) then old(calls) + CallsFor(services, existing, m)
                       else old(calls)
    {
      if gate !in conditions {
        return;
      }
      if key.Some? {
        if InFlapWindow(lastSent, key.value, now) {
          return;
        }
        lastSent := lastSent[key.value := now];
        history := history + [Sent(key.value, now)];
      }
      PushMessage(gate, m, existing);
    }

    method RaiseCondition(c: Condition, m: Message, now: real, existing: set<string>)
      modifies this
      ensures View() == Step(old(View()), Raise(c, m, now))
      ensures calls == if c !in old(active) && Speaks(old(View()), c, Some(Key(c, true)), now)
                       then old(calls) + CallsFor(services, existing, m) else old(calls)
    {
      if c in active {
        return;
      }
      active := active + {c};
      history := history + [Raised(c)];
      PushGated(c, Some(Key(c, true)), m, now, existing);
    }

    method ClearCondition(c: Condition, m: Message, now: real, existing: set<string>)
      modifies this
      ensures View() == Step(old(View()), Clear(c, m, now))
      ensures calls == if c in old(active) && Speaks(old(View()), RECOVERED, Some(Key(c, false)), now)
                       then old(calls) + CallsFor(services, existing, m) else old(calls)
    {
      if c !in active {
        return;
      }
      active := active - {c};
      history := history + [Cleared(c)];
      PushGated(RECOVERED, Some(Key(c, false)), m, now, existing);
    }

    method ForgetCondition(c: Condition)
      modifies this
      ensures View() == Step(old(View()), Forget(c))
    {
      if c in active {
        history := history + [Forgotten(c)];
      }
      active := active - {c};
    }

    /** Something that happened rather than something that is true: no rate limit. */
    method AnnounceEvent(c: Condition, m: Message, existing: set<string>)
      modifies this
      ensures View() == Step(old(View()), Announce(c, m))
      ensures calls == if Speaks(old(View()), c, None, 0.0) then old(calls) + CallsFor(services, existing, m)
                       else old(calls)
    {
      PushGated(c, None, m, 0.0, existing);
    }

    method CheckForPromotion(leader: Option<Node>, source: Option<Node>, m: Message, existing: set<string>)
      modifies this
      ensures View() == Step(old(View()), CheckPromotion(leader, source, m))
      ensures calls == if TakesOver(old(View()), leader, source) && Speaks(old(View()), PROMOTED, None, 0.0)
                       then old(calls) + CallsFor(services, existing, m) else old(calls)
    {
      if leader != Some(node) {
        tookOverFrom := None;
        history := history + [Disarmed];
        return;
      }
      if source == None || source.value == "" || source.value == node {
        return;
      }
      if tookOverFrom == source {
        return;
      }
      tookOverFrom := source;
      history := history + [TookOver(source.value)];
      AnnounceEvent(PROMOTED, m, existing);
    }

    method DeliverHeld(held: seq<Message>, existing: set<string>)
      modifies this`calls, this`warned, this`history
      ensures history == old(history) + Handed(held)
      ensures calls == old(calls) + AllCalls(services, held, existing)
    {
      for i := 0 to |held|
        invariant history == old(history) + Handed(held[..i])
        invariant calls == old(calls) + AllCalls(services, held[..i], existing)
      {
        assert held[..i + 1][..i] == held[..i];
        Deliver(held[i], existing);
        history := history + [Delivered(held[i], true)];
      }
      assert held[..|held|] == held;
    }

    /** The start-up listener, run without a pause: the queue goes out in order. */
    method HomeStarted(existing: set<string>)
      requires !started
      modifies this
      ensures View() == DrainAll(Step(old(View()), Started))
      ensures calls == old(calls) + AllCalls(services, old(pending), existing)
    {
      DrainAllHands(Step(View(), Started));
      var held := pending;
      started, pending := true, [];
      history := history + [Up];
      DeliverHeld(held, existing);
    }

    static function AllCalls(services: seq<string>, held: seq<Message>, existing: set<string>): seq<(string, Message)> {
      if held == [] then []
      else AllCalls(services, held[..|held| - 1], existing) + CallsFor(services, existing, held[|held| - 1])
    }
  }
}
