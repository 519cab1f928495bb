/**
 The service gate: switch the recorder and the automations off while this node is
 a follower, and back on only what this gate itself switched off.

 Whether each service call succeeds is an oracle. Passes do not overlap.
 */
module Gating {
  datatype Call = Call(on: bool, succeeded: bool)

  /** One layer: what the gate believes, and every call it ever issued for it. */
  datatype Layer = Layer(gatedOff: bool, calls: seq<Call>)

  datatype Gate = Gate(gateRecorder: bool, gateAutomations: bool, recorder: Layer, automations: Layer)

  datatype Event =
    | Apply(leading: bool, recorderOk: bool, automationsOk: bool)
    | Unload(recorderOk: bool, automationsOk: bool)

  function Reconcile(l: Layer, leading: bool, ok: bool): Layer {
    if !leading && !l.gatedOff then Layer(ok, l.calls + [Call(false, ok)])
    else if leading && l.gatedOff then Layer(!ok, l.calls + [Call(true, ok)])
    else l
  }

  /** Applying looks at the options; undoing does not. */
  function Step(g: Gate, e: Event): Gate {
    match e
    case Apply(leading, recorderOk, automationsOk) =>
      g.(recorder := if g.gateRecorder then Reconcile(g.recorder, leading, recorderOk) else g.recorder,
         automations := if g.gateAutomations then Reconcile(g.automations, leading, automationsOk) else g.automations)
    case Unload(recorderOk, automationsOk) =>
      g.(recorder := Reconcile(g.recorder, true, recorderOk),
         automations := Reconcile(g.automations, true, automationsOk))
  }

  function At(g: Gate, es: seq<Event>, k: nat): Gate
    requires k <= |es|
  {
    if k == 0 then g else Step(At(g, es, k - 1), es[k - 1])
  }

  predicate Untouched(g: Gate) {
    g.recorder == Layer(false, []) && g.automations == Layer(false, [])
  }

  // ------------------------------------------------------------- alternation

  /** The calls that took effect, oldest first. */
  function Effective(calls: seq<Call>): seq<bool> {
    if calls == [] then []
    else
      var front, last := Effective(calls[..|calls| - 1]), calls[|calls| - 1];
      if last.succeeded then front + [last.on] else front
  }

  /** Off, on, off, on, ... */
  predicate Alternates(effects: seq<bool>) {
    forall i :: 0 <= i < |effects| ==> effects[i] == (i % 2 == 1)
  }

  /** What the last effective call left the service as; it starts on. */
  predicate ServiceIsOff(calls: seq<Call>) {
    var effects := Effective(calls);
    effects != [] && !effects[|effects| - 1]
  }

  predicate LayerInv(l: Layer) {
    && Alternates(Effective(l.calls))
    && (l.gatedOff <==> |Effective(l.calls)| % 2 == 1)
  }

  lemma BeliefIsTrue(l: Layer)
    requires LayerInv(l)
    ensures l.gatedOff <==> ServiceIsOff(l.calls)
  {
    var effects := Effective(l.calls);
    if effects != [] {
      assert effects[|effects| - 1] == ((|effects| - 1) % 2 == 1);
    }
  }

  lemma ReconcileKeepsInv(l: Layer, leading: bool, ok: bool)
    requires LayerInv(l)
    ensures LayerInv(Reconcile(l, leading, ok))
  {
    var l' := Reconcile(l, leading, ok);
    if l' != l {
      assert l'.calls[..|l'.calls| - 1] == l.calls;
    }
  }

  lemma {:induction false} RunKeepsInv(g: Gate, es: seq<Event>, k: nat)
    requires k <= |es| && Untouched(g)
    ensures LayerInv(At(g, es, k).recorder) && LayerInv(At(g, es, k).automations)
  {
    if k > 0 {
      RunKeepsInv(g, es, k - 1);
      var before := At(g, es, k - 1);
      match es[k - 1] {
        case Apply(leading, recorderOk, automationsOk) =>
          ReconcileKeepsInv(before.recorder, leading, recorderOk);
          ReconcileKeepsInv(before.automations, leading, automationsOk);
        case Unload(recorderOk, automationsOk) =>
          ReconcileKeepsInv(before.recorder, true, recorderOk);
          ReconcileKeepsInv(before.automations, true, automationsOk);
      }
    }
  }

  /** Over every run, whatever fails: the calls that take effect strictly alternate,
      off first, and the gate believes a layer off exactly when the service is. */
  lemma CallsAlternate(g: Gate, es: seq<Event>, k: nat)
    requires k <= |es| && Untouched(g)
    ensures var t := At(g, es, k);
            && Alternates(Effective(t.recorder.calls)) && Alternates(Effective(t.automations.calls))
            && (t.recorder.gatedOff <==> ServiceIsOff(t.recorder.calls))
            && (t.automations.gatedOff <==> ServiceIsOff(t.automations.calls))
  {
    RunKeepsInv(g, es, k);
    BeliefIsTrue(At(g, es, k).recorder);
    BeliefIsTrue(At(g, es, k).automations);
  }

  /** A node never seen as a follower, or a layer not opted in, issues no call. */
  lemma {:induction false} LeaderIsLeftAlone(g: Gate, es: seq<Event>, k: nat)
    requires k <= |es| && Untouched(g)
    ensures !g.gateRecorder || (forall i :: 0 <= i < k && es[i].Apply? ==> es[i].leading) ==>
              At(g, es, k).recorder == Layer(false, [])
    ensures !g.gateAutomations || (forall i :: 0 <= i < k && es[i].Apply? ==> es[i].leading) ==>
              At(g, es, k).automations == Layer(false, [])
    ensures At(g, es, k).gateRecorder == g.gateRecorder && At(g, es, k).gateAutomations == g.gateAutomations
  {
    if k > 0 { LeaderIsLeftAlone(g, es, k - 1); }
  }

  /** `after` is `before` brought into line with the role; or, if the call failed,
      still as it was, with the attempt made whenever there was something to do. */
  predicate Settled(before: Layer, after: Layer, leading: bool, ok: bool) {
    if ok then ServiceIsOff(after.calls) <==> !leading
    else
      && (ServiceIsOff(after.calls) <==> ServiceIsOff(before.calls))
      && |after.calls| == |before.calls| + if ServiceIsOff(before.calls) == leading then 1 else 0
  }

  lemma ReconcileSettles(l: Layer, leading: bool, ok: bool)
    requires LayerInv(l)
    ensures Settled(l, Reconcile(l, leading, ok), leading, ok)
  {
    ReconcileKeepsInv(l, leading, ok);
    BeliefIsTrue(l);
    BeliefIsTrue(Reconcile(l, leading, ok));
  }

  /** A pass whose calls succeed brings every gated layer into line with the role; one
      whose calls fail changes no belief, so the next pass tries again. */
  lemma PassSettlesOrRetries(g: Gate, es: seq<Event>, k: nat, leading: bool, recorderOk: bool, automationsOk: bool)
    requires k <= |es| && Untouched(g)
    ensures var t := At(g, es, k);
            var after := Step(t, Apply(leading, recorderOk, automationsOk));
            && (g.gateRecorder ==> Settled(t.recorder, after.recorder, leading, recorderOk))
            && (g.gateAutomations ==> Settled(t.automations, after.automations, leading, automationsOk))
  {
    LeaderIsLeftAlone(g, es, k);
    RunKeepsInv(g, es, k);
    ReconcileSettles(At(g, es, k).recorder, leading, recorderOk);
    ReconcileSettles(At(g, es, k).automations, leading, automationsOk);
  }

  /** After an unload whose calls succeed nothing this gate switched off stays off:
      every off has its on. */
  lemma UnloadLeavesNothingOff(g: Gate, es: seq<Event>, k: nat)
    requires k <= |es| && Untouched(g)
    ensures var t := Step(At(g, es, k), Unload(true, true));
            && |Effective(t.recorder.calls)| % 2 == 0 && |Effective(t.automations.calls)| % 2 == 0
            && !ServiceIsOff(t.recorder.calls) && !ServiceIsOff(t.automations.calls)
  {
    RunKeepsInv(g, es, k);
    UndoneIsOn(At(g, es, k).recorder);
    UndoneIsOn(At(g, es, k).automations);
  }

  lemma UndoneIsOn(l: Layer)
    requires LayerInv(l)
    ensures var l' := Reconcile(l, true, true);
            |Effective(l'.calls)| % 2 == 0 && !ServiceIsOff(l'.calls)
  {
    ReconcileKeepsInv(l, true, true);
    BeliefIsTrue(Reconcile(l, true, true));
  }

  // ---------------------------------------------------------- the implementation

  class ServiceGate {
    const gateRecorder: bool
    const gateAutomations: bool
    var recorderOff: bool
    var automationsOff: bool
    var recorderCalls: seq<Call>
    var automationCalls: seq<Call>

    constructor (gateRecorder: bool, gateAutomations: bool)
      ensures Untouched(View())
      ensures this.gateRecorder == gateRecorder && this.gateAutomations == gateAutomations
    {
      this.gateRecorder, this.gateAutomations := gateRecorder, gateAutomations;
      recorderOff, automationsOff, recorderCalls, automationCalls := false, false, [], [];
    }

    function View(): Gate
      reads this
    {
      Gate(gateRecorder, gateAutomations, Layer(recorderOff, recorderCalls), Layer(automationsOff, automationCalls))
    }

    method ReconcileRecorder(leading: bool, ok: bool)
      modifies this`recorderOff, this`recorderCalls
      ensures View() == old(View()).(recorder := Reconcile(old(View()).recorder, leading, ok))
    {
      var wasOff := recorderOff;
      if !leading && !wasOff {
        recorderCalls := recorderCalls + [Call(false, ok)];
        if ok {
          recorderOff := true;
        }
      } else if leading && wasOff {
        recorderCalls := recorderCalls + [Call(true, ok)];
        if ok {
          recorderOff := false;
        }
      }
    }

    method ReconcileAutomations(leading: bool, ok: bool)
      modifies this`automationsOff, this`automationCalls
      ensures View() == old(View()).(automations := Reconcile(old(View()).automations, leading, ok))
    {
      var wasOff := automationsOff;
      if !leading && !wasOff {
        automationCalls := automationCalls + [Call(false, ok)];
        if ok {
          automationsOff := true;
        }
      } else if leading && wasOff {
        automationCalls := automationCalls + [Call(true, ok)];
        if ok {
          automationsOff := false;
        }
      }
    }

    method ApplyRole(leading: bool, recorderOk: bool, automationsOk: bool)
      modifies this
      ensures View() == Step(old(View()), Apply(leading, recorderOk, automationsOk))
    {
      if gateRecorder {
        ReconcileRecorder(leading, recorderOk);
      }
      if gateAutomations {
        ReconcileAutomations(leading, automationsOk);
      }
    }

    method RestoreAll(recorderOk: bool, automationsOk: bool)
      modifies this
      ensures View() == Step(old(View()), Unload(recorderOk, automationsOk))
    {
      ReconcileRecorder(true, recorderOk);
      ReconcileAutomations(true, automationsOk);
    }
  }
}
