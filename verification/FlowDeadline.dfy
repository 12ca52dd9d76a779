/** When an open flow is due, and why it closes: the timeout budget, the settle window that may
    shorten it, and the reason a sweep records. */
module FlowDeadline {
  import opened ByteText
  import opened Rules
  import opened FlowModel
  import opened FlowAccounting

  /** The deadline fields agree: the total budget, shortened by a running settle window. */
  predicate DeadlineAgrees(f: Flow, r: Rule)
  {
    && f.timeoutAt == f.firstObservedAt + r.timeout
    && f.expiresAt == (if Settling(f) then MinTime(f.timeoutAt, f.settleUntil) else f.timeoutAt)
    && (Settling(f) ==> r.settle > 0)
  }

  /** What is true of every flow handed to SaveFlow. */
  predicate Saved(f: Flow, r: Rule)
  {
    && DeadlineAgrees(f, r)
    && !f.terminalSeen && !AtLimit(f, r)
    && (Settling(f) <==> CloseCondition(f, r))
  }

  /** One accepted event: Apply, then ShouldClose. */
  function Accepted(f: Flow, e: Event, r: Rule, now: Time): Flow
  {
    Considered(Applied(f, e, r, now), r, now)
  }

  function Verdict(f: Flow, e: Event, r: Rule, now: Time): Option<Reason>
  {
    CloseReason(Applied(f, e, r, now), r, now)
  }

  /** Identity, pinned rule and schedule are untouched. */
  predicate SameSchedule(f: Flow, g: Flow)
  {
    && g.key == f.key && g.ruleVersion == f.ruleVersion && g.pinnedRule == f.pinnedRule
    && g.firstObservedAt == f.firstObservedAt && g.timeoutAt == f.timeoutAt
    && g.expiresAt == f.expiresAt && g.settleUntil == f.settleUntil
  }

  lemma StitchedLeavesDeadline(f: Flow, e: Event, r: Rule, now: Time, slot: Slot, i: nat)
    requires slot.index < |r.stitch| && i < |f.invocations|
    ensures SameSchedule(f, Stitched(f, e, r, now, slot, i))
  {
    hide Occupied, Over;
  }

  lemma ApplyLeavesDeadline(f: Flow, e: Event, r: Rule, now: Time)
    ensures SameSchedule(f, Applied(f, e, r, now))
  {
    hide SlotOf, Over, Stitched, GroupOf, Identity, Find, MarksTerminal;
    match SlotOf(r, e.doc.body)
    case None =>
    case Some(slot) =>
      var f' := f.(terminalSeen := f.terminalSeen || MarksTerminal(r, e.doc.body), updatedAt := now);
      StitchedLeavesDeadline(WithInvocation(f', e, r, slot), e, r, now, slot, Find(f.invocations, Identity(r, slot)));
  }

  /** The zero time doubles as "not settling", so the clock must not reach back to year 1. */
  predicate Representable(now: Time)
  {
    now >= ZERO_TIME
  }

  /** A flow that stays open is saved with its deadline, limits and settle window in agreement. */
  lemma AcceptSaves(f: Flow, e: Event, r: Rule, now: Time)
    requires DeadlineAgrees(f, r) && Representable(now)
    ensures DeadlineAgrees(Accepted(f, e, r, now), r)
    ensures Verdict(f, e, r, now) == None ==> Saved(Accepted(f, e, r, now), r)
  {
    hide Applied;
    ApplyLeavesDeadline(f, e, r, now);
  }

  function SweepReason(f: Flow, r: Rule, now: Time): Reason
  {
    var reason := CloseReason(f, r, now);
    if reason.Some? then reason.value else Timeout
  }

  /** A sweep closes a saved flow as complete exactly when its settle window has elapsed. */
  lemma SweepReasonExact(f: Flow, r: Rule, now: Time)
    requires Saved(f, r)
    ensures SweepReason(f, r, now) == if Settling(f) && f.settleUntil <= now then InvocationsComplete else Timeout
    ensures f.expiresAt <= now && SweepReason(f, r, now) == Timeout ==> f.timeoutAt <= now
  {
  }

  /** The rule version a flow holds. */
  function PinnedBy(f: Flow): Reference
  {
    Reference(f.key.ruleId, f.ruleVersion)
  }

  /** Without its rule version the flow closes as rule_unavailable, from its pinned snapshot. */
  function OutcomeOf(f: Flow, versions: map<Reference, Rule>, now: Time): Reason
  {
    if PinnedBy(f) in versions then SweepReason(f, versions[PinnedBy(f)], now) else RuleUnavailable
  }

  // ---------- whole runs ----------

  function AcceptAll(f: Flow, inputs: seq<Input>, r: Rule): Flow
  {
    if inputs == [] then f
    else
      var n := |inputs| - 1;
      Accepted(AcceptAll(f, inputs[..n], r), inputs[n].event, r, inputs[n].now)
  }

  /** No event of the run closes the flow. */
  predicate StaysOpen(f: Flow, inputs: seq<Input>, r: Rule)
  {
    forall n :: 0 <= n < |inputs| ==> OpenAt(f, inputs, r, n)
  }

  predicate OpenAt(f: Flow, inputs: seq<Input>, r: Rule, n: nat)
    requires n < |inputs|
  {
    && Representable(inputs[n].now)
    && Verdict(AcceptAll(f, inputs[..n], r), inputs[n].event, r, inputs[n].now) == None
  }

  lemma PrefixStaysOpen(f: Flow, inputs: seq<Input>, r: Rule, n: nat)
    requires StaysOpen(f, inputs, r) && n <= |inputs|
    ensures StaysOpen(f, inputs[..n], r)
  {
    hide Verdict, AcceptAll;
    forall m | 0 <= m < n ensures OpenAt(f, inputs[..n], r, m) {
      assert inputs[..n][..m] == inputs[..m] && inputs[..n][m] == inputs[m];
      assert OpenAt(f, inputs, r, m);
    }
  }

  lemma {:induction false} RunDeadlineAgrees(f: Flow, inputs: seq<Input>, r: Rule)
    requires DeadlineAgrees(f, r) && StaysOpen(f, inputs, r)
    ensures DeadlineAgrees(AcceptAll(f, inputs, r), r)
    ensures inputs != [] ==> Saved(AcceptAll(f, inputs, r), r)
    decreases |inputs|
  {
    hide Verdict, Accepted, DeadlineAgrees, Saved;
    if inputs != [] {
      var n := |inputs| - 1;
      PrefixStaysOpen(f, inputs, r, n);
      RunDeadlineAgrees(f, inputs[..n], r);
      assert OpenAt(f, inputs, r, n);
      AcceptSaves(AcceptAll(f, inputs[..n], r), inputs[n].event, r, inputs[n].now);
    }
  }

  /** The state after the first n events. */
  function After(f: Flow, inputs: seq<Input>, r: Rule, n: nat): Flow
    requires n <= |inputs|
  {
    AcceptAll(f, inputs[..n], r)
  }

  /** The window opened at event `start` and the close condition has held from then on. */
  predicate WindowFrom(f: Flow, inputs: seq<Input>, r: Rule, start: nat)
    requires start < |inputs|
  {
    && After(f, inputs, r, |inputs|).settleUntil == inputs[start].now + r.settle
    && (start > 0 ==> !CloseCondition(After(f, inputs, r, start), r))
    && forall n :: start < n <= |inputs| ==> CloseCondition(After(f, inputs, r, n), r)
  }

  lemma WindowStep(f: Flow, e: Event, r: Rule, now: Time)
    requires Verdict(f, e, r, now) == None && Settling(Accepted(f, e, r, now))
    ensures !Settling(f) ==> Accepted(f, e, r, now).settleUntil == now + r.settle
    ensures Settling(f) ==> Accepted(f, e, r, now).settleUntil == f.settleUntil
    ensures CloseCondition(Accepted(f, e, r, now), r)
  {
    hide Applied;
    ApplyLeavesDeadline(f, e, r, now);
  }

  /** The settle window counts from the event that made the flow complete; later events that keep
      it complete do not extend it, and one that breaks completeness cancels it. */
  lemma {:induction false} SettleWindowIsAnchored(key: FlowKey, r: Rule, first: Event, inputs: seq<Input>)
    returns (start: nat)
    requires inputs != [] && StaysOpen(Open(key, r, first), inputs, r)
    requires Settling(AcceptAll(Open(key, r, first), inputs, r))
    ensures start < |inputs| && WindowFrom(Open(key, r, first), inputs, r, start)
    decreases |inputs|
  {
    hide Accepted, Verdict, CloseCondition, Open;
    var f := Open(key, r, first);
    assert DeadlineAgrees(f, r) && !Settling(f) by { OpenAgrees(key, r, first); }
    var n := |inputs| - 1;
    var before := inputs[..n];
    assert inputs[..|inputs|] == inputs;
    PrefixStaysOpen(f, inputs, r, n);
    assert OpenAt(f, inputs, r, n);
    WindowStep(AcceptAll(f, before, r), inputs[n].event, r, inputs[n].now);
    RunDeadlineAgrees(f, before, r);
    if !Settling(AcceptAll(f, before, r)) {
      start := n;
    } else {
      start := SettleWindowIsAnchored(key, r, first, before);
      assert before[..|before|] == before;
      forall m | start < m <= |inputs| ensures CloseCondition(After(f, inputs, r, m), r) {
        if m <= n {
          assert inputs[..m] == before[..m];
          assert CloseCondition(After(f, before, r, m), r);
        }
      }
      assert inputs[..start] == before[..start];
    }
  }

  lemma OpenAgrees(key: FlowKey, r: Rule, first: Event)
    ensures DeadlineAgrees(Open(key, r, first), r) && !Settling(Open(key, r, first))
  {
  }
}
