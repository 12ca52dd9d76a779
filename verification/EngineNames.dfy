/** When an output ID is new: the hypothesis under which runs conserve events, in terms of flows. */
module EngineNames {
  import opened ByteText
  import opened Rules
  import opened FlowModel
  import opened FlowDeadline
  import opened DeadLetterPaging
  import opened Engine
  import opened EngineDelivery
  import opened EngineFlows
  import opened EngineRuns
  import opened OutputIds

  function FlowOf(target: Target): Flow
  {
    target.document.flow
  }

  /** Every finalized document is filed under the ID of the flow inside it. */
  predicate Named(cfg: Config, ledger: Ledger)
  {
    forall id :: id in ledger ==> id == OutputOf(cfg, FlowOf(ledger[id]).key, FlowOf(ledger[id]))
  }

  lemma EnqueueNames(cfg: Config, ledger: Ledger, target: Target)
    requires Named(cfg, ledger)
    ensures Named(cfg, ledger[OutputOf(cfg, FlowOf(target).key, FlowOf(target)) := target])
  {
  }

  lemma DecidedKey(cfg: Config, s: State, rule: Rule, e: Event, key: FlowKey, now: Time)
    requires FlowsHold(cfg, s) && key.ruleId == rule.id
    ensures Decide(s, rule, e, key, now).flow.key == key
  {
    hide WellFormed, Saved, VersionsHold, CandidatesHold, Applied, IsDuplicate, CloseReason, UsedRule;
    var d := Decide(s, rule, e, key, now);
    ApplyLeavesDeadline(Loaded(s, rule, e, key), e, d.used, now);
    if key in s.flows {
      FormAgrees(cfg, key, s.flows[key]);
    }
  }

  lemma AcceptNames(cfg: Config, s: State, t: nat, rule: Rule, e: Event, now: Time)
    requires FlowsHold(cfg, s) && Named(cfg, s.ledger)
    ensures Named(cfg, Accepting(cfg, s, t, rule, e, now).ledger)
  {
    hide FlowsHold, Decide, KeyOfEvent, OutputOf, Considered, OwedAfter, Named;
    KeyIsOfRule(rule, e);
    match KeyOfEvent(rule, e)
    case None =>
    case Some(key) =>
      var d := Decide(s, rule, e, key, now);
      DecidedKey(cfg, s, rule, e, key, now);
      DecideFacts(s, rule, e, key, now);
      if d.reason.Some? {
        EnqueueNames(cfg, s.ledger, TargetOf(cfg, d.flow, d.used, d.reason.value, now));
      }
  }

  lemma SweepNames(cfg: Config, s: State, t: nat, key: FlowKey, now: Time)
    requires FlowsHold(cfg, s) && Named(cfg, s.ledger) && key in s.flows
    ensures Named(cfg, SweepOne(cfg, s, t, key, now).ledger)
  {
    hide WellFormed, Saved, VersionsHold, CandidatesHold, OutputOf, UsedRule, OutcomeOf, Named;
    var f := s.flows[key];
    FormAgrees(cfg, key, f);
    EnqueueNames(cfg, s.ledger, TargetOf(cfg, f, UsedRule(s.registry, f), OutcomeOf(f, s.registry.versions, now), now));
  }

  lemma StepNames(cfg: Config, s: State, step: Step)
    requires FlowsHold(cfg, s) && Named(cfg, s.ledger) && Enabled(cfg, s, step)
    ensures Named(cfg, Next(cfg, s, step).ledger)
  {
    hide FlowsHold, Named, Carries, Truthful, AllReady, AllVersioned, Accepting, SweepOne, Draining, Replayed,
      ReplayIds, Booted, KnownHomes;
    match step
    case Accept(t, now) => AcceptNames(cfg, s, t, s.calls[t].rule, s.calls[t].event, now);
    case Sweep(t, key, now) => SweepNames(cfg, s, t, key, now);
    case Drain(answer, sinkErr, now) => DrainTouchesBoxes(cfg, s, Verdicts(cfg, s.batch, answer, sinkErr, now));
    case _ =>
  }

  lemma {:induction false} RunNames(cfg: Config, s: State, steps: seq<Step>, end: State)
    requires Collisionless(cfg) && Holds(cfg, s) && Named(cfg, s.ledger) && Runs(cfg, s, steps, end)
    ensures Named(cfg, end.ledger)
    decreases |steps|
  {
    hide Collisionless, DeliveryHolds, FlowsHold, Named, Enabled, FreshIds, Next;
    if steps != [] {
      StepKeeps(cfg, s, steps[0]);
      StepNames(cfg, s, steps[0]);
      RunNames(cfg, Next(cfg, s, steps[0]), steps[1..], end);
    }
  }

  /** The engine names outputs as NewOutputID does, and no rule ID holds a colon. */
  ghost predicate NamesOutputs(cfg: Config, digest: Text -> Text, stampOf: Time -> Text)
  {
    && Injective(digest) && Prints(stampOf)
    && forall r, key, at :: cfg.idOf(r, key, at) == NewOutputId(digest, stampOf, FlowKey(r, key), at)
  }

  predicate ColonFree(ledger: Ledger)
  {
    forall id :: id in ledger ==> ':' !in FlowOf(ledger[id]).key.ruleId
  }

  predicate SameInstant(target: Target, key: FlowKey, at: Time)
  {
    FlowOf(target).key == key && FlowOf(target).firstObservedAt == at
  }

  /** In every reachable state, closing a flow uses a new ID exactly when no finalized flow had its
      key and its first observed instant. */
  lemma NewIdIffNewInstant(cfg: Config, digest: Text -> Text, stampOf: Time -> Text, rules: seq<Rule>, steps: seq<Step>,
                           end: State, key: FlowKey, f: Flow)
    requires Reached(cfg, rules, steps, end) && NamesOutputs(cfg, digest, stampOf)
    requires ':' !in key.ruleId && ColonFree(end.ledger)
    ensures OutputOf(cfg, key, f) !in end.ledger <==>
            forall id :: id in end.ledger ==> !SameInstant(end.ledger[id], key, f.firstObservedAt)
  {
    ReachedNames(cfg, rules, steps, end);
    hide Reached, Holds, NewOutputId, Prints, Injective;
    forall id | id in end.ledger
      ensures id == OutputOf(cfg, key, f) <==> SameInstant(end.ledger[id], key, f.firstObservedAt)
    {
      var g := FlowOf(end.ledger[id]);
      SharedIdIffSameInstant(digest, stampOf, g.key, g.firstObservedAt, key, f.firstObservedAt);
    }
  }

  lemma ReachedNames(cfg: Config, rules: seq<Rule>, steps: seq<Step>, end: State)
    requires Reached(cfg, rules, steps, end)
    ensures Named(cfg, end.ledger)
  {
    hide Collisionless, Holds, AllVersioned, Runs, Booted;
    InitialHolds(cfg, rules);
    RunNames(cfg, Initial(rules), steps, end);
  }
}
