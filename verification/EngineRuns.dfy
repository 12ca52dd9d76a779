/** What holds in every state that any interleaving of steps reaches. */
module EngineRuns {
  import opened ByteText
  import opened Rules
  import opened FlowModel
  import opened FlowAccounting
  import opened FlowDeadline
  import opened FlowEffects
  import opened RuleNormalisation
  import Registry
  import opened Outbox
  import opened DeadLetters
  import opened Delivery
  import opened Engine
  import opened EngineDelivery
  import opened EngineFlows
  import opened EngineEvents
  import opened EngineRules

  ghost predicate Holds(cfg: Config, s: State)
  {
    DeliveryHolds(cfg, s) && FlowsHold(cfg, s) && EventsHold(s) && RegistryHolds(s)
  }

  lemma StepKeeps(cfg: Config, s: State, step: Step)
    requires Collisionless(cfg) && Holds(cfg, s) && Enabled(cfg, s, step) && FreshIds(cfg, s, step)
    ensures Holds(cfg, Next(cfg, s, step)) && Extends(Next(cfg, s, step).ledger, s.ledger)
  {
    hide Collisionless, DeliveryHolds, FlowsHold, EventsHold, RegistryHolds, Enabled, FreshIds, Next, Extends;
    StepKeepsDelivery(cfg, s, step);
    StepKeepsFlows(cfg, s, step);
    StepConserves(cfg, s, step);
    StepKeepsRegistry(cfg, s, step);
  }

  lemma InitialHolds(cfg: Config, rules: seq<Rule>)
    requires AllVersioned(cfg, rules)
    ensures Holds(cfg, Initial(rules))
  {
    hide AllVersioned, Booted, DeliveryHolds, EventsHold, VersionsHold, RegistryHolds;
    InitialDelivery(cfg, rules);
    InitialEvents(rules);
    BootedHolds(cfg, rules, map[]);
    RestartKeepsRegistry(Initial(rules), rules);
    assert KnownHomes(Booted(rules, map[]), map[]) == {};
    assert Rebooted(Initial(rules), rules) == Initial(rules);
  }

  lemma {:induction false} RunKeeps(cfg: Config, s: State, steps: seq<Step>, end: State)
    requires Collisionless(cfg) && Holds(cfg, s) && Runs(cfg, s, steps, end)
    ensures Holds(cfg, end) && Extends(end.ledger, s.ledger)
    decreases |steps|
  {
    hide Collisionless, Holds, Enabled, FreshIds, Next;
    if steps != [] {
      StepKeeps(cfg, s, steps[0]);
      RunKeeps(cfg, Next(cfg, s, steps[0]), steps[1..], end);
    }
  }

  lemma {:induction false} RunsTogether(cfg: Config, s: State, first: seq<Step>, mid: State, second: seq<Step>,
                                        end: State)
    requires Runs(cfg, s, first, mid) && Runs(cfg, mid, second, end)
    ensures Runs(cfg, s, first + second, end)
    decreases |first|
  {
    hide Enabled, FreshIds, Next;
    if first == [] {
      assert first + second == second;
    } else {
      assert (first + second)[0] == first[0] && (first + second)[1..] == first[1..] + second;
      RunsTogether(cfg, Next(cfg, s, first[0]), first[1..], mid, second, end);
    }
  }

  /** `end` is reached from an empty store by some interleaving in which no output ID repeats. */
  ghost predicate Reached(cfg: Config, rules: seq<Rule>, steps: seq<Step>, end: State)
  {
    Collisionless(cfg) && AllVersioned(cfg, rules) && Runs(cfg, Initial(rules), steps, end)
  }

  lemma ReachedHolds(cfg: Config, rules: seq<Rule>, steps: seq<Step>, end: State)
    requires Reached(cfg, rules, steps, end)
    ensures Holds(cfg, end)
  {
    hide Collisionless, Holds, AllVersioned, Runs, Initial;
    InitialHolds(cfg, rules);
    RunKeeps(cfg, Initial(rules), steps, end);
  }

  /** What a run reaches from a reachable state is reachable. */
  lemma ReachedFurther(cfg: Config, rules: seq<Rule>, steps: seq<Step>, mid: State, more: seq<Step>, end: State)
    requires Reached(cfg, rules, steps, mid) && Runs(cfg, mid, more, end)
    ensures Reached(cfg, rules, steps + more, end)
  {
    hide Collisionless, AllVersioned, Runs, Initial;
    RunsTogether(cfg, Initial(rules), steps, mid, more, end);
  }

  // ---------- conservation ----------

  /** Over every interleaving of accepts, sweeps, drains, replays, reloads and crashes, each accepted
      non-duplicate event is in exactly one place. */
  lemma EveryRunConservesEvents(cfg: Config, rules: seq<Rule>, steps: seq<Step>, end: State)
    requires Reached(cfg, rules, steps, end)
    ensures InOnePlace(end)
  {
    hide Reached, FlowsHold, EventsHold, RegistryHolds, Conserved, Filed;
    ReachedHolds(cfg, rules, steps, end);
    EventsAreInOnePlace(end);
  }

  // ---------- exactly-once effect ----------

  /** One document per finalized flow, whatever was retried, buried, replayed or written late. */
  lemma EveryRunDeliversOnce(cfg: Config, rules: seq<Rule>, steps: seq<Step>, end: State, id: OutputId, a: Text,
                             b: Text)
    requires Reached(cfg, rules, steps, end)
    requires (a, id) in end.sink && (b, id) in end.sink
    ensures a == b && id in end.ledger && end.ledger[id] == Target(a, end.sink[(a, id)])
  {
    hide Reached, FlowsHold, EventsHold, RegistryHolds, Filed;
    ReachedHolds(cfg, rules, steps, end);
    assert (a, id).1 == id && (b, id).1 == id;
  }

  /** Index and bytes are those of the moment of enqueue: a later sink document for an ID enqueued by
      then is the one enqueued. */
  lemma DocumentsAreFixedAtEnqueue(cfg: Config, rules: seq<Rule>, before: seq<Step>, mid: State, after: seq<Step>,
                                   end: State, index: Text, id: OutputId)
    requires Reached(cfg, rules, before, mid) && Runs(cfg, mid, after, end)
    requires id in mid.ledger && (index, id) in end.sink
    ensures Target(index, end.sink[(index, id)]) == mid.ledger[id]
  {
    hide FlowsHold, EventsHold, RegistryHolds, Filed, Runs, Collisionless, AllVersioned;
    ReachedHolds(cfg, rules, before, mid);
    RunKeeps(cfg, mid, after, end);
    assert (index, id).1 == id;
  }

  /** What was dropped from the outbox as delivered is in the sink. */
  lemma ReleasedHasArrived(cfg: Config, rules: seq<Rule>, steps: seq<Step>, end: State, id: OutputId)
    requires Reached(cfg, rules, steps, end) && id in end.released
    ensures id in end.ledger && (end.ledger[id].index, id) in end.sink
    ensures end.sink[(end.ledger[id].index, id)] == end.ledger[id].document
  {
    hide Reached, FlowsHold, EventsHold, RegistryHolds, Filed;
    ReachedHolds(cfg, rules, steps, end);
    var p := (end.ledger[id].index, id);
    assert p in end.sink && p.1 == id;
  }

  // ---------- registry ----------

  /** A version's count is the open flows pinned to it plus the in-flight calls that retain it; a
      version resolves if it is current, and only if it is current or someone needs it. */
  lemma EveryRunCountsExactly(cfg: Config, rules: seq<Rule>, steps: seq<Step>, end: State, ref: Reference)
    requires Reached(cfg, rules, steps, end)
    ensures Registry.Holders(end.registry, ref) == Pinned(end.flows)[ref] + Held(end.calls)[ref]
    ensures Registry.IsCurrent(end.registry.current, ref) ==> ref in end.registry.versions
    ensures ref in end.registry.versions ==>
            Registry.IsCurrent(end.registry.current, ref) || Pinned(end.flows)[ref] + Held(end.calls)[ref] > 0
  {
    hide Reached, DeliveryHolds, FlowsHold, EventsHold, Pinned, Held, Registry.IsCurrent, Available;
    ReachedHolds(cfg, rules, steps, end);
    assert Registry.Holders(end.registry, ref) == Needed(end)[ref];
  }

  /** A flow this process opened, or recovered with its version at hand, resolves its own version
      for as long as it is open, whatever is published meanwhile. */
  lemma OpenFlowsKeepTheirVersion(cfg: Config, rules: seq<Rule>, steps: seq<Step>, end: State, key: FlowKey)
    requires Reached(cfg, rules, steps, end) && key in end.home
    ensures key in end.flows && PinnedBy(end.flows[key]) in end.registry.versions
    ensures SameCorrelation(end.registry.versions[PinnedBy(end.flows[key])], end.flows[key].pinnedRule)
  {
    hide DeliveryHolds, EventsHold, Runs, Counts, Registry.Tidy, WellFormed, Saved, VersionsHold, CandidatesHold,
      SameCorrelation, PinnedBy, Collisionless, AllVersioned;
    ReachedHolds(cfg, rules, steps, end);
    KnownVersionAgrees(cfg, end.registry, key, end.flows[key]);
  }

  lemma KnownVersionAgrees(cfg: Config, g: Registry.Registry, key: FlowKey, f: Flow)
    requires Collisionless(cfg) && VersionsHold(cfg, g) && WellFormed(cfg, key, f) && PinnedBy(f) in g.versions
    ensures SameCorrelation(g.versions[PinnedBy(f)], f.pinnedRule)
  {
    hide Versioned, SameCorrelation, Collisionless, Balanced, Positioned, AllExact;
    SameVersionSameCorrelation(cfg, g.versions[PinnedBy(f)], f.pinnedRule);
  }

  /** A sweep closes such a flow as complete exactly when its settle window has elapsed and as a
      timeout otherwise; never as rule_unavailable. */
  lemma SweepReasonInEveryRun(cfg: Config, rules: seq<Rule>, steps: seq<Step>, end: State, key: FlowKey, now: Time)
    requires Reached(cfg, rules, steps, end) && key in end.home
    ensures
      && key in end.flows
      && var f := end.flows[key];
      OutcomeOf(f, end.registry.versions, now) ==
          if Settling(f) && f.settleUntil <= now then InvocationsComplete else Timeout
  {
    hide Reached, SameCorrelation, Saved, PinnedBy, CloseReason, Settling;
    OpenFlowsKeepTheirVersion(cfg, rules, steps, end, key);
    StoredFlowsAreSound(cfg, rules, steps, end, key);
    var f := end.flows[key];
    SameClose(end.registry.versions[PinnedBy(f)], f.pinnedRule, f, now);
    SweepReasonExact(f, f.pinnedRule, now);
  }

  /** Every open flow, in every reachable state: deadline, limits and settle window agree, the books
      balance, and completeness is exact when stitch names are distinct. */
  lemma StoredFlowsAreSound(cfg: Config, rules: seq<Rule>, steps: seq<Step>, end: State, key: FlowKey)
    requires Reached(cfg, rules, steps, end) && key in end.flows
    ensures
      var f := end.flows[key];
      && f.key == key && Saved(f, f.pinnedRule) && WithinLimits(f, f.pinnedRule) && Balanced(f) && Positioned(f)
      && (SeparateStitches(f.pinnedRule) ==> AllExact(f, f.pinnedRule))
  {
    hide Reached, DeliveryHolds, EventsHold, RegistryHolds, Saved, Balanced, Positioned, AllExact, Versioned,
      VersionsHold, CandidatesHold, Latched, WithinLimits;
    ReachedHolds(cfg, rules, steps, end);
    SavedIsWithin(end.flows[key], end.flows[key].pinnedRule);
  }

  /** A verdict on the flow itself never says that its rule is gone. */
  lemma VerdictsKnowTheRule(f: Flow, r: Rule, now: Time)
    ensures SweepReason(f, r, now) != RuleUnavailable
  {
    hide CloseCondition, AtLimit;
  }

  /** The reason a sweep records, in every reachable state and for every due flow: rule_unavailable exactly when
      no registry entry holds the flow's version, then filed under the flow's own pinned rule; else complete when
      the settle window has elapsed and timeout when not. The record is new, whole and ready at once. */
  lemma SweptRecordInEveryRun(cfg: Config, rules: seq<Rule>, steps: seq<Step>, end: State, t: nat, key: FlowKey,
                              now: Time)
    requires Reached(cfg, rules, steps, end) && Enabled(cfg, end, Step.Sweep(t, key, now))
    ensures
      var f, s' := end.flows[key], Next(cfg, end, Step.Sweep(t, key, now));
      var id := OutputOf(cfg, key, f);
      && key !in s'.flows && id in s'.boxes.records
      && var record := s'.boxes.records[id];
      && record.document.flow == f && record.document.finalizedAt == now && record.createdAt == now
      && record.attempts == 0 && record.replayCount == 0 && (forall at :: Ready(record, at))
      && (record.document.reason == RuleUnavailable <==> PinnedBy(f) !in end.registry.versions)
      && (PinnedBy(f) !in end.registry.versions ==> record.index == cfg.indexOf(f.pinnedRule, f, RuleUnavailable, now))
      && (PinnedBy(f) in end.registry.versions ==>
            && record.index == cfg.indexOf(end.registry.versions[PinnedBy(f)], f, record.document.reason, now)
            && (record.document.reason == InvocationsComplete <==> Settling(f) && f.settleUntil <= now)
            && (record.document.reason == Timeout <==> !(Settling(f) && f.settleUntil <= now)))
  {
    hide Reached, SameCorrelation, Saved, WithinLimits, PinnedBy, Settling, Balanced, Positioned, AllExact, OutputOf,
      SweepReason;
    var f := end.flows[key];
    StoredFlowsAreSound(cfg, rules, steps, end, key);
    if PinnedBy(f) in end.registry.versions {
      var r := end.registry.versions[PinnedBy(f)];
      KnownInEveryRun(cfg, rules, steps, end, key);
      VerdictsKnowTheRule(f, r, now);
      SameReason(r, f.pinnedRule, f, now);
      SweepReasonExact(f, f.pinnedRule, now);
    }
  }

  lemma SameReason(a: Rule, b: Rule, f: Flow, now: Time)
    requires SameCorrelation(a, b)
    ensures SweepReason(f, a, now) == SweepReason(f, b, now)
  {
    hide SameCorrelation, CloseReason;
    SameClose(a, b, f, now);
  }

  lemma KnownInEveryRun(cfg: Config, rules: seq<Rule>, steps: seq<Step>, end: State, key: FlowKey)
    requires Reached(cfg, rules, steps, end) && key in end.flows && PinnedBy(end.flows[key]) in end.registry.versions
    ensures SameCorrelation(end.registry.versions[PinnedBy(end.flows[key])], end.flows[key].pinnedRule)
  {
    hide DeliveryHolds, EventsHold, RegistryHolds, Runs, WellFormed, Saved, VersionsHold, CandidatesHold,
      SameCorrelation, PinnedBy, Collisionless, AllVersioned;
    ReachedHolds(cfg, rules, steps, end);
    KnownVersionAgrees(cfg, end.registry, key, end.flows[key]);
  }

  // ---------- retries and retention ----------

  lemma EveryRunIsBounded(cfg: Config, rules: seq<Rule>, steps: seq<Step>, end: State)
    requires Reached(cfg, rules, steps, end)
    ensures forall id :: id in end.boxes.records ==> end.boxes.records[id].attempts <= cfg.maxRetries
    ensures cfg.maxDlq >= 0 ==> |end.boxes.dead| <= cfg.maxDlq
  {
    hide Reached, FlowsHold, EventsHold, RegistryHolds, Filed, Carries;
    ReachedHolds(cfg, rules, steps, end);
  }

  /** A committed drain uses up at least one of the remaining attempts per record of its batch. */
  lemma DrainSpendsAttempts(cfg: Config, rules: seq<Rule>, steps: seq<Step>, end: State, answer: seq<Result>,
                            sinkErr: Option<Text>, now: Time)
    requires Reached(cfg, rules, steps, end)
    requires Recognised(Verdicts(cfg, end.batch, answer, sinkErr, now))
    ensures
      var after := Draining(cfg, end, Verdicts(cfg, end.batch, answer, sinkErr, now)).boxes.records;
      && Bounded(end.boxes.records, cfg.maxRetries) && Bounded(after, cfg.maxRetries)
      && Weight(after, cfg.maxRetries) + |end.batch| <= Weight(end.boxes.records, cfg.maxRetries)
  {
    hide Reached, FlowsHold, EventsHold, RegistryHolds, Filed, Carries, Verdicts, Weight, Spend, Bounded, ResolvedAll,
      Resolution, DeliveredIds;
    ReachedHolds(cfg, rules, steps, end);
    var results := Verdicts(cfg, end.batch, answer, sinkErr, now);
    VerdictsSpend(cfg, end.boxes.records, end.batch, answer, sinkErr, now);
    ResolvedAllLowers(end.boxes, results, cfg.maxRetries);
    TrimOnlyDrops(end.boxes, results, cfg.maxDlq);
  }
}
