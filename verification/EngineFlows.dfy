/** The correlation half of a run: every stored flow is a sound aggregate of its opening rule
    version, and no accepted event is lost or kept twice. */
module EngineFlows {
  import opened ByteText
  import opened Rules
  import opened FlowModel
  import opened FlowAccounting
  import opened FlowDeadline
  import opened FlowEffects
  import opened RuleNormalisation
  import Registry
  import opened DueFlows
  import opened Outbox
  import opened DeadLetters
  import opened DeadLetterPaging
  import opened Engine

  /** The digest does not collide. */
  ghost predicate Collisionless(cfg: Config)
  {
    forall a, b :: cfg.hash(a) == cfg.hash(b) ==> a == b
  }

  /** A flow of this key, pinned to a loaded rule, with its books in order. */
  ghost predicate WellFormed(cfg: Config, key: FlowKey, f: Flow)
  {
    && f.key == key && ReferenceOf(f.pinnedRule) == PinnedBy(f) && Versioned(cfg, f.pinnedRule)
    && DeadlineAgrees(f, f.pinnedRule) && Balanced(f) && Positioned(f) && Latched(f, f.pinnedRule)
    && (SeparateStitches(f.pinnedRule) ==> AllExact(f, f.pinnedRule))
  }

  ghost predicate AllStored(cfg: Config, flows: Flows)
  {
    forall key :: key in flows ==> WellFormed(cfg, key, flows[key]) && Saved(flows[key], flows[key].pinnedRule)
  }

  predicate VersionsHold(cfg: Config, g: Registry.Registry)
  {
    && AllVersioned(cfg, g.current)
    && (forall ref :: ref in g.versions ==> ReferenceOf(g.versions[ref]) == ref && Versioned(cfg, g.versions[ref]))
  }

  predicate CandidatesHold(cfg: Config, calls: map<nat, Call>)
  {
    forall t :: t in calls && calls[t].Candidate? ==> Versioned(cfg, calls[t].rule)
  }

  ghost predicate FlowsHold(cfg: Config, s: State)
  {
    AllStored(cfg, s.flows) && VersionsHold(cfg, s.registry) && CandidatesHold(cfg, s.calls)
  }

  // ---------- a flow is handled under its opening version ----------

  lemma SameVersionSameCorrelation(cfg: Config, a: Rule, b: Rule)
    requires Collisionless(cfg) && Versioned(cfg, a) && Versioned(cfg, b) && ReferenceOf(a) == ReferenceOf(b)
    ensures SameCorrelation(a, b)
  {
    hide Normalised, ValidRule, SameCorrelation;
    SameNormalFormSameCorrelation(a, b);
  }

  lemma LoadedIsWellFormed(cfg: Config, s: State, rule: Rule, e: Event, key: FlowKey)
    requires AllStored(cfg, s.flows) && Versioned(cfg, rule) && key.ruleId == rule.id
    ensures WellFormed(cfg, key, Loaded(s, rule, e, key))
  {
    hide Versioned, Balanced, Positioned;
    if key !in s.flows {
      OpenIsAccounted(key, rule, e);
      OpenIsLatched(key, rule, e);
    }
  }

  /** Whatever the registry holds by now, Apply and ShouldClose do what the opening version says. */
  predicate DecidedUnder(f: Flow, e: Event, r: Rule, now: Time, d: Decision)
  {
    && d.flow == Applied(f, e, r, now) && d.duplicate == IsDuplicate(f, e, r)
    && d.reason == CloseReason(d.flow, r, now) && Considered(d.flow, d.used, now) == Considered(d.flow, r, now)
  }

  lemma UsedRuleIsVersioned(cfg: Config, g: Registry.Registry, key: FlowKey, f: Flow)
    requires VersionsHold(cfg, g) && WellFormed(cfg, key, f)
    ensures Versioned(cfg, UsedRule(g, f)) && ReferenceOf(UsedRule(g, f)) == ReferenceOf(f.pinnedRule)
  {
    hide Versioned, Balanced, Positioned;
  }

  lemma HandledUnderOpeningVersion(cfg: Config, s: State, rule: Rule, e: Event, key: FlowKey, now: Time)
    requires Collisionless(cfg) && FlowsHold(cfg, s) && Versioned(cfg, rule) && key.ruleId == rule.id
    ensures
      var f := Loaded(s, rule, e, key);
      DecidedUnder(f, e, f.pinnedRule, now, Decide(s, rule, e, key, now))
  {
    hide Versioned, VersionsHold, CandidatesHold, Collisionless, WellFormed, UsedRule, SameCorrelation, ValidRule,
      Applied, IsDuplicate, CloseReason, Considered;
    if key in s.flows {
      var f := s.flows[key];
      assert WellFormed(cfg, key, f);
      UsedRuleIsVersioned(cfg, s.registry, key, f);
      PinIsVersioned(cfg, key, f);
      var used := UsedRule(s.registry, f);
      SameVersionSameCorrelation(cfg, used, f.pinnedRule);
      VersionedIsValid(cfg, used);
      VersionedIsValid(cfg, f.pinnedRule);
      SameApply(used, f.pinnedRule, f, e, now);
      SameClose(used, f.pinnedRule, Applied(f, e, used, now), now);
    }
  }

  lemma PinIsVersioned(cfg: Config, key: FlowKey, f: Flow)
    requires WellFormed(cfg, key, f)
    ensures Versioned(cfg, f.pinnedRule)
  {
    hide Versioned;
  }

  lemma VersionedIsValid(cfg: Config, r: Rule)
    requires Versioned(cfg, r)
    ensures ValidRule(r)
  {
    hide ValidRule;
  }

  // ---------- aggregates stay sound ----------

  lemma ConsideredKeepsForm(cfg: Config, key: FlowKey, f: Flow, r: Rule, now: Time)
    requires WellFormed(cfg, key, f) && r == f.pinnedRule && DeadlineAgrees(Considered(f, r, now), r)
    ensures WellFormed(cfg, key, Considered(f, r, now))
    ensures Considered(f, r, now).events == f.events && Considered(f, r, now).pinnedRule == r
  {
    hide Versioned, Considered, AllExact, DeadlineAgrees, Balanced, Positioned, Latched;
    ConsideredMovesDeadline(f, r, now);
    SameBooks(f, Considered(f, r, now));
  }

  /** The aggregates differ in schedule only. */
  predicate SameContents(f: Flow, g: Flow)
  {
    && g.key == f.key && g.ruleVersion == f.ruleVersion && g.pinnedRule == f.pinnedRule
    && g.events == f.events && g.invocations == f.invocations && g.plain == f.plain && g.nextOrder == f.nextOrder
    && g.duplicates == f.duplicates && g.bytes == f.bytes && g.duplicateCount == f.duplicateCount
    && g.limitExceeded == f.limitExceeded
  }

  lemma ConsideredMovesDeadline(f: Flow, r: Rule, now: Time)
    ensures SameContents(f, Considered(f, r, now))
  {
    hide CloseCondition, AtLimit;
  }

  lemma SameBooks(f: Flow, g: Flow)
    requires SameContents(f, g)
    ensures Balanced(f) ==> Balanced(g)
    ensures Positioned(f) ==> Positioned(g)
    ensures AllExact(f, f.pinnedRule) ==> AllExact(g, f.pinnedRule)
    ensures Latched(f, f.pinnedRule) ==> Latched(g, f.pinnedRule)
  {
    hide Exact;
  }

  lemma AppliedKeepsForm(cfg: Config, key: FlowKey, f: Flow, e: Event, now: Time)
    requires WellFormed(cfg, key, f)
    ensures WellFormed(cfg, key, Applied(f, e, f.pinnedRule, now))
    ensures Applied(f, e, f.pinnedRule, now).pinnedRule == f.pinnedRule
  {
    hide Versioned, Applied, Balanced, Positioned, AllExact, Latched;
    ApplyLeavesDeadline(f, e, f.pinnedRule, now);
    ApplyKeepsBooks(f, e, f.pinnedRule, now);
    ApplyKeepsLatch(f, e, f.pinnedRule, now);
    if SeparateStitches(f.pinnedRule) {
      ApplyKeepsExact(f, e, f.pinnedRule, now);
    }
  }

  lemma AcceptedIsStored(cfg: Config, key: FlowKey, f: Flow, e: Event, now: Time)
    requires WellFormed(cfg, key, f) && Representable(now)
    ensures
      var g := Accepted(f, e, f.pinnedRule, now);
      && g.pinnedRule == f.pinnedRule && g.events == Applied(f, e, f.pinnedRule, now).events
      && (Verdict(f, e, f.pinnedRule, now) == None ==> WellFormed(cfg, key, g) && Saved(g, g.pinnedRule))
  {
    hide WellFormed, Applied, Considered, Saved, DeadlineAgrees, CloseReason;
    AppliedKeepsForm(cfg, key, f, e, now);
    FormAgrees(cfg, key, f);
    AcceptSaves(f, e, f.pinnedRule, now);
    ConsideredKeepsForm(cfg, key, Applied(f, e, f.pinnedRule, now), f.pinnedRule, now);
  }

  lemma FormAgrees(cfg: Config, key: FlowKey, f: Flow)
    requires WellFormed(cfg, key, f)
    ensures DeadlineAgrees(f, f.pinnedRule) && PinnedBy(f) == ReferenceOf(f.pinnedRule) && f.key == key
  {
    hide DeadlineAgrees;
  }

  /** What a committed Accept leaves in the store is sound. */
  lemma CommitStores(cfg: Config, s: State, rule: Rule, e: Event, key: FlowKey, now: Time)
    requires Collisionless(cfg) && FlowsHold(cfg, s) && Versioned(cfg, rule) && key.ruleId == rule.id
    requires Representable(now)
    ensures
      var d := Decide(s, rule, e, key, now);
      var g := Considered(d.flow, d.used, now);
      d.reason.None? ==> WellFormed(cfg, key, g) && Saved(g, g.pinnedRule) && g.events == d.flow.events
  {
    hide FlowsHold, Decide, WellFormed, Saved, Applied, Considered, CloseReason, IsDuplicate, Versioned, Collisionless,
      Loaded;
    HandledUnderOpeningVersion(cfg, s, rule, e, key, now);
    StoredPart(cfg, s);
    LoadedIsWellFormed(cfg, s, rule, e, key);
    AcceptedIsStored(cfg, key, Loaded(s, rule, e, key), e, now);
  }

  lemma StoredPart(cfg: Config, s: State)
    requires FlowsHold(cfg, s)
    ensures AllStored(cfg, s.flows) && VersionsHold(cfg, s.registry) && CandidatesHold(cfg, s.calls)
  {
    hide AllStored, VersionsHold, CandidatesHold;
  }

  // ---------- every step ----------

  lemma KeyIsOfRule(rule: Rule, e: Event)
    ensures KeyOfEvent(rule, e).Some? ==> KeyOfEvent(rule, e).value.ruleId == rule.id
  {
  }

  lemma AcceptKeepsFlows(cfg: Config, s: State, t: nat, rule: Rule, e: Event, now: Time)
    requires Collisionless(cfg) && FlowsHold(cfg, s) && Versioned(cfg, rule) && Representable(now)
    ensures FlowsHold(cfg, Accepting(cfg, s, t, rule, e, now))
  {
    hide Decide, WellFormed, Saved, Considered, VersionsHold, Collisionless, OwedAfter, KeyOfEvent, Versioned, TargetOf,
      OutputOf;
    KeyIsOfRule(rule, e);
    var key := KeyOfEvent(rule, e);
    if key.Some? {
      CommitStores(cfg, s, rule, e, key.value, now);
      DecideFacts(s, rule, e, key.value, now);
    }
  }

  lemma DecideFacts(s: State, rule: Rule, e: Event, key: FlowKey, now: Time)
    ensures
      var d := Decide(s, rule, e, key, now);
      && d.key == key && d.isNew == (key !in s.flows)
      && d.used == if key in s.flows then UsedRule(s.registry, s.flows[key]) else rule
  {
    hide Applied, IsDuplicate, CloseReason, UsedRule;
  }

  lemma BeginKeepsFlows(cfg: Config, s: State, t: nat, e: Event)
    requires FlowsHold(cfg, s)
    ensures FlowsHold(cfg, Begun(s, t, e))
  {
    hide AllStored, Versioned, Registry.Matches;
    var r := Registry.FirstMatch(s.registry.current, e.doc.body);
    if r.Some? {
      var i :| 0 <= i < |s.registry.current| && s.registry.current[i] == r.value;
    }
  }

  lemma PublishKeepsVersions(cfg: Config, g: Registry.Registry, rules: seq<Rule>)
    requires VersionsHold(cfg, g) && AllVersioned(cfg, rules)
    ensures VersionsHold(cfg, Registry.Published(g, rules))
  {
    hide Versioned, Registry.IsCurrent, Registry.VersionsOf;
    var g' := Registry.Published(g, rules);
    forall ref | ref in g'.versions ensures ReferenceOf(g'.versions[ref]) == ref && Versioned(cfg, g'.versions[ref]) {
      if ref in Registry.VersionsOf(rules) {
        var r := g'.versions[ref];
        assert r in rules;
        var i :| 0 <= i < |rules| && rules[i] == r;
      }
    }
  }

  lemma BootedHolds(cfg: Config, rules: seq<Rule>, flows: Flows)
    requires AllVersioned(cfg, rules)
    ensures VersionsHold(cfg, Booted(rules, flows))
  {
    hide AllVersioned, Versioned, CountsOf, Registry.Published;
    var none := Registry.Registry([], map[], map[]);
    assert VersionsHold(cfg, none) by { EmptyRegistryHolds(cfg); }
    PublishKeepsVersions(cfg, none, rules);
  }

  lemma EmptyRegistryHolds(cfg: Config)
    ensures VersionsHold(cfg, Registry.Registry([], map[], map[]))
  {
  }

  lemma CloseKeepsFlows(cfg: Config, s: State, s': State, key: FlowKey)
    requires FlowsHold(cfg, s) && s'.flows == s.flows - {key} && s'.registry == s.registry
    requires CandidatesHold(cfg, s'.calls)
    ensures FlowsHold(cfg, s')
  {
    hide WellFormed, Saved, VersionsHold, CandidatesHold;
  }

  lemma SweepKeepsFlows(cfg: Config, s: State, t: nat, key: FlowKey, now: Time)
    requires FlowsHold(cfg, s) && key in s.flows
    ensures FlowsHold(cfg, SweepOne(cfg, s, t, key, now))
  {
    hide AllStored, VersionsHold, TargetOf, OutputOf, UsedRule, OutcomeOf;
    CloseKeepsFlows(cfg, s, SweepOne(cfg, s, t, key, now), key);
  }

  lemma ReleaseKeepsFlows(cfg: Config, s: State, t: nat, refs: seq<Reference>)
    requires FlowsHold(cfg, s)
    ensures FlowsHold(cfg, ReleaseNext(s, t, refs))
  {
    hide AllStored, AllVersioned, Versioned, Registry.IsCurrent;
  }

  /** Flows, registry and calls may only have lost calls. */
  lemma SameCorrelationSide(cfg: Config, s: State, s': State)
    requires FlowsHold(cfg, s) && s'.flows == s.flows && VersionsHold(cfg, s'.registry) && CandidatesHold(cfg, s'.calls)
    ensures FlowsHold(cfg, s')
  {
    hide AllStored, VersionsHold, CandidatesHold;
  }

  lemma RestartKeepsFlows(cfg: Config, s: State, rules: seq<Rule>)
    requires FlowsHold(cfg, s) && AllVersioned(cfg, rules)
    ensures FlowsHold(cfg, Rebooted(s, rules))
  {
    hide FlowsHold, VersionsHold, AllVersioned, Booted, KnownHomes;
    BootedHolds(cfg, rules, s.flows);
    SameCorrelationSide(cfg, s, Rebooted(s, rules));
  }

  lemma StepKeepsFlows(cfg: Config, s: State, step: Step)
    requires Collisionless(cfg) && FlowsHold(cfg, s) && Enabled(cfg, s, step)
    ensures FlowsHold(cfg, Next(cfg, s, step))
  {
    hide Collisionless, FlowsHold, VersionsHold, Versioned, Carries, Truthful, AllReady, AllVersioned, AllStored, Begun,
      Accepting, ReleaseNext, SweepOne, Draining, Replayed, ReplayIds, Rebooted, Registry.Published;
    StoredPart(cfg, s);
    match step
    case Begin(t, e) => BeginKeepsFlows(cfg, s, t, e);
    case Accept(t, now) => AcceptKeepsFlows(cfg, s, t, s.calls[t].rule, s.calls[t].event, now);
    case Release(t) => ReleaseKeepsFlows(cfg, s, t, s.calls[t].refs);
    case Sweep(t, key, now) => SweepKeepsFlows(cfg, s, t, key, now);
    case Publish(rules) =>
      PublishKeepsVersions(cfg, s.registry, rules);
      SameCorrelationSide(cfg, s, Next(cfg, s, step));
    case Restart(rules) =>
      RestartKeepsFlows(cfg, s, rules);
    case Drain(answer, sinkErr, now) =>
      DrainTouchesBoxes(cfg, s, Verdicts(cfg, s.batch, answer, sinkErr, now));
      SameCorrelationSide(cfg, s, Next(cfg, s, step));
    case _ => SameCorrelationSide(cfg, s, Next(cfg, s, step));
  }

  lemma DrainTouchesBoxes(cfg: Config, s: State, results: seq<Result>)
    ensures
      var s' := Draining(cfg, s, results);
      && s'.flows == s.flows && s'.registry == s.registry && s'.calls == s.calls && s'.home == s.home
      && s'.ledger == s.ledger && s'.accepted == s.accepted
  {
    hide Resolution, ResolvedAll, DeliveredIds, Recognised;
  }
}
