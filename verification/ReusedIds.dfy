/** Output IDs that are used twice: in every reachable state a step conserves events if and only if the
    ID it enqueues under is new, and one ingress batch can reuse an ID. */
module ReusedIds {
  import opened ByteText
  import opened PathLanguage
  import opened Rules
  import opened FlowModel
  import opened FlowAccounting
  import opened FlowDeadline
  import opened RuleNormalisation
  import Registry
  import opened DueFlows
  import opened Outbox
  import opened Ordering
  import opened Sums
  import opened Engine
  import opened EngineDelivery
  import opened EngineFlows
  import opened EngineEvents
  import opened EngineRuns

  // ---------- nothing is opened or finalized empty ----------

  /** Open flows and finalized documents hold at least one event. */
  predicate Substantial(flows: Flows, ledger: Ledger)
  {
    && (forall key :: key in flows ==> flows[key].events != [])
    && (forall id :: id in ledger ==> ledger[id].document.flow.events != [])
  }

  lemma DecisionHasEvents(s: State, rule: Rule, e: Event, key: FlowKey, now: Time)
    requires Substantial(s.flows, s.ledger)
    ensures
      var d := Decide(s, rule, e, key, now);
      d.flow.events != [] && Considered(d.flow, d.used, now).events != []
  {
    hide Applied, CloseReason, Considered, UsedRule, SlotOf, Identity;
    var f, d := Loaded(s, rule, e, key), Decide(s, rule, e, key, now);
    ApplyCounts(f, e, d.used, now);
    ConsideredMovesDeadline(d.flow, d.used, now);
  }

  lemma AcceptIsSubstantial(cfg: Config, s: State, t: nat, rule: Rule, e: Event, now: Time)
    requires Substantial(s.flows, s.ledger)
    ensures Substantial(Accepting(cfg, s, t, rule, e, now).flows, Accepting(cfg, s, t, rule, e, now).ledger)
  {
    hide Decide, Considered, KeyOfEvent, OwedAfter, OutputOf, Substantial;
    match KeyOfEvent(rule, e)
    case None =>
    case Some(key) =>
      DecisionHasEvents(s, rule, e, key, now);
      var d := Decide(s, rule, e, key, now);
      match d.reason
      case None => SavedIsSubstantial(s.flows, s.ledger, d.key, Considered(d.flow, d.used, now));
      case Some(reason) =>
        FinalIsSubstantial(s.flows, s.ledger, d.key, OutputOf(cfg, d.key, d.flow),
            TargetOf(cfg, d.flow, d.used, reason, now));
  }

  lemma SavedIsSubstantial(flows: Flows, ledger: Ledger, key: FlowKey, f: Flow)
    requires Substantial(flows, ledger) && f.events != []
    ensures Substantial(flows[key := f], ledger)
  {
  }

  lemma FinalIsSubstantial(flows: Flows, ledger: Ledger, key: FlowKey, id: OutputId, target: Target)
    requires Substantial(flows, ledger) && target.document.flow.events != []
    ensures Substantial(flows - {key}, ledger[id := target])
  {
  }

  lemma SweepIsSubstantial(cfg: Config, s: State, t: nat, key: FlowKey, now: Time)
    requires Substantial(s.flows, s.ledger) && key in s.flows
    ensures Substantial(SweepOne(cfg, s, t, key, now).flows, SweepOne(cfg, s, t, key, now).ledger)
  {
    hide OutputOf, UsedRule, OutcomeOf;
  }

  lemma StepIsSubstantial(cfg: Config, s: State, step: Step)
    requires Substantial(s.flows, s.ledger) && Enabled(cfg, s, step)
    ensures Substantial(Next(cfg, s, step).flows, Next(cfg, s, step).ledger)
  {
    hide Substantial, Carries, Truthful, AllReady, AllVersioned, Accepting, SweepOne, Draining, Rebooted;
    match step
    case Accept(t, now) => AcceptIsSubstantial(cfg, s, t, s.calls[t].rule, s.calls[t].event, now);
    case Sweep(t, key, now) => SweepIsSubstantial(cfg, s, t, key, now);
    case Drain(answer, sinkErr, now) => DrainTouchesBoxes(cfg, s, Verdicts(cfg, s.batch, answer, sinkErr, now));
    case Restart(rules) => RestartTouchesRegistry(s, rules);
    case _ =>
  }

  lemma RestartTouchesRegistry(s: State, rules: seq<Rule>)
    ensures Rebooted(s, rules).flows == s.flows && Rebooted(s, rules).ledger == s.ledger
    ensures Rebooted(s, rules).accepted == s.accepted
  {
    hide Booted, KnownHomes;
  }

  lemma {:induction false} RunIsSubstantial(cfg: Config, s: State, steps: seq<Step>, end: State)
    requires Substantial(s.flows, s.ledger) && Runs(cfg, s, steps, end)
    ensures Substantial(end.flows, end.ledger)
    decreases |steps|
  {
    hide Substantial, Enabled, FreshIds, Next;
    if steps != [] {
      StepIsSubstantial(cfg, s, steps[0]);
      RunIsSubstantial(cfg, Next(cfg, s, steps[0]), steps[1..], end);
    }
  }

  // ---------- a step conserves events exactly when its ID is new ----------

  lemma NewIffReusable(s: State, id: OutputId)
    requires Substantial(s.flows, s.ledger)
    ensures Reusable(s, id) <==> id !in s.ledger
  {
  }

  lemma DeliveryIsFiled(cfg: Config, s: State)
    requires DeliveryHolds(cfg, s)
    ensures Filed(s.boxes, s.released, s.evicted, s.ledger)
  {
    hide Filed, Carries, SentFit, SinkFits, Arrived;
  }

  lemma AcceptLosesUnlessFresh(cfg: Config, s: State, t: nat, rule: Rule, e: Event, now: Time)
    requires Collisionless(cfg) && FlowsHold(cfg, s) && Versioned(cfg, rule)
    requires EventsHold(s) && Filed(s.boxes, s.released, s.evicted, s.ledger) && Substantial(s.flows, s.ledger)
    requires !FreshAccept(cfg, s, rule, e, now)
    ensures !InOnePlace(Accepting(cfg, s, t, rule, e, now))
  {
    hide Collisionless, FlowsHold, Versioned, Decide, Loaded, EventsHold, Filed, InOnePlace, KeyOfEvent, OwedAfter,
      OutputOf, Substantial, Reusable;
    KeyIsOfRule(rule, e);
    var key := KeyOfEvent(rule, e).value;
    var f, d := Loaded(s, rule, e, key), Decide(s, rule, e, key, now);
    DecisionCounts(cfg, s, rule, e, key, now);
    LoadedEvents(s, rule, e, key);
    DecideFacts(s, rule, e, key, now);
    var gained := if d.duplicate then multiset{} else multiset{e};
    var id, target := OutputOf(cfg, key, d.flow), TargetOf(cfg, d.flow, d.used, d.reason.value, now);
    assert s.accepted + multiset{} == s.accepted;
    FinalizeConservesIff(s, Accepting(cfg, s, t, rule, e, now), key, f, id, target, now, gained);
    NewIffReusable(s, id);
  }

  lemma SweepLosesUnlessFresh(cfg: Config, s: State, t: nat, key: FlowKey, now: Time)
    requires EventsHold(s) && Filed(s.boxes, s.released, s.evicted, s.ledger) && Substantial(s.flows, s.ledger)
    requires key in s.flows && OutputOf(cfg, key, s.flows[key]) in s.ledger
    ensures !InOnePlace(SweepOne(cfg, s, t, key, now))
  {
    hide EventsHold, Filed, InOnePlace, OutputOf, UsedRule, OutcomeOf, Substantial, Reusable;
    var f := s.flows[key];
    var id := OutputOf(cfg, key, f);
    var target := TargetOf(cfg, f, UsedRule(s.registry, f), OutcomeOf(f, s.registry.versions, now), now);
    assert s.accepted + multiset{} == s.accepted;
    assert multiset(f.events) + multiset{} == multiset(f.events);
    FinalizeConservesIff(s, SweepOne(cfg, s, t, key, now), key, f, id, target, now, multiset{});
    NewIffReusable(s, id);
  }

  lemma StepLosesUnlessFresh(cfg: Config, s: State, step: Step)
    requires Collisionless(cfg) && FlowsHold(cfg, s) && EventsHold(s)
    requires Filed(s.boxes, s.released, s.evicted, s.ledger) && Substantial(s.flows, s.ledger)
    requires Enabled(cfg, s, step) && !FreshIds(cfg, s, step)
    ensures !InOnePlace(Next(cfg, s, step))
  {
    hide Collisionless, FlowsHold, EventsHold, Filed, InOnePlace, FreshAccept, OutputOf, Substantial, Carries, Truthful,
      AllReady, AllVersioned, Accepting, SweepOne, Draining, Rebooted;
    match step
    case Accept(t, now) =>
      CandidateIsVersioned(cfg, s, t);
      AcceptLosesUnlessFresh(cfg, s, t, s.calls[t].rule, s.calls[t].event, now);
    case Sweep(t, key, now) => SweepLosesUnlessFresh(cfg, s, t, key, now);
  }

  /** In every reachable state, a step leaves each accepted event in exactly one place if and only if no
      earlier document, wherever it is by now, has the output ID the step enqueues under. */
  lemma ConservesIffFresh(cfg: Config, rules: seq<Rule>, steps: seq<Step>, end: State, step: Step)
    requires Reached(cfg, rules, steps, end) && Enabled(cfg, end, step)
    ensures InOnePlace(Next(cfg, end, step)) <==> FreshIds(cfg, end, step)
  {
    hide DeliveryHolds, FlowsHold, EventsHold, InOnePlace, Filed, Collisionless, AllVersioned, Enabled,
      FreshIds, Next, Runs, Substantial;
    ReachedHolds(cfg, rules, steps, end);
    DeliveryIsFiled(cfg, end);
    if FreshIds(cfg, end, step) {
      StepKeeps(cfg, end, step);
      DeliveryIsFiled(cfg, Next(cfg, end, step));
      EventsAreInOnePlace(Next(cfg, end, step));
    } else {
      ReachedIsSubstantial(cfg, rules, steps, end);
      StepLosesUnlessFresh(cfg, end, step);
    }
  }

  lemma ReachedIsSubstantial(cfg: Config, rules: seq<Rule>, steps: seq<Step>, end: State)
    requires Reached(cfg, rules, steps, end)
    ensures Substantial(end.flows, end.ledger)
  {
    hide Collisionless, AllVersioned, Runs, Booted;
    RunIsSubstantial(cfg, Initial(rules), steps, end);
  }

  // ---------- one ingress batch, two flows, one ID ----------

  /** Both events belong to one key, end their flow, and carry the one time stamp of their batch. */
  predicate SameBatch(rule: Rule, e1: Event, e2: Event, key: FlowKey)
  {
    && rule.enabled && KeyOfEvent(rule, e1) == Some(key) && KeyOfEvent(rule, e2) == Some(key)
    && MarksTerminal(rule, e1.doc.body) && MarksTerminal(rule, e2.doc.body)
    && e1.observedAt == e2.observedAt
  }

  function BatchId(cfg: Config, key: FlowKey, e: Event): OutputId
  {
    cfg.idOf(key.ruleId, key.correlationKey, e.observedAt)
  }

  function FinalFlow(rule: Rule, e: Event, key: FlowKey, now: Time): Flow
  {
    Applied(Open(key, rule, e), e, rule, now)
  }

  function FinalTarget(cfg: Config, rule: Rule, e: Event, key: FlowKey, now: Time): Target
  {
    TargetOf(cfg, FinalFlow(rule, e, key, now), rule, TerminalEvent, now)
  }

  lemma FinalFlowHolds(rule: Rule, e: Event, key: FlowKey, now: Time)
    ensures FinalFlow(rule, e, key, now).events == [e] && !IsDuplicate(Open(key, rule, e), e, rule)
    ensures FinalFlow(rule, e, key, now).firstObservedAt == e.observedAt
  {
    hide Applied, SlotOf, Identity;
    var f := Open(key, rule, e);
    ApplyCounts(f, e, rule, now);
    ApplyLeavesDeadline(f, e, rule, now);
    assert [] + [e] == [e];
  }

  lemma TerminalLatches(f: Flow, e: Event, r: Rule, now: Time)
    requires MarksTerminal(r, e.doc.body)
    ensures Applied(f, e, r, now).terminalSeen
  {
    hide SlotOf, MarksTerminal, Over, Identity, Find, Occupied;
  }

  /** A terminal event without an open flow opens one and closes it in the same transaction. */
  lemma TerminalDecision(s: State, rule: Rule, e: Event, key: FlowKey, now: Time)
    requires key !in s.flows && MarksTerminal(rule, e.doc.body)
    ensures Decide(s, rule, e, key, now) ==
            Decision(key, FinalFlow(rule, e, key, now), rule, true, false, Some(TerminalEvent))
  {
    hide Applied, MarksTerminal, IsDuplicate, Open;
    TerminalLatches(Open(key, rule, e), e, rule, now);
    FinalFlowHolds(rule, e, key, now);
  }

  /** Begin then Accept of such an event. */
  function Handled(cfg: Config, s: State, t: nat, rule: Rule, e: Event, key: FlowKey, now: Time): State
  {
    var id, target := BatchId(cfg, key, e), FinalTarget(cfg, rule, e, key, now);
    s.(registry := Registry.Retained(s.registry, ReferenceOf(rule)),
       calls := s.calls[t := Owing([ReferenceOf(rule)])],
       accepted := s.accepted + multiset{e},
       boxes := s.boxes.(records := s.boxes.records[id := NewRecord(id, target.index, target.document, now)]),
       ledger := s.ledger[id := target])
  }

  lemma AcceptsTerminal(cfg: Config, s: State, t: nat, rule: Rule, e: Event, key: FlowKey, now: Time)
    requires s.flows == map[] && s.home == {} && KeyOfEvent(rule, e) == Some(key) && MarksTerminal(rule, e.doc.body)
    ensures
      var s1 := s.(registry := Registry.Retained(s.registry, ReferenceOf(rule)),
          calls := s.calls[t := Candidate(rule, e)]);
      && Accepting(cfg, s1, t, rule, e, now) == Handled(cfg, s, t, rule, e, key, now)
      && (FreshAccept(cfg, s1, rule, e, now) <==> BatchId(cfg, key, e) !in s.ledger)
  {
    hide Decide, KeyOfEvent, MarksTerminal, FinalFlow, Registry.Retained;
    var s1 := s.(registry := Registry.Retained(s.registry, ReferenceOf(rule)),
        calls := s.calls[t := Candidate(rule, e)]);
    TerminalDecision(s1, rule, e, key, now);
    FinalFlowHolds(rule, e, key, now);
    assert s1.calls[t := Owing([ReferenceOf(rule)])] == s.calls[t := Owing([ReferenceOf(rule)])];
    assert s1.flows - {key} == map[] && s1.home - {key} == {};
  }

  lemma OnlyRuleMatches(rule: Rule, e: Event, key: FlowKey)
    requires rule.enabled && KeyOfEvent(rule, e) == Some(key)
    ensures Registry.FirstMatch([rule], e.doc.body) == Some(rule)
  {
    hide Resolve;
  }

  lemma TwoSteps(cfg: Config, s: State, t: nat, rule: Rule, e: Event, key: FlowKey, now: Time)
    requires s.flows == map[] && s.home == {} && s.registry.current == [rule] && t !in s.calls && Representable(now)
    requires rule.enabled && KeyOfEvent(rule, e) == Some(key) && MarksTerminal(rule, e.doc.body)
    ensures
      && Enabled(cfg, s, Begin(t, e)) && FreshIds(cfg, s, Begin(t, e))
      && var s1 := Next(cfg, s, Begin(t, e));
      && Enabled(cfg, s1, Accept(t, now))
      && (FreshIds(cfg, s1, Accept(t, now)) <==> BatchId(cfg, key, e) !in s.ledger)
      && Next(cfg, s1, Accept(t, now)) == Handled(cfg, s, t, rule, e, key, now)
  {
    hide KeyOfEvent, MarksTerminal, Accepting, FreshAccept, Handled, Registry.Retained;
    OnlyRuleMatches(rule, e, key);
    AcceptsTerminal(cfg, s, t, rule, e, key, now);
    var s1 := Next(cfg, s, Begin(t, e));
    assert s1 == s.(registry := Registry.Retained(s.registry, ReferenceOf(rule)),
        calls := s.calls[t := Candidate(rule, e)]);
  }

  /** Where the events are after both calls: the second event's document waits, nothing else is anywhere. */
  predicate OnlySecondLeft(cfg: Config, s: State, rule: Rule, e1: Event, e2: Event, key: FlowKey, now: Time)
  {
    && s.accepted == multiset{e1} + multiset{e2}
    && s.flows == map[] && s.released == {} && s.evicted == {}
    && s.ledger == map[BatchId(cfg, key, e2) := FinalTarget(cfg, rule, e2, key, now)]
    && s.boxes == Boxes(map[BatchId(cfg, key, e2) := FinalRecord(cfg, rule, e2, key, now)], map[], 0)
  }

  function FinalRecord(cfg: Config, rule: Rule, e: Event, key: FlowKey, now: Time): Record
  {
    var target := FinalTarget(cfg, rule, e, key, now);
    NewRecord(BatchId(cfg, key, e), target.index, target.document, now)
  }

  /** The run: two events of one batch, each opening and closing a flow of the same key at its own clock
      reading. Every step is enabled and only the last one violates freshness; until then every event is in
      one place, and after it the first event, though accepted, is nowhere. */
  lemma SharedInstantLosesFlow(cfg: Config, rule: Rule, e1: Event, e2: Event, key: FlowKey, now: Time, later: Time)
    requires Versioned(cfg, rule) && SameBatch(rule, e1, e2, key) && Representable(now) && Representable(later)
    ensures
      var s0 := Initial([rule]);
      && Enabled(cfg, s0, Begin(0, e1)) && FreshIds(cfg, s0, Begin(0, e1))
      && var s1 := Next(cfg, s0, Begin(0, e1));
      && Enabled(cfg, s1, Accept(0, now)) && FreshIds(cfg, s1, Accept(0, now))
      && var s2 := Next(cfg, s1, Accept(0, now));
      && Enabled(cfg, s2, Begin(1, e2)) && FreshIds(cfg, s2, Begin(1, e2))
      && var s3 := Next(cfg, s2, Begin(1, e2));
      && Enabled(cfg, s3, Accept(1, later)) && !FreshIds(cfg, s3, Accept(1, later))
      && var s4 := Next(cfg, s3, Accept(1, later));
      && OnlySecondLeft(cfg, s4, rule, e1, e2, key, later)
      && InOnePlace(s2) && !InOnePlace(s4)
  {
    hide KeyOfEvent, MarksTerminal, Enabled, FreshIds, Next, Handled, FinalTarget, BatchId, Booted, InOnePlace,
      OnlySecondLeft, OnlyOneLeft;
    var s0 := Initial([rule]);
    BootsWith(rule);
    TwoSteps(cfg, s0, 0, rule, e1, key, now);
    var s2 := Handled(cfg, s0, 0, rule, e1, key, now);
    HandledKeeps(cfg, s0, 0, rule, e1, key, now);
    TwoSteps(cfg, s2, 1, rule, e2, key, later);
    SameId(cfg, rule, e1, e2, key);
    FirstIsAlone(cfg, s0, rule, e1, key, now);
    OneDocumentHolds(cfg, s2, rule, e1, key, now);
    SecondReplaces(cfg, s0, rule, e1, e2, key, now, later);
    var s4 := Handled(cfg, s2, 1, rule, e2, key, later);
    OneEventLeft(cfg, s4, rule, e1, e2, key, later);
  }

  /** One event was accepted and its document waits. */
  predicate OnlyOneLeft(cfg: Config, s: State, rule: Rule, e: Event, key: FlowKey, now: Time)
  {
    && s.accepted == multiset{e}
    && s.flows == map[] && s.released == {} && s.evicted == {}
    && s.ledger == map[BatchId(cfg, key, e) := FinalTarget(cfg, rule, e, key, now)]
    && s.boxes == Boxes(map[BatchId(cfg, key, e) := FinalRecord(cfg, rule, e, key, now)], map[], 0)
  }

  predicate Untouched(s: State)
  {
    && s.flows == map[] && s.boxes == Boxes(map[], map[], 0) && s.ledger == map[] && s.released == {} && s.evicted == {}
    && s.accepted == multiset{}
  }

  lemma FirstIsAlone(cfg: Config, s: State, rule: Rule, e: Event, key: FlowKey, now: Time)
    requires Untouched(s)
    ensures OnlyOneLeft(cfg, Handled(cfg, s, 0, rule, e, key, now), rule, e, key, now)
  {
    hide FinalTarget, BatchId, Registry.Retained;
  }

  lemma BootsWith(rule: Rule)
    ensures Booted([rule], map[]).current == [rule]
  {
    hide CountsOf;
  }

  lemma SameId(cfg: Config, rule: Rule, e1: Event, e2: Event, key: FlowKey)
    requires SameBatch(rule, e1, e2, key)
    ensures BatchId(cfg, key, e1) == BatchId(cfg, key, e2)
  {
    hide KeyOfEvent, MarksTerminal;
  }

  lemma HandledKeeps(cfg: Config, s: State, t: nat, rule: Rule, e: Event, key: FlowKey, now: Time)
    ensures
      var s' := Handled(cfg, s, t, rule, e, key, now);
      && s'.flows == s.flows && s'.home == s.home && s'.registry.current == s.registry.current
      && s'.calls.Keys == s.calls.Keys + {t}
      && s'.ledger == s.ledger[BatchId(cfg, key, e) := FinalTarget(cfg, rule, e, key, now)]
      && s'.accepted == s.accepted + multiset{e}
  {
    hide FinalTarget, BatchId;
  }

  lemma SecondReplaces(cfg: Config, s: State, rule: Rule, e1: Event, e2: Event, key: FlowKey, now: Time, later: Time)
    requires Untouched(s) && BatchId(cfg, key, e1) == BatchId(cfg, key, e2)
    ensures
      var s2 := Handled(cfg, s, 0, rule, e1, key, now);
      OnlySecondLeft(cfg, Handled(cfg, s2, 1, rule, e2, key, later), rule, e1, e2, key, later)
  {
    hide FinalTarget, BatchId, Registry.Retained;
  }

  lemma OneDocument(id: OutputId, target: Target)
    ensures EventsOf(map[id := target]) == multiset(target.document.flow.events)
  {
    hide Sum;
    var one: Ledger := map[];
    EventMapSet(one, id, target);
    SumInsert(EventMap(one), id, multiset(target.document.flow.events));
    assert EventMap(one) == map[];
    SumEmpty<OutputId, Event>();
    assert one[id := target] == map[id := target];
  }

  lemma NoFlowEvents()
    ensures FlowEvents(map[]) == multiset{}
  {
    assert FlowEventMap(map[]) == map[];
    SumEmpty<FlowKey, Event>();
  }

  lemma OneFiles(id: OutputId, target: Target, now: Time)
    ensures
      Filed(Boxes(map[id := NewRecord(id, target.index, target.document, now)], map[], 0), {}, {}, map[id := target])
  {
  }

  lemma OneDocumentHolds(cfg: Config, s: State, rule: Rule, e: Event, key: FlowKey, now: Time)
    requires OnlyOneLeft(cfg, s, rule, e, key, now)
    ensures InOnePlace(s)
  {
    hide EventsOf, FlowEvents, FinalFlow, Filed, InOnePlace;
    NoFlowEvents();
    OneDocument(BatchId(cfg, key, e), FinalTarget(cfg, rule, e, key, now));
    FinalFlowHolds(rule, e, key, now);
    assert multiset([e]) == multiset{e};
    OneFiles(BatchId(cfg, key, e), FinalTarget(cfg, rule, e, key, now), now);
    EventsAreInOnePlace(s);
  }

  lemma OneEventLeft(cfg: Config, s: State, rule: Rule, e1: Event, e2: Event, key: FlowKey, now: Time)
    requires OnlySecondLeft(cfg, s, rule, e1, e2, key, now)
    ensures !InOnePlace(s)
  {
    hide EventsOf, FlowEvents, FinalFlow, Filed, InOnePlace;
    NoFlowEvents();
    OneDocument(BatchId(cfg, key, e2), FinalTarget(cfg, rule, e2, key, now));
    FinalFlowHolds(rule, e2, key, now);
    OneFiles(BatchId(cfg, key, e2), FinalTarget(cfg, rule, e2, key, now), now);
    EventsAreInOnePlace(s);
    assert |s.accepted| == 2;
    assert |FlowEvents(s.flows) + EventsOf(s.ledger)| == 1;
  }

  // ---------- such a batch exists ----------

  const PLAIN := Rule("orders", "", true, [Key("type")], [Key("id")], [], 1, false, 0, ["done"], 0, 0, 0, "flows", [])

  /** The rule as loaded: its version is the digest of its normal form. */
  function LoadedRule(cfg: Config): Rule
  {
    PLAIN.(version := cfg.hash(Normalised(PLAIN)))
  }

  function Finished(note: Text): Json
  {
    Obj(map["type" := Str("done"), "id" := Str("k"), "note" := Str(note)])
  }

  lemma LoadedIsVersioned(cfg: Config)
    ensures Versioned(cfg, LoadedRule(cfg))
  {
    hide Sort;
    var rule := LoadedRule(cfg);
    assert Normalised(rule) == Normalised(PLAIN);
    assert rule.stitch == [] && ClaimsFrom(rule.stitch, 0) == [];
  }

  lemma FieldOf(note: Text, name: Text)
    requires name == "type" || name == "id"
    ensures Resolve([Key(name)], Finished(note)) == Some(if name == "type" then "done" else "k")
  {
    var body := Finished(note);
    var path := [Key(name)];
    assert path[1..] == [];
    assert Select(body.fields[name], []) == Some(body.fields[name]);
    assert Select(body, path) == Some(body.fields[name]);
  }

  /** For every configuration a valid rule and two different events that share a batch in this way. */
  lemma SuchBatchesExist(cfg: Config, at: Time, size: nat) returns (e1: Event, e2: Event)
    requires Representable(at)
    ensures e1 == Event(Document(Finished("a"), size), at) && e2 == Event(Document(Finished("b"), size), at)
    ensures Versioned(cfg, LoadedRule(cfg)) && SameBatch(LoadedRule(cfg), e1, e2, FlowKey("orders", "k")) && e1 != e2
  {
    hide Resolve, Versioned, IsTerminal;
    LoadedIsVersioned(cfg);
    FieldOf("a", "type");
    FieldOf("a", "id");
    FieldOf("b", "type");
    FieldOf("b", "id");
    e1, e2 := Event(Document(Finished("a"), size), at), Event(Document(Finished("b"), size), at);
    assert IsTerminal(LoadedRule(cfg), "done") by { DoneIsTerminal(cfg); }
    DifferentNotes();
  }

  lemma DoneIsTerminal(cfg: Config)
    ensures IsTerminal(LoadedRule(cfg), "done")
  {
    assert LoadedRule(cfg).terminalEvents[0] == "done";
  }

  lemma DifferentNotes()
    ensures Finished("a") != Finished("b")
  {
    assert Finished("a").fields["note"] == Str("a") && Finished("b").fields["note"] == Str("b");
    assert "a"[0] != "b"[0];
  }
}
