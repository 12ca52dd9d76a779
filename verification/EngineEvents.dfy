/** Conservation of events: where every accepted event is, and what a reused output ID would lose. */
module EngineEvents {
  import opened Rules
  import opened FlowModel
  import opened FlowAccounting
  import opened FlowDeadline
  import opened DueFlows
  import opened Outbox
  import opened DeadLetterPaging
  import opened Sums
  import opened Engine
  import opened EngineDelivery
  import opened EngineFlows

  ghost function FlowEventMap(flows: Flows): map<FlowKey, multiset<Event>>
  {
    map key | key in flows :: multiset(flows[key].events)
  }

  ghost function FlowEvents(flows: Flows): multiset<Event>
  {
    Sum(FlowEventMap(flows))
  }

  function TargetsIn(m: map<OutputId, Record>): Ledger
  {
    map id | id in m :: Target(m[id].index, m[id].document)
  }

  ghost function EventMap(targets: Ledger): map<OutputId, multiset<Event>>
  {
    map id | id in targets :: multiset(targets[id].document.flow.events)
  }

  /** The events inside a set of finalized documents. */
  ghost function EventsOf(targets: Ledger): multiset<Event>
  {
    Sum(EventMap(targets))
  }

  ghost predicate EventsHold(s: State)
  {
    s.accepted == FlowEvents(s.flows) + EventsOf(s.ledger)
  }

  // ---------- how the sums move ----------

  lemma FlowEventsSet(flows: Flows, key: FlowKey, g: Flow, before: Flow)
    requires if key in flows then before == flows[key] else before.events == []
    ensures FlowEvents(flows[key := g]) + multiset(before.events) == FlowEvents(flows) + multiset(g.events)
  {
    hide Sum, FlowEventMap;
    FlowEventMapSet(flows, key, g);
    SumSwap(FlowEventMap(flows), key, multiset(g.events));
  }

  lemma FlowEventMapSet(flows: Flows, key: FlowKey, g: Flow)
    ensures FlowEventMap(flows[key := g]) == FlowEventMap(flows)[key := multiset(g.events)]
    ensures key in FlowEventMap(flows) <==> key in flows
    ensures key in flows ==> FlowEventMap(flows)[key] == multiset(flows[key].events)
  {
  }

  lemma FlowEventsDrop(flows: Flows, key: FlowKey, before: Flow)
    requires if key in flows then before == flows[key] else before.events == []
    ensures FlowEvents(flows - {key}) + multiset(before.events) == FlowEvents(flows)
  {
    hide Sum;
    var m := FlowEventMap(flows);
    assert FlowEventMap(flows - {key}) == m - {key};
    if key in flows {
      SumRemove(m, key);
    } else {
      assert flows - {key} == flows;
    }
  }

  lemma EventsJoin(a: Ledger, b: Ledger)
    requires a.Keys !! b.Keys
    ensures EventsOf(a + b) == EventsOf(a) + EventsOf(b)
  {
    hide Sum;
    assert EventMap(a + b) == EventMap(a) + EventMap(b);
    SumDisjoint(EventMap(a), EventMap(b));
  }

  // ---------- each step conserves events ----------

  /** The flow now holds one event more, unless the event was a duplicate. */
  lemma DecisionCounts(cfg: Config, s: State, rule: Rule, e: Event, key: FlowKey, now: Time)
    requires Collisionless(cfg) && FlowsHold(cfg, s) && Versioned(cfg, rule) && key.ruleId == rule.id
    ensures
      var f, d := Loaded(s, rule, e, key), Decide(s, rule, e, key, now);
      multiset(d.flow.events) == multiset(f.events) + if d.duplicate then multiset{} else multiset{e}
  {
    hide FlowsHold, Decide, Loaded, Versioned, Collisionless, Applied, IsDuplicate, CloseReason, Considered;
    HandledUnderOpeningVersion(cfg, s, rule, e, key, now);
    var f := Loaded(s, rule, e, key);
    ApplyCounts(f, e, f.pinnedRule, now);
  }

  lemma LoadedEvents(s: State, rule: Rule, e: Event, key: FlowKey)
    ensures if key in s.flows then Loaded(s, rule, e, key) == s.flows[key] else Loaded(s, rule, e, key).events == []
  {
  }

  lemma SaveConserves(s: State, key: FlowKey, before: Flow, g: Flow, gained: multiset<Event>)
    requires EventsHold(s)
    requires if key in s.flows then before == s.flows[key] else before.events == []
    requires multiset(g.events) == multiset(before.events) + gained
    ensures s.accepted + gained == FlowEvents(s.flows[key := g]) + EventsOf(s.ledger)
  {
    hide FlowEvents, EventsOf;
    FlowEventsSet(s.flows, key, g, before);
    var after := FlowEvents(s.flows[key := g]);
    assert after + multiset(before.events) == (FlowEvents(s.flows) + gained) + multiset(before.events);
    Cancel(after, FlowEvents(s.flows) + gained, multiset(before.events));
  }

  lemma CloseConserves(s: State, key: FlowKey, before: Flow, id: OutputId, target: Target, gained: multiset<Event>)
    requires EventsHold(s) && id !in s.ledger
    requires if key in s.flows then before == s.flows[key] else before.events == []
    requires multiset(target.document.flow.events) == multiset(before.events) + gained
    ensures s.accepted + gained == FlowEvents(s.flows - {key}) + EventsOf(s.ledger[id := target])
  {
    hide FlowEvents, EventsOf;
    CloseConservesIff(s, key, before, id, target, gained);
  }

  lemma AcceptConserves(cfg: Config, s: State, t: nat, rule: Rule, e: Event, now: Time)
    requires Collisionless(cfg) && FlowsHold(cfg, s) && Versioned(cfg, rule) && Representable(now)
    requires EventsHold(s) && FreshAccept(cfg, s, rule, e, now)
    ensures EventsHold(Accepting(cfg, s, t, rule, e, now))
  {
    hide Collisionless, FlowsHold, Versioned, Decide, Loaded, FlowEvents, EventsOf, Considered, KeyOfEvent, OwedAfter,
      OutputOf;
    KeyIsOfRule(rule, e);
    match KeyOfEvent(rule, e)
    case None =>
    case Some(key) =>
      var f, d := Loaded(s, rule, e, key), Decide(s, rule, e, key, now);
      DecisionCounts(cfg, s, rule, e, key, now);
      LoadedEvents(s, rule, e, key);
      DecideFacts(s, rule, e, key, now);
      var gained := if d.duplicate then multiset{} else multiset{e};
      match d.reason
      case None =>
        CommitStores(cfg, s, rule, e, key, now);
        SaveConserves(s, key, f, Considered(d.flow, d.used, now), gained);
      case Some(reason) =>
        CloseConserves(s, key, f, OutputOf(cfg, key, d.flow), TargetOf(cfg, d.flow, d.used, reason, now), gained);
  }

  lemma SweepConserves(cfg: Config, s: State, t: nat, key: FlowKey, now: Time)
    requires EventsHold(s) && key in s.flows && OutputOf(cfg, key, s.flows[key]) !in s.ledger
    ensures EventsHold(SweepOne(cfg, s, t, key, now))
  {
    hide FlowEvents, EventsOf, OutputOf, UsedRule, OutcomeOf;
    var f := s.flows[key];
    CloseConserves(s, key, f, OutputOf(cfg, key, f),
      TargetOf(cfg, f, UsedRule(s.registry, f), OutcomeOf(f, s.registry.versions, now), now), multiset{});
  }

  lemma CandidateIsVersioned(cfg: Config, s: State, t: nat)
    requires FlowsHold(cfg, s) && t in s.calls && s.calls[t].Candidate?
    ensures Versioned(cfg, s.calls[t].rule)
  {
    hide Versioned, AllStored, VersionsHold;
  }

  lemma StepConserves(cfg: Config, s: State, step: Step)
    requires Collisionless(cfg) && FlowsHold(cfg, s) && EventsHold(s)
    requires Enabled(cfg, s, step) && FreshIds(cfg, s, step)
    ensures EventsHold(Next(cfg, s, step))
  {
    hide Collisionless, FlowsHold, FlowEvents, EventsOf, FreshAccept, OutputOf, Carries, Truthful, AllReady,
      AllVersioned, Accepting, SweepOne, Draining, Replayed, ReplayIds, Booted, KnownHomes;
    match step
    case Accept(t, now) =>
      CandidateIsVersioned(cfg, s, t);
      AcceptConserves(cfg, s, t, s.calls[t].rule, s.calls[t].event, now);
    case Sweep(t, key, now) => SweepConserves(cfg, s, t, key, now);
    case Drain(answer, sinkErr, now) => DrainTouchesBoxes(cfg, s, Verdicts(cfg, s.batch, answer, sinkErr, now));
    case _ =>
  }

  lemma InitialEvents(rules: seq<Rule>)
    ensures EventsHold(Initial(rules))
  {
    hide Booted;
    assert FlowEventMap(map[]) == map[] && EventMap(map[]) == map[];
  }

  // ---------- the five places ----------

  /** The ledger, read off the outbox, the dead letters and the two histories. */
  lemma LedgerSplits(b: Boxes, released: set<OutputId>, evicted: set<OutputId>, ledger: Ledger)
    requires Filed(b, released, evicted, ledger)
    ensures ledger == TargetsIn(b.records) + TargetsIn(b.dead) + Restrict(ledger, released) + Restrict(ledger, evicted)
    ensures
      var kept, gone := Restrict(ledger, released), Restrict(ledger, evicted);
      TargetsIn(b.records).Keys !! TargetsIn(b.dead).Keys !! kept.Keys !! gone.Keys
  {
    hide TargetsIn, Restrict;
    TargetsFit(b.records, ledger);
    TargetsFit(b.dead, ledger);
    RestrictKeys(ledger, released);
    RestrictKeys(ledger, evicted);
    var a, c := TargetsIn(b.records), TargetsIn(b.dead);
    var d, e := Restrict(ledger, released), Restrict(ledger, evicted);
    assert (a + c + d + e).Keys == ledger.Keys;
  }

  lemma TargetsFit(m: map<OutputId, Record>, ledger: Ledger)
    requires AllFit(m, ledger)
    ensures TargetsIn(m).Keys == m.Keys
    ensures forall id :: id in TargetsIn(m) ==> id in ledger && TargetsIn(m)[id] == ledger[id]
  {
  }

  lemma RestrictKeys(ledger: Ledger, ids: set<OutputId>)
    requires ids <= ledger.Keys
    ensures Restrict(ledger, ids).Keys == ids
    ensures forall id :: id in Restrict(ledger, ids) ==> Restrict(ledger, ids)[id] == ledger[id]
  {
  }

  /** Each accepted, non-duplicate event is in exactly one of: an open flow, an outbox record, a dead
      letter, a document released as delivered, an evicted document. */
  ghost predicate Conserved(s: State)
  {
    s.accepted == FlowEvents(s.flows) + EventsOf(TargetsIn(s.boxes.records)) + EventsOf(TargetsIn(s.boxes.dead))
                  + EventsOf(Restrict(s.ledger, s.released)) + EventsOf(Restrict(s.ledger, s.evicted))
  }

  predicate Apart(s: State)
  {
    s.boxes.records.Keys !! s.boxes.dead.Keys !! s.released !! s.evicted
  }

  /** Nothing is lost and nothing is in two places. */
  ghost predicate InOnePlace(s: State)
  {
    Conserved(s) && Apart(s)
  }

  lemma EventsAreInOnePlace(s: State)
    requires Filed(s.boxes, s.released, s.evicted, s.ledger)
    ensures InOnePlace(s) <==> EventsHold(s)
  {
    assert Apart(s);
    ConservedIsLedger(s);
  }

  lemma ConservedIsLedger(s: State)
    requires Filed(s.boxes, s.released, s.evicted, s.ledger)
    ensures Conserved(s) <==> EventsHold(s)
  {
    hide Filed, EventsOf, FlowEvents, TargetsIn, Restrict;
    LedgerSplits(s.boxes, s.released, s.evicted, s.ledger);
    var a, b := TargetsIn(s.boxes.records), TargetsIn(s.boxes.dead);
    var c, d := Restrict(s.ledger, s.released), Restrict(s.ledger, s.evicted);
    EventsJoin(a, b);
    EventsJoin(a + b, c);
    EventsJoin(a + b + c, d);
    var flows, i, j, k, l := FlowEvents(s.flows), EventsOf(a), EventsOf(b), EventsOf(c), EventsOf(d);
    assert flows + i + j + k + l == flows + (i + j + k + l);
  }

  // ---------- a reused output ID ----------

  /** The events of the document an ID already stands for, wherever that document is by now. */
  ghost function Replaced(ledger: Ledger, id: OutputId): multiset<Event>
  {
    if id in ledger then multiset(ledger[id].document.flow.events) else multiset{}
  }

  lemma LedgerReplaces(ledger: Ledger, id: OutputId, target: Target)
    ensures EventsOf(ledger[id := target]) + Replaced(ledger, id) ==
            EventsOf(ledger) + multiset(target.document.flow.events)
  {
    hide Sum, EventMap, Replaced;
    EventMapSet(ledger, id, target);
    SumSwap(EventMap(ledger), id, multiset(target.document.flow.events));
    ReplacedIs(ledger, id);
  }

  lemma ReplacedIs(ledger: Ledger, id: OutputId)
    ensures Replaced(ledger, id) == if id in EventMap(ledger) then EventMap(ledger)[id] else multiset{}
  {
  }

  predicate Costless(ledger: Ledger, id: OutputId)
  {
    id in ledger ==> ledger[id].document.flow.events == []
  }

  lemma CostlessIs(ledger: Ledger, id: OutputId)
    ensures Costless(ledger, id) <==> Replaced(ledger, id) == multiset{}
  {
    if id in ledger {
      var events := ledger[id].document.flow.events;
      assert |multiset(events)| == |events|;
    }
  }

  lemma NothingLostIff<E>(whole: multiset<E>, rest: multiset<E>, lost: multiset<E>)
    requires rest + lost == whole
    ensures rest == whole <==> lost == multiset{}
  {
    if rest == whole {
      assert |rest + lost| == |rest| + |lost|;
    }
  }

  /** Accepted events stay accounted for by open flows and the ledger exactly when the output ID stands
      for no document that holds any. */
  lemma CloseConservesIff(s: State, key: FlowKey, before: Flow, id: OutputId, target: Target, gained: multiset<Event>)
    requires EventsHold(s)
    requires if key in s.flows then before == s.flows[key] else before.events == []
    requires multiset(target.document.flow.events) == multiset(before.events) + gained
    ensures s.accepted + gained == FlowEvents(s.flows - {key}) + EventsOf(s.ledger[id := target]) <==>
            Costless(s.ledger, id)
  {
    hide FlowEvents, EventsOf, Replaced, Costless;
    FlowEventsDrop(s.flows, key, before);
    LedgerReplaces(s.ledger, id, target);
    CostlessIs(s.ledger, id);
    var rest, filed, lost := FlowEvents(s.flows - {key}), EventsOf(s.ledger[id := target]), Replaced(s.ledger, id);
    assert rest + multiset(before.events) == FlowEvents(s.flows);
    assert filed + lost == EventsOf(s.ledger) + (multiset(before.events) + gained);
    assert (rest + filed) + lost == rest + (filed + lost);
    assert rest + (EventsOf(s.ledger) + (multiset(before.events) + gained))
        == (rest + multiset(before.events)) + EventsOf(s.ledger) + gained;
    NothingLostIff(s.accepted + gained, rest + filed, lost);
  }

  /** `s'` is `s` with one flow finalized, and `gained` accepted on the way. */
  predicate Finalizes(s: State, s': State, key: FlowKey, id: OutputId, target: Target, now: Time,
                      gained: multiset<Event>)
  {
    var records := s.boxes.records[id := NewRecord(id, target.index, target.document, now)];
    && s'.flows == s.flows - {key} && s'.ledger == s.ledger[id := target] && s'.boxes == s.boxes.(records := records)
    && s'.released == s.released && s'.evicted == s.evicted && s'.accepted == s.accepted + gained
  }

  /** The ID is new, or stands for a waiting document without events. */
  predicate Reusable(s: State, id: OutputId)
  {
    id in s.ledger ==> id in s.boxes.records && s.ledger[id].document.flow.events == []
  }

  /** A waiting document is replaced without disturbing what else is filed. */
  lemma ReplacingFiles(s: State, id: OutputId, target: Target, now: Time)
    requires Filed(s.boxes, s.released, s.evicted, s.ledger) && (id in s.ledger ==> id in s.boxes.records)
    ensures
      var records := s.boxes.records[id := NewRecord(id, target.index, target.document, now)];
      Filed(s.boxes.(records := records), s.released, s.evicted, s.ledger[id := target])
  {
  }

  lemma GoneIsElsewhere(s: State, id: OutputId)
    requires Filed(s.boxes, s.released, s.evicted, s.ledger) && id in s.ledger && id !in s.boxes.records
    ensures id in s.boxes.dead || id in s.released || id in s.evicted
  {
  }

  /** Finalizing a flow leaves every event in exactly one place if and only if the output ID is new or
      its document waits and holds no event: a waiting document is overwritten, and one that is dead,
      delivered or evicted would be in two places. */
  lemma FinalizeConservesIff(s: State, s': State, key: FlowKey, before: Flow, id: OutputId, target: Target, now: Time,
                             gained: multiset<Event>)
    requires EventsHold(s) && Filed(s.boxes, s.released, s.evicted, s.ledger)
    requires if key in s.flows then before == s.flows[key] else before.events == []
    requires multiset(target.document.flow.events) == multiset(before.events) + gained
    requires Finalizes(s, s', key, id, target, now, gained)
    ensures InOnePlace(s') <==> Reusable(s, id)
  {
    hide FlowEvents, EventsOf, Filed, Conserved;
    if id in s.ledger && id !in s.boxes.records {
      GoneIsElsewhere(s, id);
      assert id in s'.boxes.records;
    } else {
      ReplacingFiles(s, id, target, now);
      EventsAreInOnePlace(s');
      CloseConservesIff(s, key, before, id, target, gained);
    }
  }

  /** Events in open flows and in the outbox. */
  ghost function Undelivered(s: State): multiset<Event>
  {
    FlowEvents(s.flows) + EventsOf(TargetsIn(s.boxes.records))
  }

  ghost function Overwritten(s: State, id: OutputId): multiset<Event>
  {
    if id in s.boxes.records then multiset(s.boxes.records[id].document.flow.events) else multiset{}
  }

  lemma TargetsSet(m: map<OutputId, Record>, id: OutputId, target: Target, now: Time)
    ensures TargetsIn(m[id := NewRecord(id, target.index, target.document, now)]) == TargetsIn(m)[id := target]
  {
  }

  /** Enqueueing under an ID replaces what the outbox held under it. */
  lemma EnqueueReplaces(s: State, id: OutputId, target: Target, now: Time)
    ensures
      var records := s.boxes.records[id := NewRecord(id, target.index, target.document, now)];
      EventsOf(TargetsIn(records)) + Overwritten(s, id) ==
          EventsOf(TargetsIn(s.boxes.records)) + multiset(target.document.flow.events)
  {
    hide Sum, EventMap, TargetsIn, Overwritten;
    TargetsSet(s.boxes.records, id, target, now);
    EventMapSet(TargetsIn(s.boxes.records), id, target);
    SumSwap(EventMap(TargetsIn(s.boxes.records)), id, multiset(target.document.flow.events));
    OverwrittenIs(s, id);
  }

  lemma EventMapSet(targets: Ledger, id: OutputId, target: Target)
    ensures EventMap(targets[id := target]) == EventMap(targets)[id := multiset(target.document.flow.events)]
  {
  }

  lemma OverwrittenIs(s: State, id: OutputId)
    ensures
      var m := EventMap(TargetsIn(s.boxes.records));
      Overwritten(s, id) == if id in m then m[id] else multiset{}
  {
  }

  lemma FinalizeReplaces(s: State, key: FlowKey, id: OutputId, target: Target, now: Time)
    requires key in s.flows && target.document.flow == s.flows[key]
    ensures Undelivered(Enqueued(s, key, id, target, now)) + Overwritten(s, id) == Undelivered(s)
  {
    hide FlowEvents, EventsOf, TargetsIn, Overwritten;
    EnqueueReplaces(s, id, target, now);
    FlowEventsDrop(s.flows, key, s.flows[key]);
    var s' := Enqueued(s, key, id, target, now);
    var rest, own := FlowEvents(s'.flows), multiset(s.flows[key].events);
    assert rest + own == FlowEvents(s.flows);
    var a, b, o := EventsOf(TargetsIn(s'.boxes.records)), EventsOf(TargetsIn(s.boxes.records)), Overwritten(s, id);
    assert a + o == b + own;
    assert rest + a + o == rest + (a + o);
    assert rest + (b + own) == (rest + own) + b;
  }

  /** Finalizing a flow keeps the events still to be delivered exactly when its output ID is not taken
      in the outbox by a record that holds any. */
  lemma UndeliveredConservedIff(s: State, key: FlowKey, id: OutputId, target: Target, now: Time)
    requires key in s.flows && target.document.flow == s.flows[key]
    ensures Undelivered(Enqueued(s, key, id, target, now)) == Undelivered(s) <==>
            (id in s.boxes.records ==> s.boxes.records[id].document.flow.events == [])
  {
    hide Undelivered, Enqueued;
    FinalizeReplaces(s, key, id, target, now);
    var after, lost := Undelivered(Enqueued(s, key, id, target, now)), Overwritten(s, id);
    if after == Undelivered(s) {
      assert |after + lost| == |after| + |lost|;
      assert lost == multiset{};
      if id in s.boxes.records {
        var events := s.boxes.records[id].document.flow.events;
        assert |multiset(events)| == |events|;
      }
    } else {
      assert after + multiset{} == after;
      assert lost != multiset{};
    }
  }
}
