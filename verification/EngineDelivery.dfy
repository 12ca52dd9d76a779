/** The delivery half of a run: every finalized document is filed in exactly one place, says what it
    said when it was enqueued, reaches the sink under one identity, and is retried boundedly. */
module EngineDelivery {
  import opened ByteText
  import opened Rules
  import opened FlowModel
  import opened Outbox
  import opened DeadLetters
  import opened DeadLetterPaging
  import opened Delivery
  import opened FlowDeadline
  import opened Engine

  type Ledger = map<OutputId, Target>

  predicate Fits(id: OutputId, r: Record, ledger: Ledger)
  {
    r.outputId == id && id in ledger && ledger[id] == Target(r.index, r.document)
  }

  predicate AllFit(m: map<OutputId, Record>, ledger: Ledger)
  {
    forall id :: id in m ==> Fits(id, m[id], ledger)
  }

  /** Each finalized document is in the outbox, dead, released as delivered or evicted, and in one of them only. */
  predicate Filed(b: Boxes, released: set<OutputId>, evicted: set<OutputId>, ledger: Ledger)
  {
    && AllFit(b.records, ledger) && AllFit(b.dead, ledger)
    && (forall id :: id in ledger ==> id in b.records || id in b.dead || id in released || id in evicted)
    && released <= ledger.Keys && evicted <= ledger.Keys
    && b.records.Keys !! b.dead.Keys !! released !! evicted
  }

  predicate SentFit(sent: set<Record>, ledger: Ledger)
  {
    forall r :: r in sent ==> Fits(r.outputId, r, ledger)
  }

  /** The sink holds a document under the index and with the bytes fixed at enqueue, and under no other. */
  predicate SinkFits(sink: map<(Text, OutputId), Payload>, ledger: Ledger)
  {
    forall p :: p in sink ==> p.1 in ledger && ledger[p.1] == Target(p.0, sink[p])
  }

  predicate Arrived(released: set<OutputId>, sink: map<(Text, OutputId), Payload>, ledger: Ledger)
  {
    forall id :: id in released ==> id in ledger && (ledger[id].index, id) in sink
  }

  predicate Capped(dead: map<OutputId, Record>, cap: int)
  {
    cap >= 0 ==> |dead| <= cap
  }

  predicate DeliveryHolds(cfg: Config, s: State)
  {
    && Filed(s.boxes, s.released, s.evicted, s.ledger)
    && Carries(s.boxes.records, s.batch)
    && SentFit(s.sent, s.ledger) && SinkFits(s.sink, s.ledger) && Arrived(s.released, s.sink, s.ledger)
    && Bounded(s.boxes.records, cfg.maxRetries) && Capped(s.boxes.dead, cfg.maxDlq)
  }

  predicate Extends(later: Ledger, earlier: Ledger)
  {
    forall id :: id in earlier ==> id in later && later[id] == earlier[id]
  }

  // ---------- enqueue ----------

  lemma EnqueueFiles(b: Boxes, released: set<OutputId>, evicted: set<OutputId>, ledger: Ledger, id: OutputId,
                     target: Target, now: Time)
    requires Filed(b, released, evicted, ledger) && id !in ledger
    ensures
      var records := b.records[id := NewRecord(id, target.index, target.document, now)];
      Filed(b.(records := records), released, evicted, ledger[id := target])
  {
  }

  lemma EnqueueKeeps(cfg: Config, s: State, key: FlowKey, id: OutputId, target: Target, now: Time)
    requires DeliveryHolds(cfg, s) && id !in s.ledger
    ensures DeliveryHolds(cfg, Enqueued(s, key, id, target, now))
    ensures Extends(Enqueued(s, key, id, target, now).ledger, s.ledger)
  {
    hide Filed, Carries, Bounded, Capped, SentFit, SinkFits, Arrived;
    assert id !in s.boxes.records by { RecordsAreFiled(s); }
    assert Extends(s.ledger[id := target], s.ledger);
    StillFit(s, s.ledger[id := target]);
    StillCarried(s.boxes.records, s.batch, id, NewRecord(id, target.index, target.document, now), cfg.maxRetries);
    EnqueueFiles(s.boxes, s.released, s.evicted, s.ledger, id, target, now);
  }

  lemma StillFit(s: State, ledger: Ledger)
    requires SentFit(s.sent, s.ledger) && SinkFits(s.sink, s.ledger) && Arrived(s.released, s.sink, s.ledger)
    requires Extends(ledger, s.ledger)
    ensures SentFit(s.sent, ledger) && SinkFits(s.sink, ledger) && Arrived(s.released, s.sink, ledger)
  {
  }

  lemma StillCarried(records: map<OutputId, Record>, batch: seq<Record>, id: OutputId, r: Record, maxRetries: nat)
    requires Carries(records, batch) && Bounded(records, maxRetries) && id !in records && r.attempts == 0
    ensures Carries(records[id := r], batch) && Bounded(records[id := r], maxRetries)
  {
  }

  lemma RecordsAreFiled(s: State)
    requires Filed(s.boxes, s.released, s.evicted, s.ledger)
    ensures forall id :: id in s.boxes.records ==> Fits(id, s.boxes.records[id], s.ledger)
    ensures forall id :: id in s.boxes.dead ==> id in s.ledger && id !in s.boxes.records
  {
  }

  // ---------- verdicts ----------

  function DeliveredId(res: Result): set<OutputId>
  {
    if res.disposition == Delivered then {res.outputId} else {}
  }

  lemma DeliveredIdsSnoc(results: seq<Result>, res: Result)
    ensures DeliveredIds(results + [res]) == DeliveredIds(results) + DeliveredId(res)
  {
    var all := results + [res];
    assert forall r :: r in all <==> r in results || r == res;
  }

  lemma VerdictFiles(p: Progress, res: Result, released: set<OutputId>, evicted: set<OutputId>, ledger: Ledger)
    requires Filed(p.boxes, released, evicted, ledger)
    requires res.outputId in p.boxes.records && res.disposition != Unrecognised
    ensures Filed(Resolved(p, res).boxes, released + DeliveredId(res), evicted, ledger)
  {
    hide ErrorOr, RefsAt, RefOf;
  }

  lemma NoneDelivered()
    ensures DeliveredIds([]) == {}
  {
  }

  lemma StillWaiting(b: Boxes, results: seq<Result>, res: Result, maxRetries: nat)
    requires Bounded(b.records, maxRetries) && Spend(b.records, results, maxRetries)
    requires Spends(b.records, res, maxRetries) && Unanswered(results, res.outputId)
    ensures res.outputId in ResolvedAll(b, results).boxes.records && res.disposition != Unrecognised
  {
    hide Weight, ResolvedAll, Bounded, Spend;
    ResolvedAllLowers(b, results, maxRetries);
  }

  lemma {:induction false} VerdictsFile(b: Boxes, results: seq<Result>, maxRetries: nat, released: set<OutputId>,
                                        evicted: set<OutputId>, ledger: Ledger)
    requires Filed(b, released, evicted, ledger)
    requires Bounded(b.records, maxRetries) && Spend(b.records, results, maxRetries)
    ensures Filed(ResolvedAll(b, results).boxes, released + DeliveredIds(results), evicted, ledger)
    decreases |results|
  {
    hide Filed, Resolved, Bounded, Spends, DeliveredIds;
    if results == [] {
      assert released + DeliveredIds([]) == released by { NoneDelivered(); }
    } else {
      var n := |results| - 1;
      var rest, res := results[..n], results[n];
      assert forall i :: 0 <= i < n ==> rest[i] == results[i];
      VerdictsFile(b, rest, maxRetries, released, evicted, ledger);
      StillWaiting(b, rest, res, maxRetries);
      VerdictFiles(ResolvedAll(b, rest), res, released + DeliveredIds(rest), evicted, ledger);
      assert results == rest + [res];
      DeliveredIdsSnoc(rest, res);
      assert released + DeliveredIds(rest) + DeliveredId(res) == released + DeliveredIds(results);
    }
  }

  lemma EvictionFiles(b: Boxes, kept: map<OutputId, Record>, dropped: nat, released: set<OutputId>,
                      evicted: set<OutputId>, ledger: Ledger)
    requires Filed(b, released, evicted, ledger)
    requires kept.Keys <= b.dead.Keys && forall id :: id in kept ==> kept[id] == b.dead[id]
    ensures Filed(Boxes(b.records, kept, dropped), released, evicted + (b.dead.Keys - kept.Keys), ledger)
  {
  }

  lemma TrimOnlyDrops(b: Boxes, results: seq<Result>, cap: int)
    ensures
      var resolved, after := ResolvedAll(b, results).boxes, Resolution(b, results, cap).0;
      && after.records == resolved.records
      && after.dead.Keys <= resolved.dead.Keys
      && forall id :: id in after.dead ==> after.dead[id] == resolved.dead[id]
  {
    hide ResolvedAll, Victims, VictimRefs, IdsOf;
  }

  /** A judged batch spends one attempt of each of its records. */
  lemma VerdictsSpend(cfg: Config, records: map<OutputId, Record>, batch: seq<Record>, answer: seq<Result>,
                      sinkErr: Option<Text>, now: Time)
    requires Carries(records, batch) && Recognised(Verdicts(cfg, batch, answer, sinkErr, now))
    ensures Spend(records, Verdicts(cfg, batch, answer, sinkErr, now), cfg.maxRetries)
  {
    hide Judged, Completed;
    var results := Verdicts(cfg, batch, answer, sinkErr, now);
    forall i | 0 <= i < |results| ensures Spends(records, results[i], cfg.maxRetries) {
      var r := batch[i];
      JudgedSpends(r, Completed(r, answer, sinkErr), now, cfg.maxRetries, cfg.delayOf(r.outputId, r.attempts + 1));
    }
  }

  lemma DeliveredArrived(s: State, results: seq<Result>)
    requires Filed(s.boxes, s.released, s.evicted, s.ledger) && Carries(s.boxes.records, s.batch)
    requires |results| == |s.batch| && forall i :: 0 <= i < |results| ==> results[i].outputId == s.batch[i].outputId
    requires Truthful(s, results)
    ensures Arrived(DeliveredIds(results), s.sink, s.ledger)
  {
    hide Filed;
    RecordsAreFiled(s);
    forall id | id in DeliveredIds(results) ensures id in s.ledger && (s.ledger[id].index, id) in s.sink {
      var r :| r in results && r.disposition == Delivered && r.outputId == id;
      var i :| 0 <= i < |results| && results[i] == r;
      assert Fits(id, s.boxes.records[id], s.ledger);
    }
  }

  lemma DrainKeeps(cfg: Config, s: State, results: seq<Result>)
    requires DeliveryHolds(cfg, s) && Spend(s.boxes.records, results, cfg.maxRetries)
    requires Arrived(DeliveredIds(results), s.sink, s.ledger)
    ensures DeliveryHolds(cfg, DrainCommitted(cfg, s, results))
  {
    hide Filed, Spend, Bounded, Resolution, ResolvedAll, DeliveredIds, SentFit, SinkFits, Capped;
    DrainFiles(cfg, s, results);
    DrainBounds(cfg, s.boxes, results);
  }

  lemma DrainFiles(cfg: Config, s: State, results: seq<Result>)
    requires Filed(s.boxes, s.released, s.evicted, s.ledger)
    requires Bounded(s.boxes.records, cfg.maxRetries) && Spend(s.boxes.records, results, cfg.maxRetries)
    ensures
      var s' := DrainCommitted(cfg, s, results);
      Filed(s'.boxes, s'.released, s'.evicted, s.ledger)
  {
    hide Filed, Spend, Bounded, Resolution, ResolvedAll, DeliveredIds;
    VerdictsFile(s.boxes, results, cfg.maxRetries, s.released, s.evicted, s.ledger);
    TrimOnlyDrops(s.boxes, results, cfg.maxDlq);
    var resolved, after := ResolvedAll(s.boxes, results).boxes, Resolution(s.boxes, results, cfg.maxDlq).0;
    EvictionFiles(resolved, after.dead, after.dropped, s.released + DeliveredIds(results), s.evicted, s.ledger);
    assert after == Boxes(resolved.records, after.dead, after.dropped);
  }

  lemma DrainBounds(cfg: Config, b: Boxes, results: seq<Result>)
    requires Bounded(b.records, cfg.maxRetries) && Spend(b.records, results, cfg.maxRetries)
    requires Capped(b.dead, cfg.maxDlq)
    ensures Bounded(Resolution(b, results, cfg.maxDlq).0.records, cfg.maxRetries)
    ensures Capped(Resolution(b, results, cfg.maxDlq).0.dead, cfg.maxDlq)
  {
    hide Spend, Bounded, Resolution, ResolvedAll, RefsIn, Weight;
    ResolvedAllLowers(b, results, cfg.maxRetries);
    TrimOnlyDrops(b, results, cfg.maxDlq);
    ResolutionBalances(b, results, cfg.maxDlq);
  }

  lemma DrainingKeeps(cfg: Config, s: State, answer: seq<Result>, sinkErr: Option<Text>, now: Time)
    requires DeliveryHolds(cfg, s) && Truthful(s, Verdicts(cfg, s.batch, answer, sinkErr, now))
    ensures DeliveryHolds(cfg, Draining(cfg, s, Verdicts(cfg, s.batch, answer, sinkErr, now)))
    ensures Draining(cfg, s, Verdicts(cfg, s.batch, answer, sinkErr, now)).ledger == s.ledger
  {
    hide Resolution, ResolvedAll, SentFit, SinkFits, Arrived;
    hide Filed, Verdicts, DeliveredIds, Truthful, Spend, Bounded, Capped;
    var results := Verdicts(cfg, s.batch, answer, sinkErr, now);
    if Recognised(results) {
      VerdictsSpend(cfg, s.boxes.records, s.batch, answer, sinkErr, now);
      DeliveredArrived(s, results);
      DrainKeeps(cfg, s, results);
    }
  }

  // ---------- replay ----------

  /** The outbox after a replay: what waited before still waits unchanged. */
  predicate Retains(after: map<OutputId, Record>, before: map<OutputId, Record>)
  {
    forall id :: id in before ==> id in after && after[id] == before[id]
  }

  predicate ReplayKeepsBoxes(b: Boxes, after: Boxes, maxRetries: nat, released: set<OutputId>, evicted: set<OutputId>,
                             ledger: Ledger)
  {
    && Filed(after, released, evicted, ledger) && Retains(after.records, b.records)
    && Bounded(after.records, maxRetries) && |after.dead| <= |b.dead|
  }

  lemma MovesBack(p: Boxes, id: OutputId, r: Record, released: set<OutputId>, evicted: set<OutputId>, ledger: Ledger)
    requires Filed(p, released, evicted, ledger) && id in p.dead
    requires r.outputId == p.dead[id].outputId && r.index == p.dead[id].index && r.document == p.dead[id].document
    ensures id !in p.records
    ensures Filed(p.(records := p.records[id := r], dead := p.dead - {id}), released, evicted, ledger)
  {
  }

  lemma RevivalFiles(b: Boxes, p: Boxes, id: OutputId, now: Time, maxRetries: nat, released: set<OutputId>,
                     evicted: set<OutputId>, ledger: Ledger)
    requires ReplayKeepsBoxes(b, p, maxRetries, released, evicted, ledger) && id in p.dead
    ensures
      ReplayKeepsBoxes(b, p.(records := p.records[id := Revived(p.dead[id], now)], dead := p.dead - {id}),
        maxRetries, released, evicted, ledger)
  {
    hide Filed;
    DropOne(p.dead, id);
    MovesBack(p, id, Revived(p.dead[id], now), released, evicted, ledger);
  }

  lemma {:induction false} ReplayFiles(b: Boxes, ids: seq<OutputId>, now: Time, maxRetries: nat,
                                       released: set<OutputId>, evicted: set<OutputId>, ledger: Ledger)
    requires Filed(b, released, evicted, ledger) && Bounded(b.records, maxRetries)
    ensures ReplayKeepsBoxes(b, Replayed(b, ids, now).boxes, maxRetries, released, evicted, ledger)
    decreases |ids|
  {
    hide Filed, Bounded, Revived;
    if ids != [] {
      var n := |ids| - 1;
      ReplayFiles(b, ids[..n], now, maxRetries, released, evicted, ledger);
      var p, id := Replayed(b, ids[..n], now).boxes, ids[n];
      if id in p.dead {
        RevivalFiles(b, p, id, now, maxRetries, released, evicted, ledger);
      }
    }
  }

  lemma ReplayKeeps(cfg: Config, s: State, ids: seq<OutputId>, now: Time)
    requires DeliveryHolds(cfg, s)
    ensures DeliveryHolds(cfg, s.(boxes := Replayed(s.boxes, ids, now).boxes))
  {
    hide Filed, Bounded, Replayed;
    ReplayFiles(s.boxes, ids, now, cfg.maxRetries, s.released, s.evicted, s.ledger);
  }

  // ---------- the sink ----------

  lemma LoadKeeps(cfg: Config, s: State, batch: seq<Record>)
    requires DeliveryHolds(cfg, s) && Carries(s.boxes.records, batch)
    ensures DeliveryHolds(cfg, s.(batch := batch, sent := s.sent + (set r | r in batch)))
  {
    hide Filed, Bounded, Capped, SinkFits, Arrived;
    RecordsAreFiled(s);
  }

  lemma WriteKeeps(cfg: Config, s: State, r: Record)
    requires DeliveryHolds(cfg, s) && r in s.sent
    ensures DeliveryHolds(cfg, s.(sink := s.sink[(r.index, r.outputId) := r.document]))
  {
    hide Filed, Bounded, Capped, Carries;
    assert Fits(r.outputId, r, s.ledger);
  }

  // ---------- every step ----------

  lemma AcceptKeepsDelivery(cfg: Config, s: State, t: nat, rule: Rule, e: Event, now: Time)
    requires DeliveryHolds(cfg, s) && FreshAccept(cfg, s, rule, e, now)
    ensures DeliveryHolds(cfg, Accepting(cfg, s, t, rule, e, now))
    ensures Extends(Accepting(cfg, s, t, rule, e, now).ledger, s.ledger)
  {
    hide DeliveryHolds, Decide, KeyOfEvent, OutputOf, TargetOf, Enqueued;
    match KeyOfEvent(rule, e)
    case None =>
      OtherFields(cfg, s, Accepting(cfg, s, t, rule, e, now));
    case Some(key) =>
      var d := Decide(s, rule, e, key, now);
      assert d.key == key by { DecideKey(s, rule, e, key, now); }
      CommitKeepsDelivery(cfg, s, t, rule, e, d, now);
  }

  lemma DecideKey(s: State, rule: Rule, e: Event, key: FlowKey, now: Time)
    ensures Decide(s, rule, e, key, now).key == key
  {
    hide Applied, IsDuplicate, CloseReason;
  }

  lemma CommitKeepsDelivery(cfg: Config, s: State, t: nat, rule: Rule, e: Event, d: Decision, now: Time)
    requires DeliveryHolds(cfg, s)
    requires d.reason.Some? ==> OutputOf(cfg, d.key, d.flow) !in s.ledger
    ensures DeliveryHolds(cfg, AcceptCommitted(cfg, s, t, rule, e, d, now))
    ensures Extends(AcceptCommitted(cfg, s, t, rule, e, d, now).ledger, s.ledger)
  {
    hide DeliveryHolds, OutputOf, TargetOf, OwedAfter, Considered;
    var counted := s.(accepted := if d.duplicate then s.accepted else s.accepted + multiset{e},
                      calls := s.calls[t := Owing(OwedAfter(d, ReferenceOf(rule)))]);
    OtherFields(cfg, s, counted);
    match d.reason
    case Some(reason) =>
      EnqueueKeeps(cfg, counted, d.key, OutputOf(cfg, d.key, d.flow), TargetOf(cfg, d.flow, d.used, reason, now), now);
    case None =>
      OtherFields(cfg, s, AcceptCommitted(cfg, s, t, rule, e, d, now));
  }

  /** Delivery does not look at flows, registry or calls. */
  lemma OtherFields(cfg: Config, s: State, s': State)
    requires DeliveryHolds(cfg, s)
    requires s'.boxes == s.boxes && s'.sent == s.sent && s'.sink == s.sink
    requires s'.batch == s.batch || s'.batch == []
    requires s'.ledger == s.ledger && s'.released == s.released && s'.evicted == s.evicted
    ensures DeliveryHolds(cfg, s') && Extends(s'.ledger, s.ledger)
  {
    hide Filed, Bounded, Capped, SinkFits, Arrived, SentFit;
  }

  lemma SweepKeepsDelivery(cfg: Config, s: State, t: nat, key: FlowKey, now: Time)
    requires DeliveryHolds(cfg, s) && key in s.flows && OutputOf(cfg, key, s.flows[key]) !in s.ledger
    ensures DeliveryHolds(cfg, SweepOne(cfg, s, t, key, now))
    ensures Extends(SweepOne(cfg, s, t, key, now).ledger, s.ledger)
  {
    hide DeliveryHolds, OutputOf, TargetOf, OutcomeOf, UsedRule;
    var f := s.flows[key];
    var target := TargetOf(cfg, f, UsedRule(s.registry, f), OutcomeOf(f, s.registry.versions, now), now);
    EnqueueKeeps(cfg, s, key, OutputOf(cfg, key, f), target, now);
    var closed := Enqueued(s, key, OutputOf(cfg, key, f), target, now);
    OtherFields(cfg, closed, SweepOne(cfg, s, t, key, now));
  }

  lemma StepKeepsDelivery(cfg: Config, s: State, step: Step)
    requires DeliveryHolds(cfg, s) && Enabled(cfg, s, step) && FreshIds(cfg, s, step)
    ensures DeliveryHolds(cfg, Next(cfg, s, step)) && Extends(Next(cfg, s, step).ledger, s.ledger)
  {
    hide DeliveryHolds, FreshAccept, OutputOf, Carries, Truthful, AllReady, AllVersioned, Accepting, SweepOne,
      DrainCommitted, Replayed, ReplayIds, Booted, KnownHomes;
    match step
    case Accept(t, now) => AcceptKeepsDelivery(cfg, s, t, s.calls[t].rule, s.calls[t].event, now);
    case Sweep(t, key, now) => SweepKeepsDelivery(cfg, s, t, key, now);
    case Load(batch, now) => LoadKeeps(cfg, s, batch);
    case Write(record) => WriteKeeps(cfg, s, record);
    case Drain(answer, sinkErr, now) => DrainingKeeps(cfg, s, answer, sinkErr, now);
    case Replay(filter, now) => ReplayKeeps(cfg, s, ReplayIds(s.boxes.dead, filter), now);
    case _ => OtherFields(cfg, s, Next(cfg, s, step));
  }

  lemma InitialDelivery(cfg: Config, rules: seq<Rule>)
    ensures DeliveryHolds(cfg, Initial(rules))
  {
    hide Booted;
  }
}
