/** Accepting one event over the durable store: the same session of engine steps, by point reads and writes. */
module DurableIngest {
  import opened ByteText
  import opened PathLanguage
  import opened Rules
  import opened FlowModel
  import opened FlowDeadline
  import opened FlowAggregate
  import Registry
  import opened DueFlows
  import opened Outbox
  import opened PebbleKeys
  import opened PebbleStore
  import PebbleTx
  import opened PebbleDelivery
  import Engine
  import EngineFlows
  import Sweep
  import opened Ingest

  /** The keyspace holds the flows, indexed by deadline, and the boxes of the engine state. */
  ghost predicate Durable(kv: Keyspace, s: Engine.State)
  {
    Indexed(kv, s.flows) && HoldsBoxes(kv, s.boxes)
  }

  /** A flow that stays open has a deadline the index can encode. */
  predicate SavesInRange(s: Engine.State, rule: Rule, e: Event, key: FlowKey, now: Time)
  {
    var d := Engine.Decide(s, rule, e, key, now);
    d.reason.None? ==> InRange(Considered(d.flow, d.used, now).expiresAt)
  }

  lemma KeyIsStorable(rule: Rule, e: Event, key: FlowKey)
    requires Engine.KeyOfEvent(rule, e) == Some(key) && ByteKey(key)
    ensures StorableKey(key)
  {
    hide Resolve, ByteKey;
  }

  /** Loads or opens the flow, with the rule it is handled under. */
  method LoadOrOpen(tx: PebbleTx.Tx, registry: Registry.LiveRegistry, rule: Rule, e: Event, key: FlowKey,
                    ghost flows: Flows)
    returns (current: LiveFlow, used: Rule, isNew: bool)
    requires Holds(tx.kv, flows) && ByteKey(key) && Decodable(flows)
    ensures fresh(current) && fresh(current.invocations) && current.Valid()
    ensures isNew == (key !in flows)
    ensures current.Value() == if isNew then Open(key, rule, e) else flows[key]
    ensures used == if isNew then rule else Engine.UsedRule(registry.State(), flows[key])
  {
    hide Holds, ByteKey, Load;
    LoadFinds(tx.kv, flows, key);
    var stored := Load(tx.kv, key);
    isNew, used := stored == None, rule;
    if isNew {
      current := new LiveFlow(key, rule, e);
      return;
    }
    current := new LiveFlow.Restore(stored.value);
    var pinned := registry.Get(PinnedBy(stored.value));
    used := if pinned.Some? then pinned.value else stored.value.pinnedRule;
  }

  /** Writes the outcome: the record then the deletion, or the flow with its new deadline. */
  method Write(cfg: Engine.Config, tx: PebbleTx.Tx, key: FlowKey, value: Flow, used: Rule, reason: Option<Reason>,
               now: Time, ghost flows: Flows, ghost b: Boxes)
    requires Indexed(tx.kv, flows) && HoldsBoxes(tx.kv, b) && Sweep.ScannableIds(cfg) && StorableKey(key)
    requires reason.None? ==> value.key == key && InRange(value.expiresAt)
    modifies tx
    ensures reason.None? ==> Indexed(tx.kv, flows[key := value]) && HoldsBoxes(tx.kv, b)
    ensures
      var id := Engine.OutputOf(cfg, key, value);
      reason.Some? ==>
        var target := Engine.TargetOf(cfg, value, used, reason.value, now);
        && Indexed(tx.kv, flows - {key})
        && HoldsBoxes(tx.kv, b.(records := b.records[id := NewRecord(id, target.index, target.document, now)]))
  {
    hide Holds, Covered, Exact, HoldsBoxes, ByteKey, PebbleTx.ScannableId, SavedIn, LeavesBoxes;
    if reason.Some? {
      var id := Engine.OutputOf(cfg, key, value);
      var target := Engine.TargetOf(cfg, value, used, reason.value, now);
      Sweep.Finalize(tx, NewRecord(id, target.index, target.document, now), key, flows, b);
      return;
    }
    ghost var start := tx.kv;
    FlowWritesLeaveBoxes(start, value, key);
    tx.SaveFlow(value, flows);
    BoxesUnaffected(start, tx.kv, b);
  }

  lemma DecidedKeepsKey(s: Engine.State, rule: Rule, e: Event, key: FlowKey, now: Time)
    requires key in s.flows ==> s.flows[key].key == key
    ensures
      var d := Engine.Decide(s, rule, e, key, now);
      Considered(d.flow, d.used, now).key == key
  {
    hide Applied, IsDuplicate, CloseReason, Considered, Engine.UsedRule;
    var d := Engine.Decide(s, rule, e, key, now);
    ApplyLeavesDeadline(Engine.Loaded(s, rule, e, key), e, d.used, now);
    EngineFlows.ConsideredMovesDeadline(d.flow, d.used, now);
  }

  lemma StoredUnderKey(kv: Keyspace, flows: Flows, key: FlowKey)
    requires Holds(kv, flows) && key in flows
    ensures flows[key].key == key
  {
    hide FlowKeyBytes, Storable;
    assert StoredFlow(kv, key, flows[key]);
  }

  /** The body of WithTx. */
  method Transact(cfg: Engine.Config, tx: PebbleTx.Tx, registry: Registry.LiveRegistry, rule: Rule, e: Event,
                  key: FlowKey, now: Time, ghost s: Engine.State, ghost t: nat)
    returns (report: Report)
    requires Durable(tx.kv, s) && registry.State() == s.registry && Decodable(s.flows)
    requires Sweep.ScannableIds(cfg) && StorableKey(key) && SavesInRange(s, rule, e, key, now)
    modifies tx
    ensures
      var d := Engine.Decide(s, rule, e, key, now);
      report == ReportOf(d) && Durable(tx.kv, Engine.AcceptCommitted(cfg, s, t, rule, e, d, now))
  {
    hide Applied, Considered, CloseReason, IsDuplicate, Engine.UsedRule, Open, Engine.OwedAfter, Engine.OutputOf,
      Engine.TargetOf, Holds, Covered, Exact, HoldsBoxes, Sweep.ScannableIds, ByteKey, Decodable;
    var current, used, isNew := LoadOrOpen(tx, registry, rule, e, key, s.flows);
    var value, duplicate, reason := Advance(current, e, used, now);
    ghost var d := Engine.Decide(s, rule, e, key, now);
    assert d.used == used && d.isNew == isNew && d.duplicate == duplicate && d.reason == reason && d.key == key;
    assert value == Considered(d.flow, used, now);
    if key in s.flows {
      StoredUnderKey(tx.kv, s.flows, key);
    }
    DecidedKeepsKey(s, rule, e, key, now);
    if reason.Some? {
      ClosingMovesNothing(d.flow, used, now);
    }
    Write(cfg, tx, key, value, used, reason, now, s.flows, s.boxes);
    if reason.Some? {
      return Report(isNew, Some(ReferenceOf(used)), Finalized(reason.value));
    }
    return Report(isNew, None, if duplicate then Duplicate else Correlated);
  }

  /** The keys and deadlines of the call can be encoded. */
  ghost predicate Encodable(s: Engine.State, t: nat, e: Event, now: Time)
  {
    var r := Registry.FirstMatch(s.registry.current, e.doc.body);
    r.Some? ==> EncodableUnder(Engine.Begun(s, t, e), r.value, e, now)
  }

  predicate EncodableUnder(s: Engine.State, rule: Rule, e: Event, now: Time)
  {
    var key := Engine.KeyOfEvent(rule, e);
    key.Some? ==> ByteKey(key.value) && SavesInRange(s, rule, e, key.value, now)
  }

  /** Accept over the durable store. `accepting` is the capacity verdict, `commits` whether the batch commits. */
  method Accept(cfg: Engine.Config, tx: PebbleTx.Tx, registry: Registry.LiveRegistry, e: Event, accepting: bool,
                commits: bool, now: Time, ghost s: Engine.State, ghost t: nat)
    returns (outcome: Outcome)
    requires Durable(tx.kv, s) && registry.State() == s.registry && Decodable(s.flows) && t !in s.calls
    requires Sweep.ScannableIds(cfg) && Encodable(s, t, e, now)
    modifies tx, registry
    ensures
      var s' := Session(cfg, s, t, e, accepting && commits, now);
      Durable(tx.kv, s') && registry.State() == s'.registry
    ensures outcome == SessionOutcome(s, t, e, accepting && commits, now)
  {
    hide Registry.FirstMatch, Registry.Released, Registry.Retained, ReleaseAll, Engine.Accepting, Session,
      Engine.Decide, Engine.KeyOfEvent, Indexed, HoldsBoxes, Decodable, Sweep.ScannableIds, EncodableUnder;
    var configured := registry.MatchAndRetain(e.doc.body);
    if configured == None {
      UnmatchedSession(cfg, s, t, e, accepting && commits, now);
      return Quarantined;
    }
    var rule := configured.value;
    ghost var begun := Engine.Begun(s, t, e);
    MatchedSession(cfg, s, t, e, rule, accepting && commits, now);
    if !accepting {
      registry.Release(ReferenceOf(rule));
      RefusalReleases(begun, t, rule);
      return Unavailable;
    }
    outcome := Proceed(cfg, tx, registry, rule, e, commits, now, begun, t);
  }

  /** The rest of the call, with the candidate retained and capacity granted. */
  method Proceed(cfg: Engine.Config, tx: PebbleTx.Tx, registry: Registry.LiveRegistry, rule: Rule, e: Event,
                 commits: bool, now: Time, ghost s: Engine.State, ghost t: nat)
    returns (outcome: Outcome)
    requires Durable(tx.kv, s) && registry.State() == s.registry && Decodable(s.flows) && Sweep.ScannableIds(cfg)
    requires Engine.KeyOfEvent(rule, e).Some? && EncodableUnder(s, rule, e, now)
    modifies tx, registry
    ensures
      var decided := Decided(cfg, s, t, rule, e, commits, now);
      var s' := ReleaseAll(decided, t, RefsOwed(decided, t));
      Durable(tx.kv, s') && registry.State() == s'.registry
    ensures
      var key := Engine.KeyOfEvent(rule, e).value;
      outcome == if commits then OutcomeFor(Engine.Decide(s, rule, e, key, now)) else Unavailable
  {
    hide Registry.Released, ReleaseAll, Engine.Accepting, Engine.Decide, Engine.AcceptCommitted, Engine.OwedAfter,
      Registry.ReleasedFrom, Indexed, HoldsBoxes, Decodable, Sweep.ScannableIds, SavesInRange, ByteKey;
    var candidate := ReferenceOf(rule);
    var value := ResolvePath(rule.key, e.doc.body);
    assert value.Some? && value.value != "" && Engine.KeyOfEvent(rule, e) == Some(FlowKey(rule.id, value.value));
    var key := FlowKey(rule.id, value.value);
    KeyIsStorable(rule, e, key);
    var before := tx.kv;
    var report := Transact(cfg, tx, registry, rule, e, key, now, s, t);
    if !commits {
      tx.kv := before;
      registry.Release(candidate);
      RefusalReleases(s, t, rule);
      return Unavailable;
    }
    ghost var d := Engine.Decide(s, rule, e, key, now);
    ghost var committed := Engine.AcceptCommitted(cfg, s, t, rule, e, d, now);
    assert committed.registry == s.registry by { CommitLeavesRegistry(cfg, s, t, rule, e, d, now); }
    CommitReleases(cfg, s, t, rule, e, key, now);
    Settle(registry, report, candidate, d);
    ReleasedCore(committed, t, Engine.OwedAfter(d, candidate));
    return report.outcome;
  }

  lemma CommitLeavesRegistry(cfg: Engine.Config, s: Engine.State, t: nat, rule: Rule, e: Event, d: Engine.Decision,
                             now: Time)
    ensures Engine.AcceptCommitted(cfg, s, t, rule, e, d, now).registry == s.registry
  {
    hide Engine.OwedAfter, Engine.OutputOf, Engine.TargetOf, Considered;
  }
}
