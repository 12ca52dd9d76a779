/** The engine as a state machine: every transaction, registry operation, sink write and crash is one
    atomic step over open flows, outbox, dead letters, rule registry and sink. */
module Engine {
  import opened ByteText
  import opened PathLanguage
  import opened Rules
  import opened FlowModel
  import opened FlowDeadline
  import opened RuleNormalisation
  import Registry
  import opened DueFlows
  import opened Outbox
  import opened DeadLetters
  import opened DeadLetterPaging
  import opened Delivery
  import opened Sums

  /** What the engine is configured with; the theorems hold for every choice.
      `hash` is the digest behind a rule version, `idOf` names an output by rule, correlation key and
      first observed time, `indexOf` resolves its index. */
  datatype Config = Config(
    hash: Rule -> Text,
    idOf: (Text, Text, Time) -> OutputId,
    indexOf: (Rule, Flow, Reason, Time) -> Text,
    sizeOf: (Flow, Reason, Time) -> nat,
    delayOf: (OutputId, nat) -> Duration,
    maxDlq: int,
    maxRetries: nat)

  /** Where a document goes and what it says; fixed when it is enqueued. */
  datatype Target = Target(index: Text, document: Payload)

  /** A call in progress: an Accept holding the rule it matched, or releases still to be made. */
  datatype Call = Candidate(rule: Rule, event: Event) | Owing(refs: seq<Reference>)

  /** The last eight fields are bookkeeping of the world around the store: the records handed to the
      sink and what it holds, the flows whose rule version this process has known, and histories. */
  datatype State = State(
    flows: Flows,
    boxes: Boxes,
    registry: Registry.Registry,
    calls: map<nat, Call>,
    batch: seq<Record>,
    sent: set<Record>,
    sink: map<(Text, OutputId), Payload>,
    home: set<FlowKey>,
    ledger: map<OutputId, Target>,
    released: set<OutputId>,
    evicted: set<OutputId>,
    accepted: multiset<Event>)

  // ---------- finalizing ----------

  function OutputOf(cfg: Config, key: FlowKey, f: Flow): OutputId
  {
    cfg.idOf(key.ruleId, key.correlationKey, f.firstObservedAt)
  }

  function TargetOf(cfg: Config, f: Flow, r: Rule, reason: Reason, now: Time): Target
  {
    Target(cfg.indexOf(r, f, reason, now), Payload(f, reason, now, cfg.sizeOf(f, reason, now)))
  }

  /** Finalize: enqueue the document, then delete the open flow, in one transaction. */
  function Enqueued(s: State, key: FlowKey, id: OutputId, target: Target, now: Time): State
  {
    s.(flows := s.flows - {key},
       home := s.home - {key},
       boxes := s.boxes.(records := s.boxes.records[id := NewRecord(id, target.index, target.document, now)]),
       ledger := s.ledger[id := target])
  }

  function CloseFlow(cfg: Config, s: State, key: FlowKey, f: Flow, r: Rule, reason: Reason, now: Time): State
  {
    Enqueued(s, key, OutputOf(cfg, key, f), TargetOf(cfg, f, r, reason, now), now)
  }

  /** The definition a flow is handled under: the registry's, or its own snapshot when that is gone. */
  function UsedRule(g: Registry.Registry, f: Flow): Rule
  {
    if PinnedBy(f) in g.versions then g.versions[PinnedBy(f)] else f.pinnedRule
  }

  // ---------- Accept ----------

  /** What the transaction of Accept decides before it writes. */
  datatype Decision = Decision(key: FlowKey, flow: Flow, used: Rule, isNew: bool, duplicate: bool,
      reason: Option<Reason>)

  function KeyOfEvent(r: Rule, e: Event): Option<FlowKey>
  {
    match Resolve(r.key, e.doc.body)
    case None => None
    case Some(value) => if value == "" then None else Some(FlowKey(r.id, value))
  }

  function Loaded(s: State, rule: Rule, e: Event, key: FlowKey): Flow
  {
    if key in s.flows then s.flows[key] else Open(key, rule, e)
  }

  function Decide(s: State, rule: Rule, e: Event, key: FlowKey, now: Time): Decision
  {
    var f := Loaded(s, rule, e, key);
    var used := if key in s.flows then UsedRule(s.registry, f) else rule;
    var applied := Applied(f, e, used, now);
    Decision(key, applied, used, key !in s.flows, IsDuplicate(f, e, used), CloseReason(applied, used, now))
  }

  /** The references the call still has to release once its transaction has committed. */
  function OwedAfter(d: Decision, candidate: Reference): seq<Reference>
  {
    if d.reason.None? then if d.isNew then [] else [candidate]
    else if d.isNew then [candidate]
    else [ReferenceOf(d.used), candidate]
  }

  function AcceptCommitted(cfg: Config, s: State, t: nat, rule: Rule, e: Event, d: Decision, now: Time): State
  {
    var counted := s.(accepted := if d.duplicate then s.accepted else s.accepted + multiset{e},
                      calls := s.calls[t := Owing(OwedAfter(d, ReferenceOf(rule)))]);
    match d.reason
    case Some(reason) => CloseFlow(cfg, counted, d.key, d.flow, d.used, reason, now)
    case None =>
      counted.(flows := s.flows[d.key := Considered(d.flow, d.used, now)],
               home := if d.isNew then s.home + {d.key} else s.home)
  }

  // ---------- Sweep ----------

  function SweepOne(cfg: Config, s: State, t: nat, key: FlowKey, now: Time): State
    requires key in s.flows
  {
    var f := s.flows[key];
    CloseFlow(cfg, s, key, f, UsedRule(s.registry, f), OutcomeOf(f, s.registry.versions, now), now)
      .(calls := s.calls[t := Owing([PinnedBy(f)])])
  }

  // ---------- Drain and Replay ----------

  predicate Carries(records: map<OutputId, Record>, batch: seq<Record>)
  {
    && (forall i :: 0 <= i < |batch| ==> batch[i].outputId in records && records[batch[i].outputId] == batch[i])
    && (forall i, j :: 0 <= i < j < |batch| ==> batch[i].outputId != batch[j].outputId)
  }

  predicate AllReady(batch: seq<Record>, now: Time)
  {
    forall i :: 0 <= i < |batch| ==> Ready(batch[i], now)
  }

  function Verdicts(cfg: Config, batch: seq<Record>, answer: seq<Result>, sinkErr: Option<Text>,
                    now: Time): (results: seq<Result>)
    ensures |results| == |batch|
    ensures forall i :: 0 <= i < |batch| ==> results[i].outputId == batch[i].outputId
  {
    seq(|batch|, i requires 0 <= i < |batch| =>
      Judged(batch[i], Completed(batch[i], answer, sinkErr), now, cfg.maxRetries,
          cfg.delayOf(batch[i].outputId, batch[i].attempts + 1)))
  }

  function DeliveredIds(results: seq<Result>): set<OutputId>
  {
    set r | r in results && r.disposition == Delivered :: r.outputId
  }

  /** A sink that reports delivery has the document. */
  predicate Truthful(s: State, results: seq<Result>)
  {
    forall i :: 0 <= i < |results| && i < |s.batch| && results[i].disposition == Delivered ==>
      (s.batch[i].index, s.batch[i].outputId) in s.sink
  }

  ghost function DrainCommitted(cfg: Config, s: State, results: seq<Result>): State
  {
    var resolved := ResolvedAll(s.boxes, results).boxes;
    var after := Resolution(s.boxes, results, cfg.maxDlq).0;
    s.(boxes := after,
       batch := [],
       released := s.released + DeliveredIds(results),
       evicted := s.evicted + (resolved.dead.Keys - after.dead.Keys))
  }

  // ---------- Restart ----------

  ghost function PinMap(flows: Flows): map<FlowKey, multiset<Reference>>
  {
    map key | key in flows :: multiset{PinnedBy(flows[key])}
  }

  ghost function Pinned(flows: Flows): multiset<Reference>
  {
    Sum(PinMap(flows))
  }

  /** OpenFlows: how many stored flows hold each version. */
  ghost function CountsOf(flows: Flows): map<Reference, nat>
  {
    map ref | ref in Pinned(flows) :: Pinned(flows)[ref]
  }

  ghost function Booted(rules: seq<Rule>, flows: Flows): Registry.Registry
  {
    Registry.Seeded(Registry.Published(Registry.Registry([], map[], map[]), rules), CountsOf(flows))
  }

  function KnownHomes(g: Registry.Registry, flows: Flows): set<FlowKey>
  {
    set key | key in flows && PinnedBy(flows[key]) in g.versions
  }

  ghost function Rebooted(s: State, rules: seq<Rule>): State
  {
    var g := Booted(rules, s.flows);
    s.(registry := g, calls := map[], batch := [], home := KnownHomes(g, s.flows))
  }

  // ---------- steps ----------

  /** Begin selects and retains a rule; Accept is its transaction and Refuse any other end of the call;
      Release is one deferred release. Sweep finalizes one due flow: a sweep is this step for each of
      its flows, an aborted one is no step at all. A loaded batch may be written to the sink at any
      time from then on, even after the drain that sent it gave up or the process died. */
  datatype Step =
    | Begin(t: nat, event: Event)
    | Accept(t: nat, now: Time)
    | Refuse(t: nat)
    | Release(t: nat)
    | Publish(rules: seq<Rule>)
    | Sweep(t: nat, key: FlowKey, now: Time)
    | Load(batch: seq<Record>, now: Time)
    | Write(record: Record)
    | Drain(answer: seq<Result>, sinkErr: Option<Text>, now: Time)
    | GiveUpDrain
    | Replay(filter: Filter, now: Time)
    | Restart(rules: seq<Rule>)

  /** A loaded rule is valid and its version is the digest of its normal form. */
  predicate Versioned(cfg: Config, r: Rule)
  {
    ValidRule(r) && r.version == cfg.hash(Normalised(r))
  }

  predicate AllVersioned(cfg: Config, rules: seq<Rule>)
  {
    forall i :: 0 <= i < |rules| ==> Versioned(cfg, rules[i])
  }

  ghost predicate Enabled(cfg: Config, s: State, step: Step)
  {
    match step
    case Begin(t, e) => t !in s.calls
    case Accept(t, now) => t in s.calls && s.calls[t].Candidate? && Representable(now)
    case Refuse(t) => t in s.calls && s.calls[t].Candidate?
    case Release(t) => t in s.calls && s.calls[t].Owing?
    case Publish(rules) => AllVersioned(cfg, rules)
    case Sweep(t, key, now) => t !in s.calls && key in s.flows && s.flows[key].expiresAt <= now
    case Load(batch, now) => s.batch == [] && Carries(s.boxes.records, batch) && AllReady(batch, now)
    case Write(record) => record in s.sent
    case Drain(answer, sinkErr, now) => Truthful(s, Verdicts(cfg, s.batch, answer, sinkErr, now))
    case GiveUpDrain => true
    case Replay(filter, now) => true
    case Restart(rules) => AllVersioned(cfg, rules)
  }

  /** Every output ID the step enqueues under was never used before. */
  ghost predicate FreshIds(cfg: Config, s: State, step: Step)
  {
    match step
    case Accept(t, now) => t in s.calls && s.calls[t].Candidate? ==>
        FreshAccept(cfg, s, s.calls[t].rule, s.calls[t].event, now)
    case Sweep(t, key, now) => key in s.flows ==> OutputOf(cfg, key, s.flows[key]) !in s.ledger
    case _ => true
  }

  predicate FreshAccept(cfg: Config, s: State, rule: Rule, e: Event, now: Time)
  {
    match KeyOfEvent(rule, e)
    case None => true
    case Some(key) =>
      var d := Decide(s, rule, e, key, now);
      d.reason.Some? ==> OutputOf(cfg, key, d.flow) !in s.ledger
  }

  function Begun(s: State, t: nat, e: Event): State
  {
    match Registry.FirstMatch(s.registry.current, e.doc.body)
    case None => s
    case Some(r) => s.(registry := Registry.Retained(s.registry, ReferenceOf(r)),
        calls := s.calls[t := Candidate(r, e)])
  }

  function Accepting(cfg: Config, s: State, t: nat, rule: Rule, e: Event, now: Time): State
  {
    match KeyOfEvent(rule, e)
    case None => Refused(s, t, rule)
    case Some(key) => AcceptCommitted(cfg, s, t, rule, e, Decide(s, rule, e, key, now), now)
  }

  function Refused(s: State, t: nat, rule: Rule): State
  {
    s.(calls := s.calls[t := Owing([ReferenceOf(rule)])])
  }

  function ReleaseNext(s: State, t: nat, refs: seq<Reference>): State
  {
    if refs == [] then s.(calls := s.calls - {t})
    else s.(registry := Registry.Released(s.registry, refs[0]), calls := s.calls[t := Owing(refs[1..])])
  }

  ghost function Draining(cfg: Config, s: State, results: seq<Result>): State
  {
    if Recognised(results) then DrainCommitted(cfg, s, results) else s.(batch := [])
  }

  ghost function Next(cfg: Config, s: State, step: Step): State
    requires Enabled(cfg, s, step)
  {
    match step
    case Begin(t, e) => Begun(s, t, e)
    case Accept(t, now) => Accepting(cfg, s, t, s.calls[t].rule, s.calls[t].event, now)
    case Refuse(t) => Refused(s, t, s.calls[t].rule)
    case Release(t) => ReleaseNext(s, t, s.calls[t].refs)
    case Publish(rules) => s.(registry := Registry.Published(s.registry, rules))
    case Sweep(t, key, now) => SweepOne(cfg, s, t, key, now)
    case Load(batch, now) => s.(batch := batch, sent := s.sent + (set r | r in batch))
    case Write(record) => s.(sink := s.sink[(record.index, record.outputId) := record.document])
    case Drain(answer, sinkErr, now) => Draining(cfg, s, Verdicts(cfg, s.batch, answer, sinkErr, now))
    case GiveUpDrain => s.(batch := [])
    case Replay(filter, now) => s.(boxes := Replayed(s.boxes, ReplayIds(s.boxes.dead, filter), now).boxes)
    case Restart(rules) => Rebooted(s, rules)
  }

  /** A fresh engine on an empty store. */
  ghost function Initial(rules: seq<Rule>): State
  {
    State(map[], Boxes(map[], map[], 0), Booted(rules, map[]), map[], [], {}, map[], {}, map[], {}, {}, multiset{})
  }

  /** A finite run: every step enabled, every output ID new. */
  ghost predicate Runs(cfg: Config, s: State, steps: seq<Step>, end: State)
    decreases |steps|
  {
    if steps == [] then end == s
    else Enabled(cfg, s, steps[0]) && FreshIds(cfg, s, steps[0]) && Runs(cfg, Next(cfg, s, steps[0]), steps[1..], end)
  }
}
