/** Accepting one event (internal/application/ingest/service.go): the transaction, and the retain and
    release calls around it, carried out on the registry, store and flow objects. Each call is a
    session of engine steps. */
module Ingest {
  import opened ByteText
  import opened PathLanguage
  import opened Rules
  import opened FlowModel
  import opened FlowAccounting
  import opened FlowDeadline
  import opened FlowAggregate
  import opened FlowOrder
  import Registry
  import opened DueFlows
  import opened Outbox
  import MemoryStore
  import opened Engine
  import opened EngineDelivery
  import opened EngineFlows
  import opened EngineEvents
  import opened EngineRules
  import opened EngineRuns

  // ---------- the session of one call ----------

  function ReleaseAll(s: State, t: nat, refs: seq<Reference>): State
    decreases |refs|
  {
    var s' := ReleaseNext(s, t, refs);
    if refs == [] then s' else ReleaseAll(s', t, refs[1..])
  }

  function RefsOwed(s: State, t: nat): seq<Reference>
  {
    if t in s.calls && s.calls[t].Owing? then s.calls[t].refs else []
  }

  /** The state once the candidate's transaction has committed, failed or was never tried. */
  function Decided(cfg: Config, s: State, t: nat, r: Rule, e: Event, commits: bool, now: Time): State
  {
    if commits then Accepting(cfg, s, t, r, e, now) else Refused(s, t, r)
  }

  function Session(cfg: Config, s: State, t: nat, e: Event, commits: bool, now: Time): State
  {
    match Registry.FirstMatch(s.registry.current, e.doc.body)
    case None => s
    case Some(r) =>
      var decided := Decided(cfg, Begun(s, t, e), t, r, e, commits, now);
      ReleaseAll(decided, t, RefsOwed(decided, t))
  }

  function Releases(t: nat, n: nat): (steps: seq<Step>)
    ensures |steps| == n
  {
    seq(n, i => Release(t))
  }

  lemma {:induction false} ReleasesRun(cfg: Config, s: State, t: nat, refs: seq<Reference>)
    requires t in s.calls && s.calls[t] == Owing(refs)
    ensures Runs(cfg, s, Releases(t, |refs| + 1), ReleaseAll(s, t, refs))
    decreases |refs|
  {
    hide Registry.Released;
    var steps := Releases(t, |refs| + 1);
    assert steps[0] == Release(t) && steps[1..] == Releases(t, |refs|);
    assert Enabled(cfg, s, steps[0]) && FreshIds(cfg, s, steps[0]);
    var s' := Next(cfg, s, steps[0]);
    assert s' == ReleaseNext(s, t, refs);
    if refs != [] {
      ReleasesRun(cfg, s', t, refs[1..]);
      assert |refs[1..]| + 1 == |refs|;
    } else {
      assert Runs(cfg, s', steps[1..], s');
    }
  }

  /** The steps one call takes when it is not interleaved with others. */
  function SessionSteps(cfg: Config, s: State, t: nat, e: Event, commits: bool, now: Time): seq<Step>
  {
    match Registry.FirstMatch(s.registry.current, e.doc.body)
    case None => [Begin(t, e)]
    case Some(r) =>
      var decided := Decided(cfg, Begun(s, t, e), t, r, e, commits, now);
      [Begin(t, e), if commits then Accept(t, now) else Refuse(t)] + Releases(t, |RefsOwed(decided, t)| + 1)
  }

  lemma DecidedOwes(cfg: Config, s: State, t: nat, r: Rule, e: Event, commits: bool, now: Time)
    ensures
      var decided := Decided(cfg, s, t, r, e, commits, now);
      t in decided.calls && decided.calls[t] == Owing(RefsOwed(decided, t))
  {
    hide Decide, KeyOfEvent, OwedAfter, OutputOf, TargetOf, Considered;
  }

  /** A session is a run of the engine: its results are covered by everything proved of runs. */
  lemma SessionRuns(cfg: Config, s: State, t: nat, e: Event, commits: bool, now: Time)
    requires t !in s.calls && Representable(now)
    requires
      var r := Registry.FirstMatch(s.registry.current, e.doc.body);
      commits && r.Some? ==> FreshAccept(cfg, Begun(s, t, e), r.value, e, now)
    ensures Runs(cfg, s, SessionSteps(cfg, s, t, e, commits, now), Session(cfg, s, t, e, commits, now))
  {
    hide Accepting, FreshAccept, Registry.Retained, ReleaseAll;
    var steps, end := SessionSteps(cfg, s, t, e, commits, now), Session(cfg, s, t, e, commits, now);
    var begun := Begun(s, t, e);
    assert steps[0] == Begin(t, e) && Enabled(cfg, s, steps[0]) && FreshIds(cfg, s, steps[0]);
    assert Next(cfg, s, steps[0]) == begun;
    var r := Registry.FirstMatch(s.registry.current, e.doc.body);
    if r.None? {
      assert Runs(cfg, begun, steps[1..], end);
    } else {
      var decided := Decided(cfg, begun, t, r.value, e, commits, now);
      DecidedOwes(cfg, begun, t, r.value, e, commits, now);
      var refs := RefsOwed(decided, t);
      ReleasesRun(cfg, decided, t, refs);
      SecondStep(cfg, begun, t, r.value, e, commits, now, refs, end);
      assert steps[1..] == [if commits then Accept(t, now) else Refuse(t)] + Releases(t, |refs| + 1);
    }
  }

  lemma SecondStep(cfg: Config, s: State, t: nat, r: Rule, e: Event, commits: bool, now: Time, refs: seq<Reference>,
                   end: State)
    requires t in s.calls && s.calls[t] == Candidate(r, e) && Representable(now)
    requires commits ==> FreshAccept(cfg, s, r, e, now)
    requires Runs(cfg, Decided(cfg, s, t, r, e, commits, now), Releases(t, |refs| + 1), end)
    ensures Runs(cfg, s, [if commits then Accept(t, now) else Refuse(t)] + Releases(t, |refs| + 1), end)
  {
    hide Accepting, FreshAccept;
    var step := if commits then Accept(t, now) else Refuse(t);
    var steps := [step] + Releases(t, |refs| + 1);
    assert steps[0] == step && steps[1..] == Releases(t, |refs| + 1);
    assert Enabled(cfg, s, step) && FreshIds(cfg, s, step);
    assert Next(cfg, s, step) == Decided(cfg, s, t, r, e, commits, now);
  }

  // ---------- the call itself ----------

  datatype Outcome = Correlated | Finalized(reason: Reason) | Duplicate | Quarantined | Unavailable

  /** What the transaction reports back to the call. */
  datatype Report = Report(isNew: bool, finalized: Option<Reference>, outcome: Outcome)

  function OutcomeFor(d: Decision): Outcome
  {
    match d.reason
    case Some(reason) => Finalized(reason)
    case None => if d.duplicate then Duplicate else Correlated
  }

  function ReportOf(d: Decision): Report
  {
    Report(d.isNew, if d.reason.Some? then Some(ReferenceOf(d.used)) else None, OutcomeFor(d))
  }

  /** What the caller is told. */
  function SessionOutcome(s: State, t: nat, e: Event, commits: bool, now: Time): Outcome
  {
    match Registry.FirstMatch(s.registry.current, e.doc.body)
    case None => Quarantined
    case Some(r) =>
      var key := KeyOfEvent(r, e);
      if key.None? || !commits then Unavailable else OutcomeFor(Decide(Begun(s, t, e), r, e, key.value, now))
  }

  /** Stored flows can be decoded: no two invocations share an identity. */
  predicate Decodable(flows: Flows)
  {
    forall key :: key in flows ==> DistinctIdentities(flows[key].invocations)
  }

  lemma StoredIsDecodable(cfg: Config, s: State)
    requires FlowsHold(cfg, s)
    ensures Decodable(s.flows)
  {
    hide Versioned, Saved, DeadlineAgrees, Balanced, AllExact, VersionsHold, CandidatesHold;
  }

  /** In every reachable state the objects mirror, Accept may be called, and what it leaves behind is
      reachable again. */
  lemma AcceptIsCallable(cfg: Config, rules: seq<Rule>, steps: seq<Step>, s: State, t: nat, e: Event, commits: bool,
                         now: Time)
    requires Reached(cfg, rules, steps, s) && t !in s.calls && Representable(now)
    requires
      var r := Registry.FirstMatch(s.registry.current, e.doc.body);
      commits && r.Some? ==> FreshAccept(cfg, Begun(s, t, e), r.value, e, now)
    ensures Decodable(s.flows)
    ensures
      var s' := Session(cfg, s, t, e, commits, now);
      Reached(cfg, rules, steps + SessionSteps(cfg, s, t, e, commits, now), s') && Decodable(s'.flows)
  {
    hide Reached, DeliveryHolds, FlowsHold, EventsHold, RegistryHolds, Session, SessionSteps, FreshAccept,
      Registry.FirstMatch, Decodable, Runs;
    ReachedHolds(cfg, rules, steps, s);
    StoredIsDecodable(cfg, s);
    SessionRuns(cfg, s, t, e, commits, now);
    var s', more := Session(cfg, s, t, e, commits, now), SessionSteps(cfg, s, t, e, commits, now);
    ReachedFurther(cfg, rules, steps, s, more, s');
    ReachedHolds(cfg, rules, steps + more, s');
    StoredIsDecodable(cfg, s');
  }

  /** A verdict that closes the flow leaves its settle window alone. */
  lemma ClosingMovesNothing(f: Flow, r: Rule, now: Time)
    requires CloseReason(f, r, now).Some?
    ensures Considered(f, r, now) == f
  {
    hide CloseCondition, AtLimit;
  }

  /** Apply and ShouldClose on the loaded object, and its encoded value afterwards. */
  method Advance(current: LiveFlow, e: Event, used: Rule, now: Time)
    returns (value: Flow, duplicate: bool, reason: Option<Reason>)
    requires current.Valid()
    modifies current, current.invocations
    ensures value == Considered(Applied(old(current.Value()), e, used, now), used, now)
    ensures duplicate == IsDuplicate(old(current.Value()), e, used)
    ensures reason == CloseReason(Applied(old(current.Value()), e, used, now), used, now)
  {
    hide Applied, Considered, CloseReason, IsDuplicate;
    duplicate := current.Apply(e, used, now);
    reason := current.ShouldClose(used, now);
    var raw := current.Encode();
    value := raw.body;
  }

  /** Gives back what the call no longer holds: the closed flow's version, and the candidate unless
      a flow it opened keeps it. */
  method Settle(registry: Registry.LiveRegistry, report: Report, candidate: Reference, ghost d: Decision)
    requires report == ReportOf(d)
    modifies registry
    ensures registry.State() == Registry.ReleasedFrom(old(registry.State()), OwedAfter(d, candidate))
  {
    hide Registry.Released;
    ghost var g := registry.State();
    var retainedCandidate := !(report.isNew && report.finalized.None?);
    if report.finalized.Some? && !report.isNew {
      registry.Release(report.finalized.value);
      assert Registry.ReleasedFrom(g, [report.finalized.value, candidate]) ==
          Registry.Released(registry.State(), candidate) by {
        ReleasedTwice(g, report.finalized.value, candidate);
      }
    }
    if retainedCandidate {
      ReleasedOnce(registry.State(), candidate);
      registry.Release(candidate);
    }
  }

  class Service {
    const cfg: Config
    const registry: Registry.LiveRegistry
    const store: MemoryStore.Store

    constructor (cfg: Config, registry: Registry.LiveRegistry, store: MemoryStore.Store)
      ensures this.cfg == cfg && this.registry == registry && this.store == store
    {
      this.cfg, this.registry, this.store := cfg, registry, store;
    }

    /** The objects hold what the engine state says. */
    ghost predicate Mirrors(s: State)
      reads registry, store
    {
      store.flows == s.flows && store.Contents() == s.boxes && registry.State() == s.registry
    }

    /** Finalize: enqueue, then delete. */
    method Finalize(f: Flow, key: FlowKey, r: Rule, reason: Reason, now: Time)
      modifies store`flows, store`records
      ensures store.flows == old(store.flows) - {key}
      ensures
        var id, target := OutputOf(cfg, key, f), TargetOf(cfg, f, r, reason, now);
        store.records == old(store.records)[id := NewRecord(id, target.index, target.document, now)]
    {
      var document := Payload(f, reason, now, cfg.sizeOf(f, reason, now));
      var outputId := cfg.idOf(key.ruleId, key.correlationKey, f.firstObservedAt);
      var index := cfg.indexOf(r, f, reason, now);
      store.records := store.records[outputId := NewRecord(outputId, index, document, now)];
      store.flows := store.flows - {key};
    }

    /** Loads or opens the flow, with the rule it is handled under. */
    method LoadOrOpen(rule: Rule, e: Event, key: FlowKey) returns (current: LiveFlow, used: Rule, isNew: bool)
      requires Decodable(store.flows)
      ensures fresh(current) && fresh(current.invocations) && current.Valid()
      ensures isNew == (key !in store.flows)
      ensures current.Value() == if isNew then Open(key, rule, e) else store.flows[key]
      ensures used == if isNew then rule else UsedRule(registry.State(), store.flows[key])
    {
      isNew, used := key !in store.flows, rule;
      if isNew {
        current := new LiveFlow(key, rule, e);
        return;
      }
      var stored := store.flows[key];
      current := new LiveFlow.Restore(stored);
      var pinned := registry.Get(PinnedBy(stored));
      used := if pinned.Some? then pinned.value else stored.pinnedRule;
    }

    /** The body of WithTx. */
    method Transact(rule: Rule, e: Event, key: FlowKey, now: Time, ghost s: State, ghost t: nat)
      returns (report: Report)
      requires Decodable(store.flows) && Mirrors(s)
      modifies store`flows, store`records
      ensures
        var d := Decide(s, rule, e, key, now);
        report == ReportOf(d) && Mirrors(AcceptCommitted(cfg, s, t, rule, e, d, now))
    {
      hide Applied, Considered, CloseReason, IsDuplicate, UsedRule, Open, OwedAfter, OutputOf, TargetOf;
      var current, used, isNew := LoadOrOpen(rule, e, key);
      var value, duplicate, reason := Advance(current, e, used, now);
      ghost var d := Decide(s, rule, e, key, now);
      assert d.used == used && d.isNew == isNew && d.duplicate == duplicate && d.reason == reason && d.key == key;
      assert value == Considered(d.flow, used, now);
      if reason.Some? {
        ClosingMovesNothing(d.flow, used, now);
        Finalize(value, key, used, reason.value, now);
        return Report(isNew, Some(ReferenceOf(used)), Finalized(reason.value));
      }
      store.flows := store.flows[key := value];
      return Report(isNew, None, if duplicate then Duplicate else Correlated);
    }

    /** The transaction publishes its changes only when it commits. */
    method WithTx(rule: Rule, e: Event, key: FlowKey, commits: bool, now: Time, ghost s: State, ghost t: nat)
      returns (report: Report)
      requires Decodable(store.flows) && Mirrors(s)
      modifies store`flows, store`records
      ensures report == ReportOf(Decide(s, rule, e, key, now))
      ensures Mirrors(if commits then AcceptCommitted(cfg, s, t, rule, e, Decide(s, rule, e, key, now), now) else s)
    {
      hide Decide, AcceptCommitted;
      var flows, records := store.flows, store.records;
      report := Transact(rule, e, key, now, s, t);
      if !commits {
        store.flows, store.records := flows, records;
      }
    }

    /** Accept. `accepting` is the capacity verdict, `commits` whether the transaction goes through. */
    method Accept(e: Event, accepting: bool, commits: bool, now: Time, ghost s: State, ghost t: nat)
      returns (outcome: Outcome)
      requires Decodable(store.flows) && Mirrors(s) && t !in s.calls
      modifies registry, store`flows, store`records
      ensures Mirrors(Session(cfg, s, t, e, accepting && commits, now))
      ensures outcome == SessionOutcome(s, t, e, accepting && commits, now)
    {
      hide Registry.FirstMatch, Registry.Released, Registry.Retained, ReleaseAll, Accepting, Session, Decide,
        KeyOfEvent;
      var configured := registry.MatchAndRetain(e.doc.body);
      if configured == None {
        UnmatchedSession(cfg, s, t, e, accepting && commits, now);
        return Quarantined;
      }
      var rule := configured.value;
      var candidate := ReferenceOf(rule);
      ghost var begun := Begun(s, t, e);
      ghost var decided := Decided(cfg, begun, t, rule, e, accepting && commits, now);
      MatchedSession(cfg, s, t, e, rule, accepting && commits, now);
      assert Mirrors(begun);
      if !accepting {
        registry.Release(candidate);
        RefusalReleases(begun, t, rule);
        return Unavailable;
      }
      outcome := Proceed(rule, e, commits, now, begun, t);
    }

    /** The rest of the call, with the candidate retained and capacity granted. */
    method Proceed(rule: Rule, e: Event, commits: bool, now: Time, ghost s: State, ghost t: nat)
      returns (outcome: Outcome)
      requires Decodable(store.flows) && Mirrors(s) && KeyOfEvent(rule, e).Some?
      modifies registry, store`flows, store`records
      ensures
        var decided := Decided(cfg, s, t, rule, e, commits, now);
        Mirrors(ReleaseAll(decided, t, RefsOwed(decided, t)))
      ensures outcome == if commits then OutcomeFor(Decide(s, rule, e, KeyOfEvent(rule, e).value, now)) else Unavailable
    {
      hide Registry.Released, ReleaseAll, Accepting, Decide, AcceptCommitted, OwedAfter, Registry.ReleasedFrom;
      var candidate := ReferenceOf(rule);
      var value := ResolvePath(rule.key, e.doc.body);
      assert value.Some? && value.value != "" && KeyOfEvent(rule, e) == Some(FlowKey(rule.id, value.value));
      var key := FlowKey(rule.id, value.value);
      var report := WithTx(rule, e, key, commits, now, s, t);
      if !commits {
        registry.Release(candidate);
        RefusalReleases(s, t, rule);
        return Unavailable;
      }
      ghost var d := Decide(s, rule, e, key, now);
      ghost var committed := AcceptCommitted(cfg, s, t, rule, e, d, now);
      CommitReleases(cfg, s, t, rule, e, key, now);
      Settle(registry, report, candidate, d);
      ReleasedCore(committed, t, OwedAfter(d, candidate));
      return report.outcome;
    }
  }

  // ---------- the session, case by case ----------

  lemma UnmatchedSession(cfg: Config, s: State, t: nat, e: Event, commits: bool, now: Time)
    requires Registry.FirstMatch(s.registry.current, e.doc.body).None?
    ensures Session(cfg, s, t, e, commits, now) == s
  {
    hide Registry.FirstMatch;
  }

  lemma MatchedSession(cfg: Config, s: State, t: nat, e: Event, r: Rule, commits: bool, now: Time)
    requires Registry.FirstMatch(s.registry.current, e.doc.body) == Some(r)
    ensures
      var decided := Decided(cfg, Begun(s, t, e), t, r, e, commits, now);
      Session(cfg, s, t, e, commits, now) == ReleaseAll(decided, t, RefsOwed(decided, t))
    ensures KeyOfEvent(r, e).Some?
  {
    hide Decided, Begun, ReleaseAll, RefsOwed;
  }

  lemma ReleasedOnce(g: Registry.Registry, a: Reference)
    ensures Registry.ReleasedFrom(g, [a]) == Registry.Released(g, a)
  {
    hide Registry.Released;
    assert [a][1..] == [];
  }

  lemma ReleasedTwice(g: Registry.Registry, a: Reference, b: Reference)
    ensures Registry.ReleasedFrom(g, [a, b]) == Registry.Released(Registry.Released(g, a), b)
  {
    hide Registry.Released;
    assert [a, b][1..] == [b];
    ReleasedOnce(Registry.Released(g, a), b);
  }

  lemma {:induction false} ReleasedCore(s: State, t: nat, refs: seq<Reference>)
    ensures
      var s' := ReleaseAll(s, t, refs);
      s'.flows == s.flows && s'.boxes == s.boxes && s'.registry == Registry.ReleasedFrom(s.registry, refs)
    decreases |refs|
  {
    hide Registry.Released;
    if refs != [] {
      ReleasedCore(ReleaseNext(s, t, refs), t, refs[1..]);
    }
  }

  lemma RefusalReleases(s: State, t: nat, r: Rule)
    ensures
      var refused := Refused(s, t, r);
      var s' := ReleaseAll(refused, t, RefsOwed(refused, t));
      s'.flows == s.flows && s'.boxes == s.boxes && s'.registry == Registry.Released(s.registry, ReferenceOf(r))
  {
    hide Registry.Released, ReleaseAll;
    var ref := ReferenceOf(r);
    ReleasedCore(Refused(s, t, r), t, [ref]);
    assert [ref][1..] == [];
  }

  lemma CommitReleases(cfg: Config, s: State, t: nat, rule: Rule, e: Event, key: FlowKey, now: Time)
    requires KeyOfEvent(rule, e) == Some(key)
    ensures
      var d := Decide(s, rule, e, key, now);
      var decided := Accepting(cfg, s, t, rule, e, now);
      decided == AcceptCommitted(cfg, s, t, rule, e, d, now) && RefsOwed(decided, t) == OwedAfter(d, ReferenceOf(rule))
  {
    hide Decide, KeyOfEvent, OwedAfter, OutputOf, TargetOf, Considered;
  }
}
