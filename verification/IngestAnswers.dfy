/** What the answer to an accepted event tells about the store. */
module IngestAnswers {
  import opened ByteText
  import opened Rules
  import opened FlowModel
  import opened FlowAccounting
  import opened FlowDeadline
  import Registry
  import opened Outbox
  import opened Engine
  import opened EngineFlows
  import opened Ingest

  /** The events and duplicates of the flow of a key, none if it is not open. */
  function EventsAt(s: State, key: FlowKey): seq<Event>
  {
    if key in s.flows then s.flows[key].events else []
  }

  function DuplicatesAt(s: State, key: FlowKey): nat
  {
    if key in s.flows then s.flows[key].duplicateCount else 0
  }

  /** The output ID the flow of this key would close under. */
  function IdAt(cfg: Config, s: State, e: Event, key: FlowKey): OutputId
  {
    var first := if key in s.flows then s.flows[key].firstObservedAt else e.observedAt;
    cfg.idOf(key.ruleId, key.correlationKey, first)
  }

  // ---------- what the transaction writes ----------

  lemma DecisionWrites(s: State, rule: Rule, e: Event, key: FlowKey, now: Time)
    ensures
      var d := Decide(s, rule, e, key, now);
      var g := Considered(d.flow, d.used, now);
      && d.key == key && d.isNew == (key !in s.flows)
      && g.events == d.flow.events == (if d.duplicate then EventsAt(s, key) else EventsAt(s, key) + [e])
      && g.duplicateCount == DuplicatesAt(s, key) + (if d.duplicate then 1 else 0)
      && (d.isNew ==> !d.duplicate)
      && d.flow.firstObservedAt == (if key in s.flows then s.flows[key].firstObservedAt else e.observedAt)
  {
    hide Applied, CloseReason, Considered, UsedRule, SlotOf, Identity;
    var f, d := Loaded(s, rule, e, key), Decide(s, rule, e, key, now);
    ApplyCounts(f, e, d.used, now);
    ApplyLeavesDeadline(f, e, d.used, now);
    ConsideredMovesDeadline(d.flow, d.used, now);
  }

  /** The event is in the flow of its key, once more than before. */
  predicate Joined(s: State, s': State, e: Event, key: FlowKey)
  {
    key in s'.flows && s'.flows[key].events == EventsAt(s, key) + [e]
  }

  /** The flow counts one duplicate more and holds what it held. */
  predicate Repeated(s: State, s': State, key: FlowKey)
  {
    && key in s'.flows && s'.flows[key].events == EventsAt(s, key)
    && s'.flows[key].duplicateCount == DuplicatesAt(s, key) + 1
  }

  /** The flow is gone and its document waits, with this reason. */
  predicate Filed(cfg: Config, s: State, s': State, e: Event, key: FlowKey, reason: Reason, now: Time)
  {
    var id := IdAt(cfg, s, e, key);
    && key !in s'.flows && id in s'.boxes.records
    && var document := s'.boxes.records[id].document;
    && document.reason == reason && document.finalizedAt == now
    && (document.flow.events == EventsAt(s, key) + [e] || document.flow.events == EventsAt(s, key))
  }

  /** Flows of other keys, other records and the dead letters are untouched. */
  predicate OthersKept(cfg: Config, s: State, s': State, e: Event, key: FlowKey)
  {
    && s'.flows - {key} == s.flows - {key} && s'.boxes.dead == s.boxes.dead
    && s'.boxes.records - {IdAt(cfg, s, e, key)} == s.boxes.records - {IdAt(cfg, s, e, key)}
  }

  /** A committed transaction answers by what it wrote. */
  lemma CommitAnswers(cfg: Config, s: State, t: nat, rule: Rule, e: Event, key: FlowKey, now: Time)
    ensures
      var d := Decide(s, rule, e, key, now);
      var s', o := AcceptCommitted(cfg, s, t, rule, e, d, now), OutcomeFor(d);
      && OthersKept(cfg, s, s', e, key)
      && (o == Correlated <==> Joined(s, s', e, key))
      && (o == Duplicate <==> Repeated(s, s', key))
      && (o.Finalized? <==> key !in s'.flows)
      && (o.Finalized? ==> Filed(cfg, s, s', e, key, o.reason, now))
      && o != Quarantined && o != Unavailable
  {
    hide Decide, Considered, OwedAfter;
    DecisionWrites(s, rule, e, key, now);
    var d := Decide(s, rule, e, key, now);
    assert |EventsAt(s, key) + [e]| == |EventsAt(s, key)| + 1;
    if d.reason.Some? {
      assert OutputOf(cfg, key, d.flow) == IdAt(cfg, s, e, key);
    }
  }

  // ---------- what the call leaves ----------

  /** Nothing the caller could see has changed: flows, boxes, current rules, versions and holders. */
  predicate Undisturbed(s: State, s': State)
  {
    && s'.flows == s.flows && s'.boxes == s.boxes
    && s'.registry.current == s.registry.current && s'.registry.versions == s.registry.versions
  }

  lemma RetainThenRelease(g: Registry.Registry, r: Rule)
    requires r in g.current
    ensures
      var g' := Registry.Released(Registry.Retained(g, ReferenceOf(r)), ReferenceOf(r));
      && g'.current == g.current && g'.versions == g.versions
      && forall ref :: Registry.Holders(g', ref) == Registry.Holders(g, ref)
  {
    var i :| 0 <= i < |g.current| && g.current[i] == r;
    assert Registry.IsCurrent(g.current, ReferenceOf(r));
  }

  lemma RefusalLeavesAll(s: State, t: nat, e: Event, r: Rule)
    requires Registry.FirstMatch(s.registry.current, e.doc.body) == Some(r)
    ensures
      var refused := Refused(Begun(s, t, e), t, r);
      var s' := ReleaseAll(refused, t, RefsOwed(refused, t));
      Undisturbed(s, s') && forall ref :: Registry.Holders(s'.registry, ref) == Registry.Holders(s.registry, ref)
  {
    hide Registry.FirstMatch, Registry.Released, Registry.Retained, ReleaseAll, RefsOwed, Registry.Holders;
    RefusalReleases(Begun(s, t, e), t, r);
    RetainThenRelease(s.registry, r);
  }

  /** An event no rule takes is quarantined, and one whose call did not go through is refused; either way the
      store, the rules and every version's holders are as they were. */
  lemma RefusalsChangeNothing(cfg: Config, s: State, t: nat, e: Event, commits: bool, now: Time)
    requires Registry.FirstMatch(s.registry.current, e.doc.body).None? || !commits
    ensures
      var s', o := Session(cfg, s, t, e, commits, now), SessionOutcome(s, t, e, commits, now);
      && Undisturbed(s, s') && (forall ref :: Registry.Holders(s'.registry, ref) == Registry.Holders(s.registry, ref))
      && o == if Registry.FirstMatch(s.registry.current, e.doc.body).None? then Quarantined else Unavailable
  {
    hide Registry.FirstMatch, Registry.Released, Registry.Retained, ReleaseAll, RefsOwed, Decide, KeyOfEvent, Begun,
      Registry.Holders;
    var r := Registry.FirstMatch(s.registry.current, e.doc.body);
    if r.Some? {
      MatchedSession(cfg, s, t, e, r.value, commits, now);
      RefusalLeavesAll(s, t, e, r.value);
    }
  }

  /** A call that goes through answers by the store it leaves: correlated exactly when the event has joined the
      flow of its key, duplicate exactly when that flow only counts one more repeat, finalized exactly when the
      flow is gone, its document then waiting with the reason the answer names. */
  lemma AnswersTell(cfg: Config, s: State, t: nat, e: Event, r: Rule, key: FlowKey, now: Time)
    requires Registry.FirstMatch(s.registry.current, e.doc.body) == Some(r) && KeyOfEvent(r, e) == Some(key)
    ensures
      var s', o := Session(cfg, s, t, e, true, now), SessionOutcome(s, t, e, true, now);
      && OthersKept(cfg, s, s', e, key)
      && (o == Correlated <==> Joined(s, s', e, key))
      && (o == Duplicate <==> Repeated(s, s', key))
      && (o.Finalized? <==> key !in s'.flows)
      && (o.Finalized? ==> Filed(cfg, s, s', e, key, o.reason, now))
      && o != Quarantined && o != Unavailable
  {
    hide Registry.FirstMatch, Registry.Released, Registry.Retained, ReleaseAll, RefsOwed, Decide, KeyOfEvent,
      AcceptCommitted, OwedAfter, OutcomeFor, Registry.ReleasedFrom;
    var begun := Begun(s, t, e);
    var d := Decide(begun, r, e, key, now);
    var committed := AcceptCommitted(cfg, begun, t, r, e, d, now);
    MatchedSession(cfg, s, t, e, r, true, now);
    CommitReleases(cfg, begun, t, r, e, key, now);
    ReleasedCore(committed, t, RefsOwed(committed, t));
    CommitAnswers(cfg, begun, t, r, e, key, now);
    SameStore(cfg, s, begun, committed, Session(cfg, s, t, e, true, now), e, key, now);
  }

  /** The predicates above read flows and boxes only. */
  lemma SameStore(cfg: Config, s: State, begun: State, committed: State, s': State, e: Event, key: FlowKey, now: Time)
    requires begun.flows == s.flows && begun.boxes == s.boxes
    requires s'.flows == committed.flows && s'.boxes == committed.boxes
    ensures OthersKept(cfg, begun, committed, e, key) <==> OthersKept(cfg, s, s', e, key)
    ensures Joined(begun, committed, e, key) <==> Joined(s, s', e, key)
    ensures Repeated(begun, committed, key) <==> Repeated(s, s', key)
    ensures
      forall reason :: Filed(cfg, begun, committed, e, key, reason, now) <==> Filed(cfg, s, s', e, key, reason, now)
  {
  }
}
