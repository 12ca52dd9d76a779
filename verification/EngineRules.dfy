/** The rule half of a run: the registry counts exactly the open flows and in-flight calls that hold
    a version, so no version in use is reclaimed and no unused one survives its replacement. */
module EngineRules {
  import opened Rules
  import opened FlowModel
  import opened FlowDeadline
  import Registry
  import opened DueFlows
  import opened DeadLetterPaging
  import opened Sums
  import opened Engine
  import opened EngineFlows

  /** The references a call will still release. */
  function Tokens(c: Call): multiset<Reference>
  {
    match c
    case Candidate(rule, event) => multiset{ReferenceOf(rule)}
    case Owing(refs) => multiset(refs)
  }

  ghost function TokenMap(calls: map<nat, Call>): map<nat, multiset<Reference>>
  {
    map t | t in calls :: Tokens(calls[t])
  }

  ghost function Held(calls: map<nat, Call>): multiset<Reference>
  {
    Sum(TokenMap(calls))
  }

  /** Who needs a version: flows pinned to it, and calls that have retained it. */
  ghost function Needed(s: State): multiset<Reference>
  {
    Pinned(s.flows) + Held(s.calls)
  }

  ghost predicate Counts(g: Registry.Registry, needed: multiset<Reference>)
  {
    forall ref :: Registry.Holders(g, ref) == needed[ref]
  }

  predicate Available(s: State)
  {
    && (forall key :: key in s.home ==> key in s.flows && PinnedBy(s.flows[key]) in s.registry.versions)
    && (forall t :: t in s.calls && s.calls[t].Candidate? ==> ReferenceOf(s.calls[t].rule) in s.registry.versions)
  }

  ghost predicate RegistryHolds(s: State)
  {
    Registry.Tidy(s.registry) && Counts(s.registry, Needed(s)) && Available(s)
  }

  // ---------- how the sums move ----------

  lemma HeldSet(calls: map<nat, Call>, t: nat, c: Call)
    ensures Held(calls[t := c]) + (if t in calls then Tokens(calls[t]) else multiset{}) == Held(calls) + Tokens(c)
  {
    hide Sum, Tokens;
    assert TokenMap(calls[t := c]) == TokenMap(calls)[t := Tokens(c)];
    SumSwap(TokenMap(calls), t, Tokens(c));
  }

  lemma HeldDrop(calls: map<nat, Call>, t: nat)
    requires t in calls
    ensures Held(calls - {t}) + Tokens(calls[t]) == Held(calls)
  {
    hide Sum, Tokens;
    assert TokenMap(calls - {t}) == TokenMap(calls) - {t};
    SumRemove(TokenMap(calls), t);
  }

  lemma PinnedSet(flows: Flows, key: FlowKey, f: Flow)
    ensures Pinned(flows[key := f]) + (if key in flows then multiset{PinnedBy(flows[key])} else multiset{})
         == Pinned(flows) + multiset{PinnedBy(f)}
  {
    hide Sum, PinMap, PinnedBy;
    PinMapSet(flows, key, f);
    SumSwap(PinMap(flows), key, multiset{PinnedBy(f)});
  }

  lemma PinMapSet(flows: Flows, key: FlowKey, f: Flow)
    ensures PinMap(flows[key := f]) == PinMap(flows)[key := multiset{PinnedBy(f)}]
    ensures key in PinMap(flows) <==> key in flows
    ensures key in flows ==> PinMap(flows)[key] == multiset{PinnedBy(flows[key])}
  {
    hide PinnedBy;
  }

  lemma PinnedDrop(flows: Flows, key: FlowKey)
    ensures Pinned(flows - {key}) + (if key in flows then multiset{PinnedBy(flows[key])} else multiset{}) ==
            Pinned(flows)
  {
    hide Sum, PinMap, PinnedBy;
    PinMapDrop(flows, key);
    if key in flows {
      SumRemove(PinMap(flows), key);
    } else {
      assert flows - {key} == flows;
    }
  }

  lemma PinMapDrop(flows: Flows, key: FlowKey)
    ensures PinMap(flows - {key}) == PinMap(flows) - {key}
    ensures key in PinMap(flows) <==> key in flows
    ensures key in flows ==> PinMap(flows)[key] == multiset{PinnedBy(flows[key])}
  {
    hide PinnedBy;
  }

  /** A pinned version and a retained candidate are needed. */
  lemma FlowNeeds(s: State, key: FlowKey)
    requires key in s.flows
    ensures Needed(s)[PinnedBy(s.flows[key])] > 0
  {
    hide Sum, PinnedBy;
    SumHas(PinMap(s.flows), key, PinnedBy(s.flows[key]));
  }

  lemma CallNeeds(s: State, t: nat, ref: Reference)
    requires t in s.calls && ref in Tokens(s.calls[t])
    ensures Needed(s)[ref] > 0
  {
    hide Sum, Tokens;
    SumHas(TokenMap(s.calls), t, ref);
  }

  // ---------- availability ----------

  predicate NoNewCandidate(calls: map<nat, Call>, before: map<nat, Call>)
  {
    forall t :: t in calls && calls[t].Candidate? ==> t in before && before[t] == calls[t]
  }

  /** When a step drops no version that is still needed, everything stays available. */
  lemma StillAvailable(s: State, s': State)
    requires Available(s) && s'.flows == s.flows && s'.home == s.home && NoNewCandidate(s'.calls, s.calls)
    requires forall ref :: ref in s.registry.versions && Needed(s')[ref] > 0 ==> ref in s'.registry.versions
    ensures Available(s')
  {
    hide Needed;
    forall key | key in s'.home ensures key in s'.flows && PinnedBy(s'.flows[key]) in s'.registry.versions {
      FlowNeeds(s', key);
    }
    forall t | t in s'.calls && s'.calls[t].Candidate? ensures ReferenceOf(s'.calls[t].rule) in s'.registry.versions {
      CallNeeds(s', t, ReferenceOf(s'.calls[t].rule));
    }
  }

  // ---------- Begin, Refuse, Release, Publish, Restart ----------

  lemma BeginKeepsRegistry(s: State, t: nat, e: Event)
    requires RegistryHolds(s) && t !in s.calls
    ensures RegistryHolds(Begun(s, t, e))
  {
    hide RegistryHolds, Registry.Matches;
    var r := Registry.FirstMatch(s.registry.current, e.doc.body);
    if r.Some? {
      RetainKeepsRegistry(s, t, r.value, e);
    }
  }

  lemma RetainKeepsRegistry(s: State, t: nat, r: Rule, e: Event)
    requires RegistryHolds(s) && t !in s.calls && r in s.registry.current
    ensures RegistryHolds(s.(registry := Registry.Retained(s.registry, ReferenceOf(r)),
            calls := s.calls[t := Candidate(r, e)]))
  {
    hide Needed, PinnedBy, Registry.Tidy;
    Registry.RetainKeeps(s.registry, ReferenceOf(r));
    CurrentIsKnown(s.registry, r);
    OneTokenMore(s, Registry.Retained(s.registry, ReferenceOf(r)), t, r, e);
  }

  lemma OneTokenMore(s: State, g: Registry.Registry, t: nat, r: Rule, e: Event)
    requires t !in s.calls
    ensures Needed(s.(registry := g, calls := s.calls[t := Candidate(r, e)])) == Needed(s) + multiset{ReferenceOf(r)}
  {
    hide Pinned, Held, ReferenceOf;
    HeldSet(s.calls, t, Candidate(r, e));
    assert Held(s.calls[t := Candidate(r, e)]) == Held(s.calls) + multiset{ReferenceOf(r)};
  }

  lemma CurrentIsKnown(g: Registry.Registry, r: Rule)
    requires Registry.Tidy(g) && r in g.current
    ensures ReferenceOf(r) in g.versions
  {
    var i :| 0 <= i < |g.current| && g.current[i] == r;
    assert Registry.IsCurrent(g.current, ReferenceOf(r));
  }

  /** The call's tokens change hands without changing in number. */
  lemma RefuseKeepsRegistry(s: State, t: nat)
    requires RegistryHolds(s) && t in s.calls && s.calls[t].Candidate?
    ensures RegistryHolds(Refused(s, t, s.calls[t].rule))
  {
    hide Pinned, Held, PinnedBy, Registry.Tidy;
    var c := Owing([ReferenceOf(s.calls[t].rule)]);
    assert Tokens(c) == Tokens(s.calls[t]);
    HeldSet(s.calls, t, c);
    Cancel(Held(s.calls[t := c]), Held(s.calls), Tokens(c));
  }

  lemma FinishedCallKeepsRegistry(s: State, t: nat)
    requires RegistryHolds(s) && t in s.calls && s.calls[t] == Owing([])
    ensures RegistryHolds(s.(calls := s.calls - {t}))
  {
    hide Pinned, Held, PinnedBy, Registry.Tidy;
    HeldDrop(s.calls, t);
    assert Held(s.calls - {t}) == Held(s.calls);
  }

  lemma OneTokenLess(s: State, t: nat, refs: seq<Reference>, g: Registry.Registry)
    requires t in s.calls && s.calls[t] == Owing(refs) && refs != []
    ensures Needed(s) == Needed(s.(registry := g, calls := s.calls[t := Owing(refs[1..])])) + multiset{refs[0]}
  {
    hide Pinned, Held;
    HeldSet(s.calls, t, Owing(refs[1..]));
    assert refs == [refs[0]] + refs[1..];
    assert multiset(refs) == multiset{refs[0]} + multiset(refs[1..]);
    var after := Held(s.calls[t := Owing(refs[1..])]);
    assert after + multiset{refs[0]} + multiset(refs[1..]) == Held(s.calls) + multiset(refs[1..]);
    Cancel(after + multiset{refs[0]}, Held(s.calls), multiset(refs[1..]));
  }

  lemma ReleaseOneKeepsRegistry(s: State, t: nat, refs: seq<Reference>)
    requires RegistryHolds(s) && t in s.calls && s.calls[t] == Owing(refs) && refs != []
    ensures RegistryHolds(ReleaseNext(s, t, refs))
  {
    hide Needed, Registry.Tidy, Registry.Released, Registry.Holders, Registry.IsCurrent, Available;
    var ref, s' := refs[0], ReleaseNext(s, t, refs);
    CallNeeds(s, t, ref);
    OneTokenLess(s, t, refs, s'.registry);
    Registry.ReleaseKeeps(s.registry, ref);
    assert Registry.Holders(s.registry, ref) == Needed(s)[ref];
    assert Counts(s'.registry, Needed(s'));
    assert NoNewCandidate(s'.calls, s.calls);
    StillAvailable(s, s');
  }

  lemma PublishKeepsRegistry(s: State, rules: seq<Rule>)
    requires RegistryHolds(s)
    ensures RegistryHolds(s.(registry := Registry.Published(s.registry, rules)))
  {
    hide Needed, Registry.Tidy, Registry.Published, Registry.Holders, Available;
    var s' := s.(registry := Registry.Published(s.registry, rules));
    Registry.PublishKeeps(s.registry, rules);
    assert Needed(s') == Needed(s) by { SameNeeds(s, s'); }
    assert NoNewCandidate(s'.calls, s.calls);
    assert forall ref :: Registry.Holders(s.registry, ref) == Needed(s)[ref];
    StillAvailable(s, s');
  }

  lemma SameNeeds(s: State, s': State)
    requires s'.flows == s.flows && s'.calls == s.calls
    ensures Needed(s') == Needed(s)
  {
    hide Pinned, Held;
  }

  lemma BootedCounts(rules: seq<Rule>, flows: Flows)
    ensures Registry.Tidy(Booted(rules, flows)) && Counts(Booted(rules, flows), Pinned(flows))
  {
    hide Pinned, Registry.IsCurrent, Registry.VersionsOf;
  }

  lemma RestartKeepsRegistry(s: State, rules: seq<Rule>)
    ensures RegistryHolds(Rebooted(s, rules))
  {
    hide Booted, Pinned, PinnedBy, Registry.Tidy;
    BootedCounts(rules, s.flows);
    NoneHeld();
    assert Needed(Rebooted(s, rules)) == Pinned(s.flows);
  }

  lemma NoneHeld()
    ensures Held(map[]) == multiset{}
  {
    assert TokenMap(map[]) == map[];
  }

  // ---------- Accept and Sweep ----------

  lemma DecisionPins(s: State, rule: Rule, e: Event, key: FlowKey, now: Time)
    requires key.ruleId == rule.id
    ensures
      var d := Decide(s, rule, e, key, now);
      PinnedBy(Considered(d.flow, d.used, now)) == if key in s.flows then PinnedBy(s.flows[key]) else ReferenceOf(rule)
  {
    hide Applied, IsDuplicate, CloseReason, Considered, UsedRule;
    var f, d := Loaded(s, rule, e, key), Decide(s, rule, e, key, now);
    ApplyLeavesDeadline(f, e, d.used, now);
    ConsideredMovesDeadline(d.flow, d.used, now);
  }

  /** A saved flow takes over the candidate's token exactly when the call opened it. */
  lemma SaveMovesToken(s: State, t: nat, rule: Rule, g: Flow, key: FlowKey)
    requires t in s.calls && Tokens(s.calls[t]) == multiset{ReferenceOf(rule)}
    requires PinnedBy(g) == if key in s.flows then PinnedBy(s.flows[key]) else ReferenceOf(rule)
    ensures
      var c := Owing(if key in s.flows then [ReferenceOf(rule)] else []);
      Pinned(s.flows[key := g]) + Held(s.calls[t := c]) == Needed(s)
  {
    hide Pinned, Held, PinnedBy, ReferenceOf, Tokens;
    var ref := ReferenceOf(rule);
    PinnedSet(s.flows, key, g);
    if key in s.flows {
      var c := Owing([ref]);
      assert Tokens(c) == multiset{ref} by { TokensOfOne(ref); }
      HeldSet(s.calls, t, c);
      Cancel(Held(s.calls[t := c]), Held(s.calls), multiset{ref});
      Cancel(Pinned(s.flows[key := g]), Pinned(s.flows), multiset{PinnedBy(g)});
    } else {
      assert Tokens(Owing([])) == multiset{} by { TokensOfNone(); }
      HeldSet(s.calls, t, Owing([]));
      var after := Held(s.calls[t := Owing([])]);
      assert after + multiset{ref} == Held(s.calls);
      assert Pinned(s.flows[key := g]) == Pinned(s.flows) + multiset{ref};
      assert (Pinned(s.flows) + multiset{ref}) + after == Pinned(s.flows) + (after + multiset{ref});
    }
  }

  lemma TokensOfOne(ref: Reference)
    ensures Tokens(Owing([ref])) == multiset{ref}
  {
  }

  lemma TokensOfNone()
    ensures Tokens(Owing([])) == multiset{}
  {
  }

  /** A closed flow hands its token to the call that closed it. */
  lemma CloseMovesToken(s: State, t: nat, key: FlowKey, c: Call)
    requires
      var was := if t in s.calls then Tokens(s.calls[t]) else multiset{};
      Tokens(c) == was + if key in s.flows then multiset{PinnedBy(s.flows[key])} else multiset{}
    ensures Pinned(s.flows - {key}) + Held(s.calls[t := c]) == Needed(s)
  {
    hide Pinned, Held, PinnedBy, Tokens;
    PinnedDrop(s.flows, key);
    HeldSet(s.calls, t, c);
    var was := if t in s.calls then Tokens(s.calls[t]) else multiset{};
    var pin := if key in s.flows then multiset{PinnedBy(s.flows[key])} else multiset{};
    var after := Held(s.calls[t := c]);
    assert after + was == (Held(s.calls) + pin) + was;
    Cancel(after, Held(s.calls) + pin, was);
    assert Pinned(s.flows - {key}) + (Held(s.calls) + pin) == (Pinned(s.flows - {key}) + pin) + Held(s.calls);
  }

  lemma CloseKeepsRegistry(s: State, s': State, t: nat, key: FlowKey, refs: seq<Reference>)
    requires RegistryHolds(s) && s'.registry == s.registry
    requires s'.flows == s.flows - {key} && s'.home == s.home - {key} && s'.calls == s.calls[t := Owing(refs)]
    requires
      var was := if t in s.calls then Tokens(s.calls[t]) else multiset{};
      multiset(refs) == was + if key in s.flows then multiset{PinnedBy(s.flows[key])} else multiset{}
    ensures RegistryHolds(s')
  {
    hide Pinned, Held, PinnedBy, Registry.Tidy;
    CloseMovesToken(s, t, key, Owing(refs));
    assert Needed(s') == Needed(s);
  }

  lemma SaveKeepsRegistry(s: State, s': State, t: nat, rule: Rule, key: FlowKey, g: Flow)
    requires RegistryHolds(s) && s'.registry == s.registry && t in s.calls && s.calls[t].Candidate?
    requires s.calls[t].rule == rule
    requires PinnedBy(g) == if key in s.flows then PinnedBy(s.flows[key]) else ReferenceOf(rule)
    requires s'.flows == s.flows[key := g] && s'.home == if key in s.flows then s.home else s.home + {key}
    requires s'.calls == s.calls[t := Owing(if key in s.flows then [ReferenceOf(rule)] else [])]
    ensures RegistryHolds(s')
  {
    hide Pinned, Held, PinnedBy, Registry.Tidy;
    SaveMovesToken(s, t, rule, g, key);
    assert Needed(s') == Needed(s);
  }

  lemma AcceptKeepsRegistry(cfg: Config, s: State, t: nat, now: Time)
    requires RegistryHolds(s) && FlowsHold(cfg, s) && t in s.calls && s.calls[t].Candidate?
    ensures RegistryHolds(Accepting(cfg, s, t, s.calls[t].rule, s.calls[t].event, now))
  {
    hide RegistryHolds, FlowsHold, Decide, KeyOfEvent, PinnedBy, Considered, OutputOf, TargetOf, UsedRule;
    var rule, e := s.calls[t].rule, s.calls[t].event;
    KeyIsOfRule(rule, e);
    match KeyOfEvent(rule, e)
    case None => RefuseKeepsRegistry(s, t);
    case Some(key) =>
      var d := Decide(s, rule, e, key, now);
      DecideFacts(s, rule, e, key, now);
      var s' := AcceptCommitted(cfg, s, t, rule, e, d, now);
      if d.reason.None? {
        DecisionPins(s, rule, e, key, now);
        SaveKeepsRegistry(s, s', t, rule, key, Considered(d.flow, d.used, now));
      } else {
        if key in s.flows {
          PinIsUsed(cfg, s, key);
        }
        OwedTokens(s, t, rule, key, d);
        CloseKeepsRegistry(s, s', t, key, OwedAfter(d, ReferenceOf(rule)));
      }
  }

  lemma OwedTokens(s: State, t: nat, rule: Rule, key: FlowKey, d: Decision)
    requires t in s.calls && s.calls[t].Candidate? && s.calls[t].rule == rule
    requires d.reason.Some? && d.isNew == (key !in s.flows)
    requires key in s.flows ==> ReferenceOf(d.used) == PinnedBy(s.flows[key])
    ensures multiset(OwedAfter(d, ReferenceOf(rule)))
         == Tokens(s.calls[t]) + if key in s.flows then multiset{PinnedBy(s.flows[key])} else multiset{}
  {
    hide PinnedBy, ReferenceOf;
  }

  lemma PinIsUsed(cfg: Config, s: State, key: FlowKey)
    requires FlowsHold(cfg, s) && key in s.flows
    ensures ReferenceOf(UsedRule(s.registry, s.flows[key])) == PinnedBy(s.flows[key])
  {
    hide WellFormed, Saved, VersionsHold, CandidatesHold, UsedRule, PinnedBy;
    UsedRuleIsVersioned(cfg, s.registry, key, s.flows[key]);
    FormAgrees(cfg, key, s.flows[key]);
  }

  lemma SweepKeepsRegistry(cfg: Config, s: State, t: nat, key: FlowKey, now: Time)
    requires RegistryHolds(s) && key in s.flows && t !in s.calls
    ensures RegistryHolds(SweepOne(cfg, s, t, key, now))
  {
    hide RegistryHolds, OutputOf, TargetOf, UsedRule, OutcomeOf, PinnedBy;
    CloseKeepsRegistry(s, SweepOne(cfg, s, t, key, now), t, key, [PinnedBy(s.flows[key])]);
  }

  // ---------- every step ----------

  lemma OtherBoxes(s: State, s': State)
    requires RegistryHolds(s) && s'.flows == s.flows && s'.registry == s.registry && s'.calls == s.calls
    requires s'.home == s.home
    ensures RegistryHolds(s')
  {
    hide Needed, Registry.Tidy;
    SameNeeds(s, s');
  }

  lemma StepKeepsRegistry(cfg: Config, s: State, step: Step)
    requires RegistryHolds(s) && FlowsHold(cfg, s) && Enabled(cfg, s, step)
    ensures RegistryHolds(Next(cfg, s, step))
  {
    hide RegistryHolds, FlowsHold, OutputOf, Carries, Truthful, AllReady, AllVersioned, Begun, Accepting, SweepOne,
      Draining, Replayed, ReplayIds, Rebooted, Registry.Published, Registry.Released;
    match step
    case Begin(t, e) => BeginKeepsRegistry(s, t, e);
    case Accept(t, now) => AcceptKeepsRegistry(cfg, s, t, now);
    case Refuse(t) => RefuseKeepsRegistry(s, t);
    case Release(t) =>
      if s.calls[t].refs == [] {
        FinishedCallKeepsRegistry(s, t);
      } else {
        ReleaseOneKeepsRegistry(s, t, s.calls[t].refs);
      }
    case Publish(rules) => PublishKeepsRegistry(s, rules);
    case Sweep(t, key, now) => SweepKeepsRegistry(cfg, s, t, key, now);
    case Drain(answer, sinkErr, now) =>
      DrainTouchesBoxes(cfg, s, Verdicts(cfg, s.batch, answer, sinkErr, now));
      OtherBoxes(s, Next(cfg, s, step));
    case Restart(rules) => RestartKeepsRegistry(s, rules);
    case _ => OtherBoxes(s, Next(cfg, s, step));
  }
}
