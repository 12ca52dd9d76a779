/** The timeout sweep of internal/application/expire/service.go over the durable store, whose index
    may hold stale and orphaned entries, and over the rule registry. */
module Sweep {
  import opened ByteText
  import opened Rules
  import opened FlowModel
  import opened FlowDeadline
  import Registry
  import opened DueFlows
  import opened Outbox
  import opened PebbleKeys
  import opened PebbleStore
  import PebbleTx
  import opened PebbleDelivery
  import Engine

  /** A flow the sweep closed, and why. */
  datatype Closed = Closed(key: FlowKey, flow: Flow, reason: Reason)

  function KeysClosed(closed: seq<Closed>): set<FlowKey>
  {
    set c | c in closed :: c.key
  }

  /** Every closed entry is a due flow of the start, once, with its outcome. */
  ghost predicate ClosedRightly(closed: seq<Closed>, flows: Flows, versions: map<Reference, Rule>, now: Time)
  {
    && |KeysClosed(closed)| == |closed|
    && forall c :: c in closed ==>
         c.key in DueSet(flows, now) && c.flow == flows[c.key] && c.reason == OutcomeOf(c.flow, versions, now)
  }

  lemma CloseOneMore(closed: seq<Closed>, c: Closed, flows: Flows, versions: map<Reference, Rule>, now: Time)
    requires ClosedRightly(closed, flows, versions, now) && c.key !in KeysClosed(closed)
    requires c.key in DueSet(flows, now) && c.flow == flows[c.key] && c.reason == OutcomeOf(c.flow, versions, now)
    ensures ClosedRightly(closed + [c], flows, versions, now)
    ensures KeysClosed(closed + [c]) == KeysClosed(closed) + {c.key}
  {
    hide DueSet, OutcomeOf;
    assert forall x :: x in closed + [c] <==> x in closed || x == c;
    assert KeysClosed(closed + [c]) == KeysClosed(closed) + {c.key};
  }

  lemma ClosedAreDue(closed: seq<Closed>, flows: Flows, versions: map<Reference, Rule>, now: Time)
    requires ClosedRightly(closed, flows, versions, now)
    ensures KeysClosed(closed) <= DueSet(flows, now) && |closed| <= |DueSet(flows, now)|
  {
    hide DueSet, OutcomeOf;
    SubsetIsSmaller(KeysClosed(closed), DueSet(flows, now));
  }

  /** Every closed flow was past its deadline, and is filed as rule_unavailable exactly when no version of the
      registry is the one it was opened under. */
  predicate ReasonedRightly(closed: seq<Closed>, versions: map<Reference, Rule>, now: Time)
  {
    forall i :: 0 <= i < |closed| ==>
      && closed[i].flow.expiresAt <= now
      && (closed[i].reason == RuleUnavailable <==>
            Reference(closed[i].flow.key.ruleId, closed[i].flow.ruleVersion) !in versions)
  }

  lemma RightlyReasoned(closed: seq<Closed>, flows: Flows, versions: map<Reference, Rule>, now: Time)
    requires ClosedRightly(closed, flows, versions, now)
    ensures ReasonedRightly(closed, versions, now)
  {
    hide CloseReason, KeysClosed;
    forall i | 0 <= i < |closed|
      ensures closed[i].flow.expiresAt <= now
      ensures closed[i].reason == RuleUnavailable <==> PinnedBy(closed[i].flow) !in versions
    {
      assert closed[i] in closed;
      if PinnedBy(closed[i].flow) in versions {
        NeverUnavailable(closed[i].flow, versions[PinnedBy(closed[i].flow)], now);
      }
    }
  }

  lemma NeverUnavailable(f: Flow, r: Rule, now: Time)
    ensures CloseReason(f, r, now) != Some(RuleUnavailable)
  {
    hide CloseCondition, AtLimit;
  }

  // ---------- what finalizing leaves in the outbox ----------

  /** Output IDs are digests in hexadecimal. */
  ghost predicate ScannableIds(cfg: Engine.Config)
  {
    forall r, key, at :: PebbleTx.ScannableId(cfg.idOf(r, key, at))
  }

  /** The record Finalize enqueues. */
  function RecordOf(cfg: Engine.Config, g: Registry.Registry, c: Closed, now: Time): Record
  {
    var target := Engine.TargetOf(cfg, c.flow, Engine.UsedRule(g, c.flow), c.reason, now);
    NewRecord(Engine.OutputOf(cfg, c.key, c.flow), target.index, target.document, now)
  }

  function Enqueue(cfg: Engine.Config, b: Boxes, g: Registry.Registry, c: Closed, now: Time): Boxes
  {
    b.(records := b.records[Engine.OutputOf(cfg, c.key, c.flow) := RecordOf(cfg, g, c, now)])
  }

  /** The boxes after the closed flows are finalized in order. */
  function EnqueueAll(cfg: Engine.Config, b: Boxes, g: Registry.Registry, closed: seq<Closed>, now: Time): Boxes
    decreases |closed|
  {
    if closed == [] then b else EnqueueAll(cfg, Enqueue(cfg, b, g, closed[0], now), g, closed[1..], now)
  }

  lemma {:induction false} EnqueueOneMore(cfg: Engine.Config, b: Boxes, g: Registry.Registry, closed: seq<Closed>,
                                          c: Closed, now: Time)
    ensures EnqueueAll(cfg, b, g, closed + [c], now) == Enqueue(cfg, EnqueueAll(cfg, b, g, closed, now), g, c, now)
    decreases |closed|
  {
    hide Enqueue;
    var all := closed + [c];
    if closed == [] {
      assert all[1..] == [];
      assert EnqueueAll(cfg, Enqueue(cfg, b, g, c, now), g, [], now) == Enqueue(cfg, b, g, c, now);
    } else {
      assert all[0] == closed[0] && all[1..] == closed[1..] + [c];
      EnqueueOneMore(cfg, Enqueue(cfg, b, g, closed[0], now), g, closed[1..], c, now);
    }
  }

  /** Finalize: the record is written before the open flow is deleted, in one transaction. */
  method Finalize(tx: PebbleTx.Tx, record: Record, key: FlowKey, ghost flows: Flows, ghost b: Boxes)
    requires Holds(tx.kv, flows) && Covered(tx.kv, flows) && HoldsBoxes(tx.kv, b)
    requires ByteKey(key) && PebbleTx.ScannableId(record.outputId)
    modifies tx
    ensures Holds(tx.kv, flows - {key}) && Covered(tx.kv, flows - {key})
    ensures old(Indexed(tx.kv, flows)) ==> Indexed(tx.kv, flows - {key})
    ensures HoldsBoxes(tx.kv, b.(records := b.records[record.outputId := record]))
    ensures Entries(tx.kv) <= Entries(old(tx.kv))
  {
    hide Holds, Covered, Exact, HoldsBoxes, ByteKey, PebbleTx.ScannableId, LeavesFlows, LeavesBoxes, DeletedFrom;
    ghost var start := tx.kv;
    EnqueueOutbox(tx, record, b);
    FlowsUnaffected(start, tx.kv, flows);
    ghost var mid := tx.kv;
    tx.DeleteFlow(key, flows);
    DeleteLeavesBoxes(mid, key);
    BoxesUnaffected(mid, tx.kv, b.(records := b.records[record.outputId := record]));
  }

  // ---------- the loop ----------

  /** What the sweep keeps while it works. */
  ghost predicate Working(cfg: Engine.Config, kv: Keyspace, flows: Flows, b: Boxes, g: Registry.Registry,
                          closed: seq<Closed>, visited: set<FlowKey>, now: Time)
  {
    && ClosedRightly(closed, flows, g.versions, now)
    && Holds(kv, flows - KeysClosed(closed)) && Covered(kv, flows - KeysClosed(closed))
    && HoldsBoxes(kv, EnqueueAll(cfg, b, g, closed, now))
    && visited !! (flows - KeysClosed(closed)).Keys
  }

  /** The rule a flow is closed under and why: its own version's verdict, or the durable snapshot. */
  method Judge(registry: Registry.LiveRegistry, f: Flow, now: Time) returns (used: Rule, reason: Reason)
    ensures used == Engine.UsedRule(registry.State(), f) && reason == OutcomeOf(f, registry.versions, now)
  {
    var configured := registry.Get(PinnedBy(f));
    if configured == None {
      return f.pinnedRule, RuleUnavailable;
    }
    used, reason := configured.value, Timeout;
    var verdict := CloseReason(f, used, now);
    if verdict.Some? {
      reason := verdict.value;
    }
  }

  /** One flow that is still there. */
  method CloseOne(cfg: Engine.Config, tx: PebbleTx.Tx, registry: Registry.LiveRegistry, key: FlowKey, current: Flow,
                  now: Time, closed0: seq<Closed>, ghost visited: set<FlowKey>, ghost flows: Flows, ghost b: Boxes)
    returns (closed: seq<Closed>)
    requires ScannableIds(cfg) && ByteKey(key)
    requires Working(cfg, tx.kv, flows, b, registry.State(), closed0, visited, now)
    requires key in flows - KeysClosed(closed0) && key in DueSet(flows, now) && current == flows[key]
    modifies tx
    ensures Working(cfg, tx.kv, flows, b, registry.State(), closed, visited + {key}, now)
    ensures |closed| == |closed0| + 1 && KeysClosed(closed) == KeysClosed(closed0) + {key}
    ensures Entries(tx.kv) <= Entries(old(tx.kv))
  {
    hide ClosedRightly, Holds, Covered, HoldsBoxes, OutcomeOf, ByteKey, KeysClosed, DueSet, PebbleTx.ScannableId,
      EnqueueAll, Engine.UsedRule;
    var used, reason := Judge(registry, current, now);
    var c := Closed(key, current, reason);
    ghost var g, left := registry.State(), flows - KeysClosed(closed0);
    var record := RecordOf(cfg, registry.State(), c, now);
    ghost var boxes := EnqueueAll(cfg, b, g, closed0, now);
    Finalize(tx, record, key, left, boxes);
    CloseOneMore(closed0, c, flows, g.versions, now);
    EnqueueOneMore(cfg, b, g, closed0, c, now);
    closed := closed0 + [c];
    assert flows - KeysClosed(closed) == left - {key};
  }

  /** One pass over the answered keys: skip what was visited or is gone, close the rest. */
  method CloseEach(cfg: Engine.Config, tx: PebbleTx.Tx, registry: Registry.LiveRegistry, keys: seq<FlowKey>, batch: nat,
                   closed0: seq<Closed>, visited0: set<FlowKey>, now: Time, ghost flows: Flows, ghost b: Boxes)
    returns (closed: seq<Closed>, visited: set<FlowKey>)
    requires ScannableIds(cfg)
    requires Working(cfg, tx.kv, flows, b, registry.State(), closed0, visited0, now) && |closed0| < batch
    requires forall i :: 0 <= i < |keys| ==>
            ByteKey(keys[i]) && (keys[i] in flows - KeysClosed(closed0) ==> keys[i] in DueSet(flows, now))
    modifies tx
    ensures Working(cfg, tx.kv, flows, b, registry.State(), closed, visited, now) && |closed| <= batch
    ensures ReasonedRightly(closed, registry.versions, now)
    ensures Entries(tx.kv) <= Entries(old(tx.kv))
    ensures KeysClosed(closed0) <= KeysClosed(closed)
    ensures |closed| < batch ==> forall i :: 0 <= i < |keys| ==> keys[i] in visited
  {
    hide ClosedRightly, Holds, Covered, HoldsBoxes, OutcomeOf, ByteKey, KeysClosed, DueSet, Entries, EnqueueAll,
      ScannableIds;
    closed, visited := closed0, visited0;
    for i := 0 to |keys|
      invariant Working(cfg, tx.kv, flows, b, registry.State(), closed, visited, now) && |closed| < batch
      invariant Entries(tx.kv) <= Entries(old(tx.kv))
      invariant KeysClosed(closed0) <= KeysClosed(closed)
      invariant forall k :: 0 <= k < i ==> keys[k] in visited
    {
      var key := keys[i];
      if key in visited {
        continue;
      }
      LoadFinds(tx.kv, flows - KeysClosed(closed), key);
      var current := Load(tx.kv, key);
      if current == None {
        visited := visited + {key};
        continue;
      }
      closed := CloseOne(cfg, tx, registry, key, current.value, now, closed, visited, flows, b);
      visited := visited + {key};
      if |closed| == batch {
        RightlyReasoned(closed, flows, registry.versions, now);
        return;
      }
    }
    RightlyReasoned(closed, flows, registry.versions, now);
  }

  /** The transaction of a sweep: queries with a growing limit until the batch is full or an answer is
      not cut off. */
  method RunSweep(cfg: Engine.Config, tx: PebbleTx.Tx, registry: Registry.LiveRegistry, batch: nat, now: Time,
                  ghost flows: Flows, ghost b: Boxes)
    returns (ok: bool, closed: seq<Closed>)
    requires ScannableIds(cfg) && batch > 0 && InRange(now)
    requires Holds(tx.kv, flows) && Covered(tx.kv, flows) && HoldsBoxes(tx.kv, b)
    modifies tx
    ensures ClosedRightly(closed, flows, registry.versions, now) && ReasonedRightly(closed, registry.versions, now)
    ensures Holds(tx.kv, flows - KeysClosed(closed)) && Covered(tx.kv, flows - KeysClosed(closed))
    ensures HoldsBoxes(tx.kv, EnqueueAll(cfg, b, registry.State(), closed, now))
    ensures ok ==> |closed| == if |DueSet(flows, now)| < batch then |DueSet(flows, now)| else batch
    ensures ok && |closed| < batch ==> KeysClosed(closed) == DueSet(flows, now)
  {
    hide Holds, Covered, HoldsBoxes, OutcomeOf, ByteKey, Parsable, DueScan, Entries, ScannableIds;
    closed := [];
    var visited: set<FlowKey> := {};
    var queryLimit := batch;
    assert KeysClosed([]) == {} && flows - {} == flows;
    while |closed| < batch
      invariant Working(cfg, tx.kv, flows, b, registry.State(), closed, visited, now)
      invariant |closed| <= batch <= queryLimit
      invariant Entries(tx.kv) <= old(Entries(tx.kv))
      invariant queryLimit <= |old(Entries(tx.kv))| + batch
      decreases |old(Entries(tx.kv))| + batch - queryLimit, batch - |closed|
    {
      ghost var left := flows - KeysClosed(closed);
      var keys;
      ok, keys := tx.DueFlows(now, queryLimit, left);
      if !ok {
        RightlyReasoned(closed, flows, registry.versions, now);
        return;
      }
      LeftAreDue(flows, closed, now, keys, tx.kv, queryLimit);
      SubsetIsSmaller(Entries(tx.kv), old(Entries(tx.kv)));
      ghost var before := closed;
      closed, visited := CloseEach(cfg, tx, registry, keys, batch, closed, visited, now, flows, b);
      ClosedAreDue(closed, flows, registry.versions, now);
      if |keys| < queryLimit {
        if |closed| < batch {
          NothingLeft(flows, before, closed, visited, registry.versions, now, keys);
        }
        ok := true;
        return;
      }
      queryLimit := queryLimit + batch;
    }
    RightlyReasoned(closed, flows, registry.versions, now);
    ClosedAreDue(closed, flows, registry.versions, now);
    ok := true;
  }

  lemma LeftAreDue(flows: Flows, closed: seq<Closed>, now: Time, keys: seq<FlowKey>, kv: Keyspace, limit: int)
    requires Serves(kv, flows - KeysClosed(closed), now, limit, keys)
    ensures |keys| <= |Entries(kv)|
    ensures forall i :: 0 <= i < |keys| ==>
            ByteKey(keys[i]) && (keys[i] in flows - KeysClosed(closed) ==> keys[i] in DueSet(flows, now))
  {
    hide ByteKey, KeysClosed;
  }

  lemma NothingLeft(flows: Flows, before: seq<Closed>, closed: seq<Closed>, visited: set<FlowKey>,
                    versions: map<Reference, Rule>, now: Time, keys: seq<FlowKey>)
    requires ClosedRightly(closed, flows, versions, now) && visited !! (flows - KeysClosed(closed)).Keys
    requires KeysClosed(before) <= KeysClosed(closed)
    requires forall key :: key in DueSet(flows - KeysClosed(before), now) ==> key in keys
    requires forall i :: 0 <= i < |keys| ==> keys[i] in visited
    ensures KeysClosed(closed) == DueSet(flows, now) && |closed| == |DueSet(flows, now)|
  {
    hide OutcomeOf, KeysClosed;
    ClosedAreDue(closed, flows, versions, now);
    forall key | key in DueSet(flows, now) ensures key in KeysClosed(closed) {
      if key !in KeysClosed(before) {
        assert key in DueSet(flows - KeysClosed(before), now);
        assert key in visited;
      }
    }
  }

  // ---------- the whole call ----------

  /** The versions the closed flows held, in order of closing. */
  function PinsOf(closed: seq<Closed>): seq<Reference>
  {
    seq(|closed|, i requires 0 <= i < |closed| => PinnedBy(closed[i].flow))
  }

  method ReleaseEach(registry: Registry.LiveRegistry, refs: seq<Reference>)
    modifies registry
    ensures registry.State() == Registry.ReleasedFrom(old(registry.State()), refs)
  {
    hide Registry.Released;
    ghost var start := registry.State();
    assert refs[0..] == refs;
    for i := 0 to |refs|
      invariant Registry.ReleasedFrom(start, refs) == Registry.ReleasedFrom(registry.State(), refs[i..])
    {
      assert refs[i..][0] == refs[i] && refs[i..][1..] == refs[i + 1..];
      registry.Release(refs[i]);
    }
  }

  /** What a committed sweep leaves behind. */
  ghost predicate SweptTo(cfg: Engine.Config, kv: Keyspace, flows: Flows, b: Boxes, g: Registry.Registry,
                          closed: seq<Closed>, now: Time)
  {
    && ClosedRightly(closed, flows, g.versions, now)
    && Holds(kv, flows - KeysClosed(closed)) && Covered(kv, flows - KeysClosed(closed))
    && HoldsBoxes(kv, EnqueueAll(cfg, b, g, closed, now))
  }

  /** Sweep: the transaction, then one release for each flow it closed; a failure changes nothing.
      `commits` is whether the store accepts the transaction. */
  method SweepOnce(cfg: Engine.Config, tx: PebbleTx.Tx, registry: Registry.LiveRegistry, batch: nat, commits: bool,
                   now: Time, ghost flows: Flows, ghost b: Boxes)
    returns (ok: bool, closed: seq<Closed>)
    requires ScannableIds(cfg) && batch > 0 && InRange(now)
    requires Holds(tx.kv, flows) && Covered(tx.kv, flows) && HoldsBoxes(tx.kv, b)
    modifies tx, registry
    ensures !ok ==> closed == [] && tx.kv == old(tx.kv) && registry.State() == old(registry.State())
    ensures ok ==> SweptTo(cfg, tx.kv, flows, b, old(registry.State()), closed, now)
    ensures ok ==> ReasonedRightly(closed, old(registry.versions), now)
    ensures ok ==> registry.State() == Registry.ReleasedFrom(old(registry.State()), PinsOf(closed))
    ensures ok ==> |closed| == if |DueSet(flows, now)| < batch then |DueSet(flows, now)| else batch
    ensures ok && |closed| < batch ==> KeysClosed(closed) == DueSet(flows, now)
  {
    hide Holds, Covered, HoldsBoxes, ClosedRightly, EnqueueAll, DueSet, KeysClosed, ScannableIds, Registry.ReleasedFrom;
    var before := tx.kv;
    ok, closed := RunSweep(cfg, tx, registry, batch, now, flows, b);
    if !ok || !commits {
      tx.kv := before;
      return false, [];
    }
    ReleaseEach(registry, PinsOf(closed));
  }

  /** The startup loop: sweeps, each at the next clock reading, until one is not full. It ends, and
      leaves no open flow due at its last reading. */
  method Startup(cfg: Engine.Config, tx: PebbleTx.Tx, registry: Registry.LiveRegistry, batch: nat, commits: nat -> bool,
                 clock: nat -> Time, ghost flows: Flows, ghost boxes: Boxes)
    returns (ok: bool, sweeps: nat, ghost left: Flows, ghost b: Boxes)
    requires ScannableIds(cfg) && batch > 0 && (forall n :: InRange(clock(n)))
    requires Holds(tx.kv, flows) && Covered(tx.kv, flows) && HoldsBoxes(tx.kv, boxes)
    modifies tx, registry
    ensures Holds(tx.kv, left) && Covered(tx.kv, left) && HoldsBoxes(tx.kv, b) && left.Keys <= flows.Keys
    ensures ok ==> sweeps > 0 && forall key :: key in left ==> clock(sweeps - 1) < left[key].expiresAt
  {
    hide Holds, Covered, HoldsBoxes, InRange, OutcomeOf, EnqueueAll, ScannableIds, Registry.ReleasedFrom;
    sweeps, left, b := 0, flows, boxes;
    while true
      invariant Holds(tx.kv, left) && Covered(tx.kv, left) && HoldsBoxes(tx.kv, b) && left.Keys <= flows.Keys
      decreases |left|
    {
      var now, go := clock(sweeps), commits(sweeps);
      sweeps := sweeps + 1;
      var closed;
      ghost var before, g := left, registry.State();
      ok, closed := SweepOnce(cfg, tx, registry, batch, go, now, left, b);
      if !ok {
        return;
      }
      left, b := left - KeysClosed(closed), EnqueueAll(cfg, b, g, closed, now);
      if |closed| < batch {
        return;
      }
      SweepShrinks(before, closed, g.versions, now);
    }
  }

  lemma SweepShrinks(flows: Flows, closed: seq<Closed>, versions: map<Reference, Rule>, now: Time)
    requires ClosedRightly(closed, flows, versions, now) && closed != []
    ensures |flows - KeysClosed(closed)| < |flows|
  {
    hide OutcomeOf;
    ClosedAreDue(closed, flows, versions, now);
    var left := flows - KeysClosed(closed);
    assert left.Keys == flows.Keys - KeysClosed(closed);
    assert KeysClosed(closed) <= flows.Keys && |KeysClosed(closed)| > 0;
    assert flows.Keys == left.Keys + KeysClosed(closed);
  }
}
