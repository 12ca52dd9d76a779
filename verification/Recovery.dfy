/** Starting up on a store with open flows: counting the versions they hold and seeding the registry. */
module Recovery {
  import opened ByteText
  import opened Rules
  import opened FlowModel
  import opened FlowDeadline
  import Registry
  import opened DueFlows
  import opened PebbleKeys
  import opened PebbleStore
  import opened Engine
  import opened EngineRules

  /** The counts are those of the flows. */
  ghost predicate CountsAre(counts: map<Reference, nat>, flows: Flows)
  {
    counts == CountsOf(flows)
  }

  lemma NothingCounted()
    ensures CountsAre(map[], map[])
  {
    assert PinMap(map[]) == map[];
  }

  function Tallied(counts: map<Reference, nat>, ref: Reference): map<Reference, nat>
  {
    counts[ref := 1 + if ref in counts then counts[ref] else 0]
  }

  lemma CountedOneMore(counts: map<Reference, nat>, flows: Flows, key: FlowKey, f: Flow)
    requires CountsAre(counts, flows) && key !in flows
    ensures CountsAre(Tallied(counts, PinnedBy(f)), flows[key := f])
  {
    hide Pinned, PinnedBy;
    PinnedSet(flows, key, f);
    assert Pinned(flows[key := f]) == Pinned(flows) + multiset{PinnedBy(f)};
  }

  /** OpenFlows of the memory store: one more for the version each open flow holds. */
  method OpenFlows(flows: Flows) returns (counts: map<Reference, nat>)
    ensures counts == CountsOf(flows)
  {
    hide CountsAre, Tallied, PinnedBy;
    counts := map[];
    var todo := flows.Keys;
    ghost var seen: Flows := map[];
    NothingCounted();
    while todo != {}
      invariant todo <= flows.Keys && seen == flows - todo
      invariant CountsAre(counts, seen)
      decreases todo
    {
      var key :| key in todo;
      CountedOneMore(counts, seen, key, flows[key]);
      counts := Tallied(counts, PinnedBy(flows[key]));
      seen := seen[key := flows[key]];
      todo := todo - {key};
    }
    assert seen == flows;
    CountedIs(counts, flows);
  }

  lemma CountedIs(counts: map<Reference, nat>, flows: Flows)
    requires CountsAre(counts, flows)
    ensures counts == CountsOf(flows)
  {
    hide CountsOf;
  }

  /** The registry a process starts with: the loaded rules, seeded with what the stored flows hold. */
  method Boot(rules: seq<Rule>, flows: Flows) returns (registry: Registry.LiveRegistry)
    ensures fresh(registry) && registry.State() == Booted(rules, flows)
  {
    hide CountsOf, Registry.Published, Registry.Seeded;
    registry := new Registry.LiveRegistry(rules);
    var counts := OpenFlows(flows);
    registry.SeedOpenFlows(counts);
  }

  // ---------- the durable store ----------

  function FlowCells(kv: Keyspace): set<Text>
  {
    set raw | raw in kv && IsFlowRaw(raw)
  }

  predicate Unread(key: FlowKey, todo: set<Text>)
  {
    ByteKey(key) && FlowKeyBytes(key) in todo
  }

  /** The flows among the scanned keys. */
  ghost predicate ReadSoFar(flows: Flows, todo: set<Text>, seen: Flows)
  {
    && (forall key :: key in seen <==> key in flows && !Unread(key, todo))
    && (forall key :: key in seen ==> seen[key] == flows[key])
  }

  lemma CellIsFlow(kv: Keyspace, flows: Flows, raw: Text)
    requires Holds(kv, flows) && raw in FlowCells(kv)
    ensures
      && kv[raw].FlowCell? && kv[raw].flow.key in flows && kv[raw].flow == flows[kv[raw].flow.key]
      && ByteKey(kv[raw].flow.key) && raw == FlowKeyBytes(kv[raw].flow.key)
  {
    hide ByteKey, FlowKeyBytes, Storable;
    assert KnownFlow(raw, kv[raw], flows);
    assert StoredFlow(kv, kv[raw].flow.key, flows[kv[raw].flow.key]);
  }

  lemma FlowHasCell(kv: Keyspace, flows: Flows, key: FlowKey)
    requires Holds(kv, flows) && key in flows
    ensures ByteKey(key) && FlowKeyBytes(key) in FlowCells(kv)
  {
    hide FlowKeyBytes;
    assert StoredFlow(kv, key, flows[key]);
    FlowRawParses(key);
  }

  lemma CellsDiffer(a: FlowKey, b: FlowKey)
    requires ByteKey(a) && ByteKey(b) && FlowKeyBytes(a) == FlowKeyBytes(b)
    ensures a == b
  {
    hide FlowKeyBytes, ParseFlowKey;
    FlowKeyRoundTrip(a);
    FlowKeyRoundTrip(b);
  }

  lemma ReadOneMore(kv: Keyspace, flows: Flows, todo: set<Text>, seen: Flows, raw: Text)
    requires Holds(kv, flows) && raw in FlowCells(kv) && raw in todo && ReadSoFar(flows, todo, seen)
    ensures kv[raw].FlowCell? && kv[raw].flow.key !in seen
    ensures ReadSoFar(flows, todo - {raw}, seen[kv[raw].flow.key := kv[raw].flow])
  {
    hide Holds, ByteKey, FlowKeyBytes, FlowCells;
    CellIsFlow(kv, flows, raw);
    assert raw in kv by { CellIsStored(kv, raw); }
    var f := kv[raw].flow;
    forall key | key in flows ensures Unread(key, todo - {raw}) <==> Unread(key, todo) && key != f.key {
      if ByteKey(key) && FlowKeyBytes(key) == raw {
        CellsDiffer(key, f.key);
      }
    }
  }

  lemma CellIsStored(kv: Keyspace, raw: Text)
    requires raw in FlowCells(kv)
    ensures raw in kv
  {
  }

  /** OpenFlows of the durable store: the same counts, from a scan of the flow family. */
  method OpenFlowsFromStore(kv: Keyspace, ghost flows: Flows) returns (counts: map<Reference, nat>)
    requires Holds(kv, flows)
    ensures counts == CountsOf(flows)
  {
    hide Holds, CountsAre, Tallied, PinnedBy, ReadSoFar;
    counts := map[];
    var todo := FlowCells(kv);
    ghost var seen: Flows := map[];
    NothingCounted();
    assert ReadSoFar(flows, todo, seen) by { ReadNothing(kv, flows); }
    while todo != {}
      invariant todo <= FlowCells(kv) && ReadSoFar(flows, todo, seen)
      invariant CountsAre(counts, seen)
      decreases todo
    {
      var raw :| raw in todo;
      ReadOneMore(kv, flows, todo, seen, raw);
      var f := kv[raw].flow;
      CountedOneMore(counts, seen, f.key, f);
      counts := Tallied(counts, PinnedBy(f));
      seen := seen[f.key := f];
      todo := todo - {raw};
    }
    ReadAll(flows, seen);
    CountedIs(counts, flows);
  }

  lemma ReadNothing(kv: Keyspace, flows: Flows)
    requires Holds(kv, flows)
    ensures ReadSoFar(flows, FlowCells(kv), map[])
  {
    hide Holds, ByteKey, FlowKeyBytes, FlowCells;
    forall key | key in flows ensures Unread(key, FlowCells(kv)) {
      FlowHasCell(kv, flows, key);
    }
  }

  lemma ReadAll(flows: Flows, seen: Flows)
    requires ReadSoFar(flows, {}, seen)
    ensures seen == flows
  {
    hide FlowKeyBytes;
  }
}
