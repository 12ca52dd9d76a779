/** The durable store of internal/adapters/state/pebble/store.go over an ordered byte-key map:
    open flows and the expiry index that must agree with them. */
module PebbleStore {
  import opened ByteText
  import opened Rules
  import opened FlowModel
  import opened Ordering
  import opened DueFlows
  import opened PebbleKeys
  import opened DeadLetterPaging
  import opened Outbox

  datatype Cell = FlowCell(flow: Flow) | IndexEntry | RecordCell(record: Record) | CounterCell(total: nat)

  type Keyspace = map<Text, Cell>

  /** Rule IDs are never empty, so the one key the index cannot parse does not occur. */
  predicate StorableKey(key: FlowKey)
  {
    ByteKey(key) && key != FlowKey("", "")
  }

  predicate Storable(f: Flow)
  {
    StorableKey(f.key) && InRange(f.expiresAt)
  }

  predicate IsFlowRaw(raw: Text)
  {
    HasPrefix(raw, "f/")
  }

  predicate IsEntryRaw(raw: Text)
  {
    HasPrefix(raw, "x/")
  }

  function EntryOf(f: Flow): Text
    requires Storable(f)
  {
    ExpiryKey(f.expiresAt, f.key)
  }

  lemma EntryParses(t: Time, key: FlowKey)
    requires InRange(t) && StorableKey(key)
    ensures ParseExpiryKey(ExpiryKey(t, key)) == Some(key)
    ensures IsEntryRaw(ExpiryKey(t, key)) && !IsFlowRaw(ExpiryKey(t, key))
  {
    hide ParseExpiryKey, Parts, BigEndian, Power256;
    ExpiryKeyRoundTrip(t, key);
    assert ExpiryKey(t, key)[..2] == "x/";
  }

  lemma FlowRawParses(key: FlowKey)
    requires ByteKey(key)
    ensures ParseFlowKey(FlowKeyBytes(key)) == Some(key)
    ensures IsFlowRaw(FlowKeyBytes(key)) && !IsEntryRaw(FlowKeyBytes(key))
  {
    hide ParseFlowKey, Parts;
    FlowKeyRoundTrip(key);
    assert FlowKeyBytes(key)[..2] == "f/";
  }

  // ---------- what the keyspace holds ----------

  /** The flow is stored under its key. */
  predicate StoredFlow(kv: Keyspace, key: FlowKey, f: Flow)
  {
    Storable(f) && f.key == key && FlowKeyBytes(key) in kv && kv[FlowKeyBytes(key)] == FlowCell(f)
  }

  /** The cell is one of these flows, under its own key. */
  predicate KnownFlow(raw: Text, cell: Cell, flows: Flows)
  {
    cell.FlowCell? && cell.flow.key in flows && ByteKey(cell.flow.key) && raw == FlowKeyBytes(cell.flow.key)
  }

  ghost predicate Holds(kv: Keyspace, flows: Flows)
  {
    && (forall key :: key in flows ==> StoredFlow(kv, key, flows[key]))
    && (forall raw :: raw in kv && IsFlowRaw(raw) ==> KnownFlow(raw, kv[raw], flows))
  }

  /** Every open flow has the entry of its deadline. */
  predicate Covered(kv: Keyspace, flows: Flows)
  {
    forall key :: key in flows ==> Storable(flows[key]) && EntryOf(flows[key]) in kv
  }

  /** The entry is that of an open flow at its current deadline. */
  predicate CurrentEntry(raw: Text, flows: Flows)
  {
    var key := ParseExpiryKey(raw);
    && key.Some? && key.value in flows && Storable(flows[key.value])
    && flows[key.value].key == key.value && raw == EntryOf(flows[key.value])
  }

  predicate Exact(kv: Keyspace, flows: Flows)
  {
    forall raw :: raw in kv && IsEntryRaw(raw) ==> CurrentEntry(raw, flows)
  }

  /** The index and the flows agree: one entry for each flow, at its current deadline, and no other. */
  ghost predicate Indexed(kv: Keyspace, flows: Flows)
  {
    Holds(kv, flows) && Covered(kv, flows) && Exact(kv, flows)
  }

  /** Agreement, spelled out: the entries naming a flow are exactly the one at its deadline. */
  lemma ExactlyOneEntry(kv: Keyspace, flows: Flows, key: FlowKey)
    requires Indexed(kv, flows) && key in flows
    ensures (set raw | raw in kv && IsEntryRaw(raw) && ParseExpiryKey(raw) == Some(key)) == {EntryOf(flows[key])}
  {
    hide ParseExpiryKey, FlowKeyBytes, ExpiryKey;
    assert StoredFlow(kv, key, flows[key]);
    EntryParses(flows[key].expiresAt, key);
  }

  // ---------- SaveFlow and DeleteFlow ----------

  function Load(kv: Keyspace, key: FlowKey): Option<Flow>
    requires ByteKey(key)
  {
    var raw := FlowKeyBytes(key);
    if raw in kv && kv[raw].FlowCell? then Some(kv[raw].flow) else None
  }

  /** Deletes the entry of the stored deadline, if the flow is stored. */
  function WithoutEntry(kv: Keyspace, key: FlowKey): Keyspace
    requires ByteKey(key)
  {
    match Load(kv, key)
    case Some(previous) => if InRange(previous.expiresAt) then kv - {ExpiryKey(previous.expiresAt, key)} else kv
    case None => kv
  }

  function SavedIn(kv: Keyspace, f: Flow): Keyspace
    requires Storable(f)
  {
    WithoutEntry(kv, f.key)[FlowKeyBytes(f.key) := FlowCell(f)][EntryOf(f) := IndexEntry]
  }

  function DeletedFrom(kv: Keyspace, key: FlowKey): Keyspace
    requires ByteKey(key)
  {
    WithoutEntry(kv, key) - {FlowKeyBytes(key)}
  }

  lemma LoadFinds(kv: Keyspace, flows: Flows, key: FlowKey)
    requires Holds(kv, flows) && ByteKey(key)
    ensures Load(kv, key) == if key in flows then Some(flows[key]) else None
  {
    hide FlowKeyBytes, ByteKey, ParseFlowKey;
    FlowRawParses(key);
    var raw := FlowKeyBytes(key);
    if key in flows {
      assert StoredFlow(kv, key, flows[key]);
    } else if raw in kv {
      assert KnownFlow(raw, kv[raw], flows);
      FlowRawParses(kv[raw].flow.key);
    }
  }

  lemma OtherEntriesDiffer(flows: Flows, a: FlowKey, b: FlowKey)
    requires a in flows && b in flows && a != b
    requires Storable(flows[a]) && flows[a].key == a && Storable(flows[b]) && flows[b].key == b
    ensures EntryOf(flows[a]) != EntryOf(flows[b])
  {
    hide ExpiryKey;
    ExpiryKeyInjective(flows[a].expiresAt, a, flows[b].expiresAt, b);
  }

  /** Deleting the entry of a flow leaves the cells and the other flows' entries. */
  lemma WithoutEntryKeeps(kv: Keyspace, flows: Flows, key: FlowKey)
    requires Holds(kv, flows) && ByteKey(key)
    ensures Holds(WithoutEntry(kv, key), flows)
    ensures Covered(kv, flows) ==> Covered(WithoutEntry(kv, key), flows - {key})
    ensures Exact(kv, flows) ==> forall raw :: raw in WithoutEntry(kv, key) && IsEntryRaw(raw) ==>
            CurrentEntry(raw, flows - {key})
  {
    hide FlowKeyBytes, ByteKey, ParseFlowKey, ParseExpiryKey, ExpiryKey, IsFlowRaw, IsEntryRaw;
    LoadFinds(kv, flows, key);
    if key in flows {
      assert StoredFlow(kv, key, flows[key]);
      var gone := EntryOf(flows[key]);
      EntryParses(flows[key].expiresAt, key);
      assert WithoutEntry(kv, key) == kv - {gone};
      forall other | other in flows ensures StoredFlow(kv - {gone}, other, flows[other]) {
        assert StoredFlow(kv, other, flows[other]);
        FlowRawParses(other);
      }
      forall other | other in flows && other != key && Covered(kv, flows)
        ensures EntryOf(flows[other]) in kv - {gone}
      {
        assert StoredFlow(kv, other, flows[other]);
        OtherEntriesDiffer(flows, key, other);
      }
    } else {
      assert flows - {key} == flows;
    }
  }

  lemma SaveHolds(kv: Keyspace, flows: Flows, f: Flow)
    requires Holds(kv, flows) && Storable(f)
    ensures Holds(SavedIn(kv, f), flows[f.key := f])
  {
    hide FlowKeyBytes, ByteKey, ParseFlowKey, ParseExpiryKey, ExpiryKey, IsFlowRaw, IsEntryRaw, WithoutEntry, InRange;
    WithoutEntryKeeps(kv, flows, f.key);
    var kv', flows' := SavedIn(kv, f), flows[f.key := f];
    var base := WithoutEntry(kv, f.key);
    EntryParses(f.expiresAt, f.key);
    FlowRawParses(f.key);
    forall key | key in flows' ensures StoredFlow(kv', key, flows'[key]) {
      if key != f.key {
        assert StoredFlow(base, key, flows[key]);
        FlowRawParses(key);
      }
    }
    forall raw | raw in kv' && IsFlowRaw(raw) ensures KnownFlow(raw, kv'[raw], flows') {
      if raw != FlowKeyBytes(f.key) {
        assert KnownFlow(raw, base[raw], flows);
      }
    }
  }

  lemma SaveIndexes(kv: Keyspace, flows: Flows, f: Flow)
    requires Holds(kv, flows) && Storable(f)
    ensures Covered(kv, flows) ==> Covered(SavedIn(kv, f), flows[f.key := f])
    ensures Exact(kv, flows) ==> Exact(SavedIn(kv, f), flows[f.key := f])
  {
    hide FlowKeyBytes, ByteKey, ParseFlowKey, ParseExpiryKey, ExpiryKey, IsFlowRaw, IsEntryRaw, WithoutEntry, InRange,
      Holds;
    WithoutEntryKeeps(kv, flows, f.key);
    var kv', flows' := SavedIn(kv, f), flows[f.key := f];
    EntryParses(f.expiresAt, f.key);
    FlowRawParses(f.key);
    if Covered(kv, flows) {
      forall key | key in flows' ensures Storable(flows'[key]) && EntryOf(flows'[key]) in kv' {
        if key != f.key {
          assert key in flows - {f.key};
        }
      }
    }
    if Exact(kv, flows) {
      forall raw | raw in kv' && IsEntryRaw(raw) ensures CurrentEntry(raw, flows') {
        if raw != EntryOf(f) {
          assert CurrentEntry(raw, flows - {f.key});
        }
      }
    }
  }

  lemma DeleteKeeps(kv: Keyspace, flows: Flows, key: FlowKey)
    requires Holds(kv, flows) && ByteKey(key)
    ensures Holds(DeletedFrom(kv, key), flows - {key})
    ensures Covered(kv, flows) ==> Covered(DeletedFrom(kv, key), flows - {key})
    ensures Exact(kv, flows) ==> Exact(DeletedFrom(kv, key), flows - {key})
  {
    hide FlowKeyBytes, ByteKey, ParseFlowKey, ParseExpiryKey, ExpiryKey, IsFlowRaw, IsEntryRaw, WithoutEntry, InRange;
    WithoutEntryKeeps(kv, flows, key);
    FlowRawParses(key);
    var base, kv', flows' := WithoutEntry(kv, key), DeletedFrom(kv, key), flows - {key};
    forall other | other in flows' ensures StoredFlow(kv', other, flows'[other]) {
      assert StoredFlow(base, other, flows[other]);
      FlowRawParses(other);
    }
    forall raw | raw in kv' && IsFlowRaw(raw) ensures KnownFlow(raw, kv'[raw], flows') {
      assert KnownFlow(raw, base[raw], flows);
    }
    if Covered(kv, flows) {
      forall other | other in flows' ensures Storable(flows'[other]) && EntryOf(flows'[other]) in kv' {
        assert EntryOf(flows'[other]) in base;
        assert StoredFlow(base, other, flows[other]);
        EntryParses(flows[other].expiresAt, other);
      }
    }
  }

  // ---------- every sequence of saves and deletes ----------

  datatype Op = Save(flow: Flow) | Delete(key: FlowKey)

  predicate Allowed(op: Op)
  {
    match op
    case Save(f) => Storable(f)
    case Delete(key) => ByteKey(key)
  }

  predicate AllAllowed(ops: seq<Op>)
  {
    forall i :: 0 <= i < |ops| ==> Allowed(ops[i])
  }

  function KeyspaceAfter(ops: seq<Op>): Keyspace
    requires AllAllowed(ops)
  {
    if ops == [] then map[]
    else
      var before := KeyspaceAfter(ops[..|ops| - 1]);
      match ops[|ops| - 1]
      case Save(f) => SavedIn(before, f)
      case Delete(key) => DeletedFrom(before, key)
  }

  /** The simple store: a map of flows. */
  function FlowsAfter(ops: seq<Op>): Flows
  {
    if ops == [] then map[]
    else
      var before := FlowsAfter(ops[..|ops| - 1]);
      match ops[|ops| - 1]
      case Save(f) => before[f.key := f]
      case Delete(key) => before - {key}
  }

  /** After any saves and deletes the durable store holds the same flows as the simple one, and its
      index agrees with them. */
  lemma {:induction false} IndexAlwaysAgrees(ops: seq<Op>)
    requires AllAllowed(ops)
    ensures Indexed(KeyspaceAfter(ops), FlowsAfter(ops))
    decreases |ops|
  {
    hide SavedIn, DeletedFrom, Storable, ByteKey;
    if ops != [] {
      var n := |ops| - 1;
      IndexAlwaysAgrees(ops[..n]);
      var kv, flows := KeyspaceAfter(ops[..n]), FlowsAfter(ops[..n]);
      assert Allowed(ops[n]);
      match ops[n]
      case Save(f) =>
        SaveHolds(kv, flows, f);
        SaveIndexes(kv, flows, f);
      case Delete(key) =>
        DeleteKeeps(kv, flows, key);
    }
  }

  // ---------- DueFlows ----------

  /** Due first by deadline, then rule, then correlation key. */
  predicate DueLess(a: Due, b: Due)
  {
    || a.deadline < b.deadline
    || (a.deadline == b.deadline &&
        (Less(a.key.ruleId, b.key.ruleId) ||
         (a.key.ruleId == b.key.ruleId && Less(a.key.correlationKey, b.key.correlationKey))))
  }

  function DueScan(kv: Keyspace, before: Time): set<Text>
    requires InRange(before)
  {
    set raw | raw in kv && InScan(raw, "x/", DueUpper(before))
  }

  /** An entry that cannot be parsed fails the whole scan. */
  predicate Parsable(raw: Text)
  {
    var key := ParseExpiryKey(raw);
    key.Some? && ByteKey(key.value)
  }

  /** What one index entry contributes: its flow when due, itself when orphaned. */
  function Candidate(kv: Keyspace, raw: Text, before: Time): seq<Due>
  {
    if !Parsable(raw) then []
    else
      var key := ParseExpiryKey(raw).value;
      match Load(kv, key)
      case None => [Due(ExpiryDeadline(raw), key)]
      case Some(f) => if f.expiresAt <= before then [Due(f.expiresAt, key)] else []
  }

  function Candidates(kv: Keyspace, raws: seq<Text>, before: Time): seq<Due>
  {
    if raws == [] then []
    else Candidates(kv, raws[..|raws| - 1], before) + Candidate(kv, raws[|raws| - 1], before)
  }

  method CollectCandidates(kv: Keyspace, raws: seq<Text>, before: Time) returns (ok: bool, found: seq<Due>)
    ensures ok <==> forall raw :: raw in raws ==> Parsable(raw)
    ensures ok ==> found == Candidates(kv, raws, before)
  {
    hide Candidate, Parsable;
    found := [];
    for i := 0 to |raws|
      invariant found == Candidates(kv, raws[..i], before)
      invariant forall k :: 0 <= k < i ==> Parsable(raws[k])
    {
      assert raws[..i + 1][..i] == raws[..i] && raws[..i + 1][i] == raws[i];
      if !Parsable(raws[i]) {
        assert raws[i] in raws;
        return false, [];
      }
      found := found + Candidate(kv, raws[i], before);
    }
    assert raws[..|raws|] == raws;
    ok := true;
  }

  /** The index entries of the due flows. */
  predicate IsDueEntry(raw: Text, flows: Flows, before: Time)
  {
    var key := ParseExpiryKey(raw);
    CurrentEntry(raw, flows) && flows[key.value].expiresAt <= before
  }

  lemma CandidateWhenExact(kv: Keyspace, flows: Flows, raw: Text, before: Time)
    requires Holds(kv, flows) && CurrentEntry(raw, flows)
    ensures
      var key := ParseExpiryKey(raw).value;
      Candidate(kv, raw, before) == if IsDueEntry(raw, flows, before) then [Due(flows[key].expiresAt, key)] else []
  {
    hide ParseExpiryKey, FlowKeyBytes, ExpiryKey, Load;
    LoadFinds(kv, flows, ParseExpiryKey(raw).value);
  }

  /** The due flows named by these entries. */
  function DueKeys(raws: seq<Text>, flows: Flows, before: Time): set<FlowKey>
  {
    if raws == [] then {}
    else
      var n := |raws| - 1;
      DueKeys(raws[..n], flows, before)
      + (if IsDueEntry(raws[n], flows, before) then {ParseExpiryKey(raws[n]).value} else {})
  }

  lemma {:induction false} DueKeysNamed(raws: seq<Text>, flows: Flows, before: Time, key: FlowKey)
    ensures key in DueKeys(raws, flows, before) <==>
            exists i :: 0 <= i < |raws| && IsDueEntry(raws[i], flows, before) && ParseExpiryKey(raws[i]) == Some(key)
    decreases |raws|
  {
    hide ParseExpiryKey, EntryOf, Storable;
    if raws != [] {
      var n := |raws| - 1;
      DueKeysNamed(raws[..n], flows, before, key);
      assert forall i :: 0 <= i < n ==> raws[..n][i] == raws[i];
    }
  }

  /** With an exact index the candidates name each due flow once. */
  lemma {:induction false} CandidatesWhenExact(kv: Keyspace, flows: Flows, raws: seq<Text>, before: Time)
    requires Holds(kv, flows)
    requires forall i :: 0 <= i < |raws| ==> CurrentEntry(raws[i], flows)
    requires forall i, j :: 0 <= i < j < |raws| ==> raws[i] != raws[j]
    ensures FoundAmong(flows, DueKeys(raws, flows, before), Candidates(kv, raws, before))
    decreases |raws|
  {
    hide ParseExpiryKey, ExpiryKey, Candidate, Storable, InRange, FoundAmong, Holds;
    if raws == [] {
      FoundNothing(flows);
    } else {
      var n := |raws| - 1;
      var rest, raw := raws[..n], raws[n];
      CandidatesWhenExact(kv, flows, rest, before);
      CandidateWhenExact(kv, flows, raw, before);
      assert CurrentEntry(raw, flows);
      if IsDueEntry(raw, flows, before) {
        var key := ParseExpiryKey(raw).value;
        DueKeysNamed(rest, flows, before, key);
        assert forall i :: 0 <= i < n ==> raws[i] != raw && rest[i] == raws[i];
        FoundOneMore(flows, Candidates(kv, rest, before), key, DueKeys(rest, flows, before));
      } else {
        assert Candidates(kv, rest, before) + [] == Candidates(kv, rest, before);
        assert DueKeys(raws, flows, before) == DueKeys(rest, flows, before);
      }
    }
  }

  lemma ScanFindsDue(kv: Keyspace, flows: Flows, before: Time, key: FlowKey)
    requires Holds(kv, flows) && Covered(kv, flows) && InRange(before)
    requires key in flows && flows[key].expiresAt <= before
    ensures Storable(flows[key]) && EntryOf(flows[key]) in DueScan(kv, before)
    ensures ParseExpiryKey(EntryOf(flows[key])) == Some(key)
  {
    hide ParseExpiryKey, ExpiryKey, FlowKeyBytes, InScan, DueUpper;
    assert StoredFlow(kv, key, flows[key]);
    EntryParses(flows[key].expiresAt, key);
    DueScanIsByMillisecond(flows[key].expiresAt, key, before);
  }

  lemma ScanStaysInIndex(kv: Keyspace, before: Time, raw: Text)
    requires InRange(before) && raw in DueScan(kv, before)
    ensures IsEntryRaw(raw)
  {
    hide Less, BigEndian, Power256;
    var end := BigEndian(Flipped(before), 8) + [TOP];
    assert DueUpper(before) == "x/" + end;
    PrefixScanStays("x/", end, raw);
  }

  lemma DueKeysAreDue(kv: Keyspace, flows: Flows, before: Time, raws: seq<Text>)
    requires Indexed(kv, flows) && InRange(before)
    requires forall raw :: raw in raws <==> raw in DueScan(kv, before)
    ensures DueKeys(raws, flows, before) == DueSet(flows, before)
  {
    hide ParseExpiryKey, ExpiryKey, DueScan, Holds, Covered;
    forall key ensures key in DueKeys(raws, flows, before) <==> key in DueSet(flows, before) {
      DueKeysNamed(raws, flows, before, key);
      if key in DueSet(flows, before) {
        ScanFindsDue(kv, flows, before, key);
        var raw := EntryOf(flows[key]);
        assert raw in raws;
        ScanStaysInIndex(kv, before, raw);
        ScanIsStored(kv, before, raw);
        assert IsDueEntry(raw, flows, before);
      }
    }
  }

  lemma ScanIsStored(kv: Keyspace, before: Time, raw: Text)
    requires InRange(before) && raw in DueScan(kv, before)
    ensures raw in kv
  {
    hide InScan, DueUpper;
  }

  lemma DueLessIsOrder()
    ensures Sortable(DueLess)
    ensures forall a: Due, b: Due :: a.deadline < b.deadline ==> DueLess(a, b)
  {
    hide Less;
    LessIsOrder();
    forall a: Due, b: Due | DueLess(a, b) ensures !DueLess(b, a) {
      LessIrreflexive(a.key.ruleId);
    }
    forall a: Due, b: Due, c: Due | !DueLess(b, a) && !DueLess(c, b) ensures !DueLess(c, a) {
      DueLessTrans(a, b, c);
    }
  }

  lemma DueLessTrans(a: Due, b: Due, c: Due)
    requires !DueLess(b, a) && !DueLess(c, b)
    ensures !DueLess(c, a)
  {
    hide Less;
    LessIsOrder();
    LessIrreflexive(a.key.ruleId);
  }

  /** The scan in byte order, as an iterator delivers it. */
  method ScanDueEntries(kv: Keyspace, before: Time) returns (raws: seq<Text>)
    requires InRange(before)
    ensures raws == InIdOrder(DueScan(kv, before))
  {
    var all := DueScan(kv, before);
    var listed := ListSet(all);
    raws := SortIds(listed, all);
  }

  /** The index, orphans included. */
  function Entries(kv: Keyspace): set<Text>
  {
    set raw | raw in kv && IsEntryRaw(raw)
  }

  /** What the answer is worth when the index may also hold stale or orphaned entries: it is never
      longer than the index, names no open flow that is not due, and when not cut off names them all. */
  ghost predicate Serves(kv: Keyspace, flows: Flows, before: Time, limit: int, due: seq<FlowKey>)
  {
    && |due| <= |Entries(kv)|
    && (forall i :: 0 <= i < |due| ==> ByteKey(due[i]) && (due[i] in flows ==> due[i] in DueSet(flows, before)))
    && (limit <= 0 || |due| < limit ==> forall key :: key in DueSet(flows, before) ==> key in due)
  }

  lemma {:induction false} CandidatesServe(kv: Keyspace, flows: Flows, raws: seq<Text>, before: Time)
    requires Holds(kv, flows)
    ensures |Candidates(kv, raws, before)| <= |raws|
    ensures forall d :: d in Candidates(kv, raws, before) ==>
            ByteKey(d.key) && (d.key in flows ==> d.key in DueSet(flows, before))
    decreases |raws|
  {
    hide ParseExpiryKey, Load, ByteKey, Holds, ExpiryDeadline;
    if raws != [] {
      var n := |raws| - 1;
      CandidatesServe(kv, flows, raws[..n], before);
      if Parsable(raws[n]) {
        LoadFinds(kv, flows, ParseExpiryKey(raws[n]).value);
      }
    }
  }

  lemma {:induction false} CandidateIsListed(kv: Keyspace, raws: seq<Text>, before: Time, i: nat, d: Due)
    requires i < |raws| && d in Candidate(kv, raws[i], before)
    ensures d in Candidates(kv, raws, before)
    decreases |raws|
  {
    hide Candidate;
    var n := |raws| - 1;
    if i < n {
      CandidateIsListed(kv, raws[..n], before, i, d);
    }
  }

  lemma DueFlowIsListed(kv: Keyspace, flows: Flows, before: Time, raws: seq<Text>, key: FlowKey)
    requires Holds(kv, flows) && Covered(kv, flows) && InRange(before)
    requires forall raw :: raw in DueScan(kv, before) ==> raw in raws
    requires key in DueSet(flows, before)
    ensures Due(flows[key].expiresAt, key) in Candidates(kv, raws, before)
  {
    hide ParseExpiryKey, Load, ByteKey, DueScan, Candidates, ExpiryKey, FlowKeyBytes;
    ScanFindsDue(kv, flows, before, key);
    var raw := EntryOf(flows[key]);
    var i :| 0 <= i < |raws| && raws[i] == raw;
    assert StoredFlow(kv, key, flows[key]);
    LoadFinds(kv, flows, key);
    CandidateIsListed(kv, raws, before, i, Due(flows[key].expiresAt, key));
  }

  lemma ScanServes(kv: Keyspace, flows: Flows, before: Time, limit: int, raws: seq<Text>)
    requires Holds(kv, flows) && Covered(kv, flows) && InRange(before) && raws == InIdOrder(DueScan(kv, before))
    ensures Serves(kv, flows, before, limit, MapSeq(KeyOf, Limited(Sort(DueLess, Candidates(kv, raws, before)), limit)))
  {
    hide Candidates, Sort, InIdOrder, DueLess, ByteKey, Holds, Covered, InScan, DueUpper;
    InIdOrderIs(DueScan(kv, before));
    forall raw | raw in DueScan(kv, before) ensures raw in Entries(kv) {
      ScanStaysInIndex(kv, before, raw);
    }
    SubsetIsSmaller(DueScan(kv, before), Entries(kv));
    var found := Candidates(kv, raws, before);
    CandidatesServe(kv, flows, raws, before);
    var sorted := Sort(DueLess, found);
    SortPermutes(DueLess, found);
    var due := MapSeq(KeyOf, Limited(sorted, limit));
    forall i | 0 <= i < |due| ensures ByteKey(due[i]) && (due[i] in flows ==> due[i] in DueSet(flows, before)) {
      assert sorted[i] in multiset(found);
    }
    if limit <= 0 || |due| < limit {
      forall key | key in DueSet(flows, before) ensures key in due {
        DueFlowIsListed(kv, flows, before, raws, key);
        SortKeepsMembers(DueLess, found, Due(flows[key].expiresAt, key));
        var i :| 0 <= i < |sorted| && sorted[i] == Due(flows[key].expiresAt, key);
        assert due[i] == key;
      }
    }
  }

  lemma SubsetIsSmaller<T>(a: set<T>, b: set<T>)
    requires a <= b
    ensures |a| <= |b|
  {
    assert b == a + (b - a);
  }

  lemma CurrentIsParsable(kv: Keyspace, flows: Flows, before: Time, raw: Text)
    requires Indexed(kv, flows) && InRange(before) && raw in DueScan(kv, before)
    ensures Parsable(raw)
  {
    hide ParseExpiryKey, Holds, Covered, DueScan, ExpiryKey;
    ScanStaysInIndex(kv, before, raw);
    ScanIsStored(kv, before, raw);
    assert CurrentEntry(raw, flows);
  }

  /** DueFlows from the index. When the index agrees with the flows, the answer is one the full scan
      of the simple store could give; an entry that does not parse fails the query. */
  method DueFromIndex(kv: Keyspace, before: Time, limit: int, ghost flows: Flows) returns (ok: bool, due: seq<FlowKey>)
    requires InRange(before) && Holds(kv, flows)
    ensures ok <==> forall raw :: raw in DueScan(kv, before) ==> Parsable(raw)
    ensures Indexed(kv, flows) ==> ok && Answers(flows, before, limit, due)
    ensures ok && Covered(kv, flows) ==> Serves(kv, flows, before, limit, due)
  {
    hide Candidates, Sort, InIdOrder, DueScan, DueLess, Holds, Exact, Covered, Parsable, Serves, Answers;
    var raws := ScanDueEntries(kv, before);
    InIdOrderIs(DueScan(kv, before));
    var found;
    ok, found := CollectCandidates(kv, raws, before);
    due := MapSeq(KeyOf, Limited(Sort(DueLess, found), limit));
    if Indexed(kv, flows) {
      forall raw | raw in DueScan(kv, before) ensures Parsable(raw) {
        CurrentIsParsable(kv, flows, before, raw);
      }
      ExactScanAnswers(kv, flows, before, limit, raws);
    }
    if Covered(kv, flows) {
      ScanServes(kv, flows, before, limit, raws);
    }
  }

  lemma ExactScanAnswers(kv: Keyspace, flows: Flows, before: Time, limit: int, raws: seq<Text>)
    requires Indexed(kv, flows) && InRange(before) && raws == InIdOrder(DueScan(kv, before))
    ensures Answers(flows, before, limit, MapSeq(KeyOf, Limited(Sort(DueLess, Candidates(kv, raws, before)), limit)))
  {
    hide Candidates, Sort, InIdOrder, DueScan, DueLess, CurrentEntry, IsEntryRaw, Holds, Covered;
    InIdOrderIs(DueScan(kv, before));
    forall i | 0 <= i < |raws| ensures CurrentEntry(raws[i], flows) {
      assert raws[i] in DueScan(kv, before);
      ScanStaysInIndex(kv, before, raws[i]);
      ScanIsStored(kv, before, raws[i]);
    }
    CandidatesWhenExact(kv, flows, raws, before);
    DueKeysAreDue(kv, flows, before, raws);
    FoundAll(flows, before, Candidates(kv, raws, before));
    DueLessIsOrder();
    SortedCandidatesAnswer(flows, before, limit, Candidates(kv, raws, before), DueLess);
  }
}
