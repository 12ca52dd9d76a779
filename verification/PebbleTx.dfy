/** The durable store's transaction object: flows with their index, and the dead-letter family read
    in key order. */
module PebbleTx {
  import opened ByteText
  import opened Rules
  import opened FlowModel
  import opened Ordering
  import opened Outbox
  import opened DeadLetters
  import opened DeadLetterPaging
  import opened DueFlows
  import opened PebbleKeys
  import opened PebbleStore

  function DeadKey(id: OutputId): Text
  {
    "d/" + id
  }

  /** IDs are hex digests; the scan bound only needs that none starts with 0xff. */
  predicate ScannableId(id: OutputId)
  {
    IsBytes(id) && (id == "" || id[0] != TOP)
  }

  predicate StoredDead(kv: Keyspace, id: OutputId, r: Record)
  {
    ScannableId(id) && r.outputId == id && DeadKey(id) in kv && kv[DeadKey(id)] == RecordCell(r)
  }

  ghost predicate HoldsDead(kv: Keyspace, dead: map<OutputId, Record>)
  {
    && (forall id :: id in dead ==> StoredDead(kv, id, dead[id]))
    && (forall raw :: raw in kv && HasPrefix(raw, "d/") ==> raw[2..] in dead)
  }

  function DeadScan(kv: Keyspace): set<Text>
  {
    set raw | raw in kv && InScan(raw, "d/", "d/" + [TOP])
  }

  lemma ScanIsDead(kv: Keyspace, dead: map<OutputId, Record>, raw: Text)
    requires HoldsDead(kv, dead)
    ensures raw in DeadScan(kv) <==> |raw| >= 2 && raw[2..] in dead && raw == DeadKey(raw[2..])
  {
    hide InScan, Less;
    if raw in DeadScan(kv) {
      PrefixScanStays("d/", [TOP], raw);
    }
    if |raw| >= 2 && raw[2..] in dead && raw == DeadKey(raw[2..]) {
      assert StoredDead(kv, raw[2..], dead[raw[2..]]);
      PrefixScanReaches("d/", raw[2..]);
    }
  }

  function IdsIn(raws: seq<Text>): seq<OutputId>
    requires forall i :: 0 <= i < |raws| ==> |raws[i]| >= 2
  {
    seq(|raws|, i requires 0 <= i < |raws| => raws[i][2..])
  }

  lemma DeadIsListed(kv: Keyspace, dead: map<OutputId, Record>, raws: seq<Text>, id: OutputId)
    requires HoldsDead(kv, dead) && id in dead
    requires forall raw :: raw in DeadScan(kv) ==> raw in raws
    requires forall i :: 0 <= i < |raws| ==> |raws[i]| >= 2
    ensures id in IdsIn(raws)
  {
    hide DeadScan, HoldsDead;
    assert DeadKey(id)[2..] == id;
    ScanIsDead(kv, dead, DeadKey(id));
    assert DeadKey(id) in raws;
    var i :| 0 <= i < |raws| && raws[i] == DeadKey(id);
    assert IdsIn(raws)[i] == id;
  }

  /** Reading the family in key order lists the dead letters in ID order. */
  lemma ScanListsIds(kv: Keyspace, dead: map<OutputId, Record>, raws: seq<Text>)
    requires HoldsDead(kv, dead) && raws == InIdOrder(DeadScan(kv))
    ensures forall i :: 0 <= i < |raws| ==> |raws[i]| >= 2 && raws[i] == DeadKey(raws[i][2..])
    ensures IdsIn(raws) == InIdOrder(dead.Keys)
  {
    hide InIdOrder, DeadScan, Less;
    InIdOrderIs(DeadScan(kv));
    forall i | 0 <= i < |raws| ensures |raws[i]| >= 2 && raws[i][2..] in dead && raws[i] == DeadKey(raws[i][2..]) {
      assert raws[i] in raws;
      ScanIsDead(kv, dead, raws[i]);
    }
    var ids := IdsIn(raws);
    forall i, j | 0 <= i < j < |ids| ensures ids[i] != ids[j] && !Less(ids[j], ids[i]) {
      LessSharedPrefix("d/", ids[j], ids[i]);
    }
    forall id ensures id in ids <==> id in dead.Keys {
      if id in dead {
        DeadIsListed(kv, dead, raws, id);
      }
    }
    DistinctListing(ids, dead.Keys);
    LessIsOrder();
    OrderedListing(Less, dead.Keys, ids);
    InIdOrderDef(dead.Keys);
  }

  /** The dead letters in ID order. */
  ghost predicate Scanned(dead: map<OutputId, Record>, records: seq<Record>)
  {
    && MapSeq(IdOf, records) == InIdOrder(dead.Keys)
    && forall i :: 0 <= i < |records| ==> records[i].outputId in dead && dead[records[i].outputId] == records[i]
  }

  method ReadEach(kv: Keyspace, raws: seq<Text>) returns (records: seq<Record>)
    requires forall i :: 0 <= i < |raws| ==> raws[i] in kv && kv[raws[i]].RecordCell?
    ensures |records| == |raws|
    ensures forall i :: 0 <= i < |raws| ==> records[i] == kv[raws[i]].record
  {
    records := [];
    for i := 0 to |raws|
      invariant |records| == i
      invariant forall k :: 0 <= k < i ==> records[k] == kv[raws[k]].record
    {
      records := records + [kv[raws[i]].record];
    }
  }

  lemma ScannedCells(kv: Keyspace, dead: map<OutputId, Record>, raws: seq<Text>, i: nat)
    requires HoldsDead(kv, dead) && raws == InIdOrder(DeadScan(kv)) && i < |raws|
    ensures |raws[i]| >= 2 && raws[i] in kv && kv[raws[i]].RecordCell?
    ensures kv[raws[i]].record.outputId == raws[i][2..] && raws[i][2..] in dead
    ensures dead[raws[i][2..]] == kv[raws[i]].record
  {
    hide InIdOrder, Less;
    InIdOrderIs(DeadScan(kv));
    assert raws[i] in raws;
    ScanIsDead(kv, dead, raws[i]);
    assert StoredDead(kv, raws[i][2..], dead[raws[i][2..]]);
  }

  /** The iterator over the dead-letter family. */
  method ScanDead(kv: Keyspace, ghost dead: map<OutputId, Record>) returns (records: seq<Record>)
    requires HoldsDead(kv, dead)
    ensures |records| == |dead| && Scanned(dead, records)
  {
    hide InIdOrder, HoldsDead;
    var all := DeadScan(kv);
    var listed := ListSet(all);
    var raws := SortIds(listed, all);
    forall i | 0 <= i < |raws| ensures |raws[i]| >= 2 && raws[i] in kv && kv[raws[i]].RecordCell? {
      ScannedCells(kv, dead, raws, i);
    }
    records := ReadEach(kv, raws);
    ScanListsIds(kv, dead, raws);
    InIdOrderIs(dead.Keys);
    forall i | 0 <= i < |records| ensures records[i].outputId in dead && dead[records[i].outputId] ==
            records[i] && records[i].outputId == IdsIn(raws)[i] {
      ScannedCells(kv, dead, raws, i);
    }
    assert MapSeq(IdOf, records) == IdsIn(raws);
  }

  function IdOf(r: Record): OutputId
  {
    r.outputId
  }

  function AgeOfRecord(r: Record): Age
  {
    Age(r.createdAt, r.outputId)
  }

  // ---------- trimming ----------

  lemma ScannedAges(dead: map<OutputId, Record>, records: seq<Record>)
    requires Scanned(dead, records)
    ensures multiset(MapSeq(AgeOfRecord, records)) == multiset(AgesOf(dead))
  {
    hide InIdOrder;
    InIdOrderIs(dead.Keys);
    var ages, ids := MapSeq(AgeOfRecord, records), MapSeq(IdOf, records);
    assert forall i :: 0 <= i < |ages| ==> ages[i] == AgeOf(dead, ids[i]);
    forall a ensures a in ages <==> a in AgesOf(dead) {
      if a in AgesOf(dead) {
        assert a.id in ids;
        var i :| 0 <= i < |ids| && ids[i] == a.id;
        assert ages[i] == a;
      }
      if a in ages {
        var i :| 0 <= i < |ages| && ages[i] == a;
        assert ids[i] in dead;
      }
    }
    assert forall i, j :: 0 <= i < j < |ages| ==> ids[i] != ids[j];
    DistinctListing(ages, AgesOf(dead));
  }

  /** Sorts every dead letter by age and drops a prefix. It evicts the same records, in the same
      order, as deleting the minimum repeatedly. */
  method TrimBySorting(records: seq<Record>, cap: int, ghost dead: map<OutputId, Record>) returns (victims: seq<Age>)
    requires Scanned(dead, records) && |records| == |dead|
    ensures victims == Victims(dead, cap)
  {
    hide InIdOrder, Sort, Older, Victims;
    var ages := MapSeq(AgeOfRecord, records);
    ScannedAges(dead, records);
    var sorted := Sort(Older, ages);
    SortedPrefixIsVictims(dead, ages, cap);
    victims := if cap >= 0 && |records| > cap then sorted[..|records| - cap] else [];
    assert sorted[..0] == [];
  }

  // ---------- paging ----------

  /** The listed IDs after the cursor that match, in the order of the scan. */
  function Chosen(dead: map<OutputId, Record>, f: Filter, cursor: Option<OutputId>, ids: seq<OutputId>): seq<OutputId>
    requires forall i :: 0 <= i < |ids| ==> ids[i] in dead
  {
    if ids == [] then []
    else
      var n := |ids| - 1;
      var before := Chosen(dead, f, cursor, ids[..n]);
      if (cursor.Some? && !Less(cursor.value, ids[n])) || !Matches(f, dead[ids[n]]) then before else before + [ids[n]]
  }

  function Wanted(dead: map<OutputId, Record>, f: Filter, cursor: Option<OutputId>): set<OutputId>
  {
    match cursor
    case None => Matching(dead, f)
    case Some(c) => Beyond(Matching(dead, f), c)
  }

  lemma {:induction false} ChosenFollows(dead: map<OutputId, Record>, f: Filter, cursor: Option<OutputId>,
                                         ids: seq<OutputId>)
    requires forall i :: 0 <= i < |ids| ==> ids[i] in dead
    requires forall i, j :: 0 <= i < j < |ids| ==> Less(ids[i], ids[j])
    ensures forall id :: id in Chosen(dead, f, cursor, ids) <==> id in ids && id in Wanted(dead, f, cursor)
    ensures forall i, j :: 0 <= i < j < |Chosen(dead, f, cursor, ids)| ==>
            Less(Chosen(dead, f, cursor, ids)[i], Chosen(dead, f, cursor, ids)[j])
    decreases |ids|
  {
    hide Less, Matches;
    if ids != [] {
      var n := |ids| - 1;
      ChosenFollows(dead, f, cursor, ids[..n]);
      assert ids == ids[..n] + [ids[n]];
      var before := Chosen(dead, f, cursor, ids[..n]);
      forall i | 0 <= i < |before| ensures Less(before[i], ids[n]) {
        assert before[i] in ids[..n];
      }
    }
  }

  lemma ChosenIsListing(dead: map<OutputId, Record>, f: Filter, cursor: Option<OutputId>)
    requires forall i :: 0 <= i < |InIdOrder(dead.Keys)| ==> InIdOrder(dead.Keys)[i] in dead
    ensures Chosen(dead, f, cursor, InIdOrder(dead.Keys)) == InIdOrder(Wanted(dead, f, cursor))
  {
    hide InIdOrder, Less, Chosen;
    var ids := InIdOrder(dead.Keys);
    InIdOrderIs(dead.Keys);
    forall i, j | 0 <= i < j < |ids| ensures Less(ids[i], ids[j]) {
      StrictlyAscending(dead.Keys, i, j);
    }
    ChosenFollows(dead, f, cursor, ids);
    var chosen := Chosen(dead, f, cursor, ids);
    LessIsOrder();
    DistinctListing(chosen, Wanted(dead, f, cursor));
    OrderedListing(Less, Wanted(dead, f, cursor), chosen);
    InIdOrderDef(Wanted(dead, f, cursor));
  }

  lemma {:induction false} ChosenPrefix(dead: map<OutputId, Record>, f: Filter, cursor: Option<OutputId>,
                                        ids: seq<OutputId>, n: nat)
    requires forall i :: 0 <= i < |ids| ==> ids[i] in dead
    requires n <= |ids|
    ensures Chosen(dead, f, cursor, ids[..n]) <= Chosen(dead, f, cursor, ids)
    decreases |ids| - n
  {
    hide Less, Matches;
    if n == |ids| {
      assert ids[..n] == ids;
    } else {
      assert ids[..n + 1][..n] == ids[..n];
      ChosenPrefix(dead, f, cursor, ids, n + 1);
    }
  }

  predicate Skipped(dead: map<OutputId, Record>, f: Filter, cursor: Option<OutputId>, id: OutputId)
    requires id in dead
  {
    (cursor.Some? && !Less(cursor.value, id)) || !Matches(f, dead[id])
  }

  lemma ChosenStep(dead: map<OutputId, Record>, f: Filter, cursor: Option<OutputId>, ids: seq<OutputId>, i: nat)
    requires forall k :: 0 <= k < |ids| ==> ids[k] in dead
    requires i < |ids|
    ensures Chosen(dead, f, cursor, ids[..i + 1]) ==
            Chosen(dead, f, cursor, ids[..i]) + (if Skipped(dead, f, cursor, ids[i]) then [] else [ids[i]])
    ensures Chosen(dead, f, cursor, ids[..i + 1]) <= Chosen(dead, f, cursor, ids)
  {
    hide Less, Matches;
    assert ids[..i + 1][..i] == ids[..i] && ids[..i + 1][i] == ids[i];
    ChosenPrefix(dead, f, cursor, ids, i + 1);
  }

  lemma ChosenAll(dead: map<OutputId, Record>, f: Filter, cursor: Option<OutputId>, records: seq<Record>)
    requires Scanned(dead, records)
    ensures forall k :: 0 <= k < |records| ==> MapSeq(IdOf, records)[k] in dead
    ensures Chosen(dead, f, cursor, MapSeq(IdOf, records)) == InIdOrder(Wanted(dead, f, cursor))
    ensures Chosen(dead, f, cursor, MapSeq(IdOf, records)[..0]) == []
    ensures MapSeq(IdOf, records)[..|records|] == MapSeq(IdOf, records)
  {
    hide InIdOrder, Less, Matches;
    InIdOrderIs(dead.Keys);
    ChosenIsListing(dead, f, cursor);
  }

  /** The page is shown without payloads. */
  predicate ShowsAll(dead: map<OutputId, Record>, page: seq<OutputId>, shown: seq<Metadata>)
  {
    |shown| == |page| && forall k :: 0 <= k < |page| ==> page[k] in dead && shown[k] == MetadataOf(dead[page[k]])
  }

  /** The scan that stops once a page is full and another match follows. */
  method ScanPage(records: seq<Record>, f: Filter, cursor: OutputId, ghost dead: map<OutputId, Record>)
    returns (page: seq<OutputId>, shown: seq<Metadata>, next: OutputId)
    requires Scanned(dead, records)
    ensures page == PageOf(InIdOrder(Beyond(Matching(dead, f), cursor)), f.limit)
    ensures ShowsAll(dead, page, shown)
    ensures next == NextCursor(InIdOrder(Beyond(Matching(dead, f), cursor)), f.limit)
  {
    hide InIdOrder, Less, Matches, Beyond, Matching, Chosen;
    ghost var ids, from := MapSeq(IdOf, records), Some(cursor);
    ChosenAll(dead, f, from, records);
    page, shown, next := [], [], "";
    for i := 0 to |records|
      invariant ShowsAll(dead, page, shown)
      invariant page == Chosen(dead, f, from, ids[..i])
      invariant f.limit > 0 ==> |page| <= f.limit
      invariant next == ""
    {
      var record := records[i];
      ChosenStep(dead, f, from, ids, i);
      if !Less(cursor, record.outputId) || !Matches(f, record) {
        continue;
      }
      if f.limit > 0 && |page| == f.limit {
        next := page[|page| - 1];
        return;
      }
      page, shown := page + [record.outputId], shown + [MetadataOf(record)];
    }
  }

  /** The replay scan stops as soon as the limit is reached. */
  method ScanReplay(records: seq<Record>, f: Filter, ghost dead: map<OutputId, Record>) returns (chosen: seq<OutputId>)
    requires Scanned(dead, records)
    ensures chosen == ReplayIds(dead, f)
  {
    hide InIdOrder, Less, Matches, Matching, Chosen;
    ghost var ids := MapSeq(IdOf, records);
    ChosenAll(dead, f, None, records);
    chosen := [];
    for i := 0 to |records|
      invariant chosen == Chosen(dead, f, None, ids[..i])
      invariant f.limit > 0 ==> |chosen| < f.limit
    {
      var record := records[i];
      ChosenStep(dead, f, None, ids, i);
      if Matches(f, record) {
        chosen := chosen + [record.outputId];
        if f.limit > 0 && |chosen| == f.limit {
          return;
        }
      }
    }
  }

  // ---------- the transaction object ----------

  lemma TrimmedHolds(kv: Keyspace, dead: map<OutputId, Record>, ids: set<OutputId>)
    requires HoldsDead(kv, dead)
    ensures HoldsDead(kv - (set id | id in ids :: DeadKey(id)), dead - ids)
  {
    hide ScannableId;
    var gone := set id | id in ids :: DeadKey(id);
    forall id | id in dead - ids ensures StoredDead(kv - gone, id, dead[id]) {
      assert StoredDead(kv, id, dead[id]);
      forall other | other in ids ensures DeadKey(other) != DeadKey(id) {
        assert DeadKey(other)[2..] == other && DeadKey(id)[2..] == id;
      }
    }
    forall raw | raw in kv - gone && HasPrefix(raw, "d/") ensures raw[2..] in dead - ids {
      assert raw == DeadKey(raw[2..]);
    }
  }

  const DROPPED_KEY: Text := "m/dlq-dropped"

  /** The durable count of evicted records. */
  function DroppedTotal(kv: Keyspace): nat
  {
    if DROPPED_KEY in kv && kv[DROPPED_KEY].CounterCell? then kv[DROPPED_KEY].total else 0
  }

  /** The two keyspaces agree on a key. */
  predicate SameAt(before: Keyspace, after: Keyspace, raw: Text)
  {
    (raw in before <==> raw in after) && (raw in before ==> before[raw] == after[raw])
  }

  ghost predicate TouchesDeadOnly(before: Keyspace, after: Keyspace)
  {
    forall raw :: !HasPrefix(raw, "d/") && raw != DROPPED_KEY ==> SameAt(before, after, raw)
  }

  ghost predicate AreVictims(dead: map<OutputId, Record>, cap: int, dropped: seq<Record>)
  {
    && |dropped| == |Victims(dead, cap)|
    && forall i :: 0 <= i < |dropped| ==>
        Victims(dead, cap)[i].id in dead && dropped[i] == dead[Victims(dead, cap)[i].id]
  }

  method ReadVictims(kv: Keyspace, victims: seq<Age>, ghost dead: map<OutputId, Record>) returns (dropped: seq<Record>)
    requires HoldsDead(kv, dead) && forall v :: v in victims ==> v.id in dead
    ensures |dropped| == |victims|
    ensures forall i :: 0 <= i < |victims| ==> victims[i].id in dead && dropped[i] == dead[victims[i].id]
  {
    forall i | 0 <= i < |victims| ensures victims[i].id in dead && StoredDead(kv, victims[i].id, dead[victims[i].id]) {
      assert victims[i] in victims;
    }
    dropped := seq(|victims|, i requires 0 <= i < |victims| => kv[DeadKey(victims[i].id)].record);
  }

  lemma CounterIsElsewhere(kv: Keyspace, dead: map<OutputId, Record>, total: nat)
    requires HoldsDead(kv, dead)
    ensures HoldsDead(kv[DROPPED_KEY := CounterCell(total)], dead)
  {
    hide ScannableId;
    var after := kv[DROPPED_KEY := CounterCell(total)];
    forall id | id in dead ensures StoredDead(after, id, dead[id]) {
      assert StoredDead(kv, id, dead[id]);
      assert DeadKey(id)[0] == 'd' && DROPPED_KEY[0] == 'm';
    }
    forall raw | raw in after && HasPrefix(raw, "d/") ensures raw[2..] in dead {
      assert raw[..2][0] == 'd' && DROPPED_KEY[0] == 'm';
    }
  }

  lemma DeletesAreDead(kv: Keyspace, ids: set<OutputId>)
    ensures TouchesDeadOnly(kv, kv - (set id | id in ids :: DeadKey(id)))
    ensures DroppedTotal(kv - (set id | id in ids :: DeadKey(id))) == DroppedTotal(kv)
  {
    var gone := set id | id in ids :: DeadKey(id);
    forall raw | raw in gone ensures HasPrefix(raw, "d/") {
      var id :| id in ids && raw == DeadKey(id);
      assert raw[..2] == "d/";
    }
    assert DROPPED_KEY[..2][0] == 'm';
  }

  class Tx {
    var kv: Keyspace
    const maxDlq: int

    constructor (kv: Keyspace, maxDlq: int)
      ensures this.kv == kv && this.maxDlq == maxDlq
    {
      this.kv, this.maxDlq := kv, maxDlq;
    }

    /** Replaces the entry of the previous deadline by that of the new one. */
    method SaveFlow(f: Flow, ghost flows: Flows)
      requires Holds(kv, flows) && Storable(f)
      modifies this
      ensures kv == SavedIn(old(kv), f) && Holds(kv, flows[f.key := f])
      ensures old(Indexed(kv, flows)) ==> Indexed(kv, flows[f.key := f])
      ensures Covered(old(kv), flows) ==> Covered(kv, flows[f.key := f])
    {
      hide Load, FlowKeyBytes, ExpiryKey, Holds, Covered, Exact, ByteKey;
      SaveHolds(kv, flows, f);
      SaveIndexes(kv, flows, f);
      var previous := Load(kv, f.key);
      if previous.Some? && InRange(previous.value.expiresAt) {
        kv := kv - {ExpiryKey(previous.value.expiresAt, f.key)};
      }
      kv := kv[FlowKeyBytes(f.key) := FlowCell(f)];
      kv := kv[EntryOf(f) := IndexEntry];
    }

    method DeleteFlow(key: FlowKey, ghost flows: Flows)
      requires Holds(kv, flows) && ByteKey(key)
      modifies this
      ensures kv == DeletedFrom(old(kv), key) && Holds(kv, flows - {key})
      ensures old(Indexed(kv, flows)) ==> Indexed(kv, flows - {key})
      ensures Covered(old(kv), flows) ==> Covered(kv, flows - {key})
      ensures kv.Keys <= old(kv.Keys)
    {
      hide Load, FlowKeyBytes, ExpiryKey, Holds, Covered, Exact, ByteKey;
      DeleteKeeps(kv, flows, key);
      var previous := Load(kv, key);
      if previous.Some? && InRange(previous.value.expiresAt) {
        kv := kv - {ExpiryKey(previous.value.expiresAt, key)};
      }
      kv := kv - {FlowKeyBytes(key)};
    }

    method DueFlows(before: Time, limit: int, ghost flows: Flows) returns (ok: bool, due: seq<FlowKey>)
      requires InRange(before) && Holds(kv, flows)
      ensures Indexed(kv, flows) ==> ok && Answers(flows, before, limit, due)
      ensures ok <==> forall raw :: raw in DueScan(kv, before) ==> Parsable(raw)
      ensures ok && Covered(kv, flows) ==> Serves(kv, flows, before, limit, due)
    {
      ok, due := DueFromIndex(kv, before, limit, flows);
    }

    method TrimDeadLetters(ghost dead: map<OutputId, Record>) returns (dropped: seq<Record>, retained: nat)
      requires HoldsDead(kv, dead)
      modifies this
      ensures AreVictims(dead, maxDlq, dropped) && retained == |Kept(dead, maxDlq)|
      ensures HoldsDead(kv, Kept(dead, maxDlq))
      ensures DroppedTotal(kv) == DroppedTotal(old(kv)) + |dropped|
      ensures TouchesDeadOnly(old(kv), kv)
    {
      hide HoldsDead, Scanned, Victims, IdsOf, DroppedTotal;
      var records := ScanDead(kv, dead);
      var victims := TrimBySorting(records, maxDlq, dead);
      VictimsAreDead(dead, maxDlq);
      dropped := ReadVictims(kv, victims, dead);
      RetentionKeepsNewest(dead, maxDlq);
      retained := |records| - |dropped|;
      TrimmedHolds(kv, dead, IdsOf(victims));
      DeletesAreDead(kv, IdsOf(victims));
      kv := kv - (set id | id in IdsOf(victims) :: DeadKey(id));
      if |dropped| > 0 {
        AddDropped(|dropped|, Kept(dead, maxDlq));
      }
    }

    method AddDropped(count: nat, ghost dead: map<OutputId, Record>)
      requires HoldsDead(kv, dead)
      modifies this
      ensures HoldsDead(kv, dead) && DroppedTotal(kv) == DroppedTotal(old(kv)) + count
      ensures TouchesDeadOnly(old(kv), kv)
    {
      hide HoldsDead;
      CounterIsElsewhere(kv, dead, DroppedTotal(kv) + count);
      kv := kv[DROPPED_KEY := CounterCell(DroppedTotal(kv) + count)];
    }

    method ListDeadLetters(f: Filter, cursor: OutputId, ghost dead: map<OutputId, Record>)
      returns (page: seq<Metadata>, next: OutputId)
      requires HoldsDead(kv, dead)
      ensures
        var ids := InIdOrder(Beyond(Matching(dead, f), cursor));
        && (forall id :: id in PageOf(ids, f.limit) ==> id in dead)
        && page == AllMetadata(dead, PageOf(ids, f.limit))
        && next == NextCursor(ids, f.limit)
    {
      hide HoldsDead, InIdOrder, Beyond, Matching, MetadataOf;
      var records := ScanDead(kv, dead);
      var ids;
      ids, page, next := ScanPage(records, f, cursor, dead);
    }
  }
}
