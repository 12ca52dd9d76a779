/** Resolving and replaying in the durable store: point reads and writes over two key families, which
    do to the boxes exactly what the simple store does, and nothing to the open flows. */
module PebbleDelivery {
  import opened ByteText
  import opened Rules
  import opened FlowModel
  import opened Ordering
  import opened Outbox
  import opened DeadLetters
  import opened DeadLetterPaging
  import opened DueFlows
  import opened PebbleKeys
  import opened PebbleStore
  import opened PebbleTx
  import MemoryStore

  function OutboxKey(id: OutputId): Text
  {
    "o/" + id
  }

  predicate StoredRecord(kv: Keyspace, id: OutputId, r: Record)
  {
    ScannableId(id) && r.outputId == id && OutboxKey(id) in kv && kv[OutboxKey(id)] == RecordCell(r)
  }

  ghost predicate HoldsRecords(kv: Keyspace, records: map<OutputId, Record>)
  {
    && (forall id :: id in records ==> StoredRecord(kv, id, records[id]))
    && (forall raw :: raw in kv && HasPrefix(raw, "o/") ==> raw[2..] in records)
  }

  /** The keyspace is these boxes. */
  ghost predicate HoldsBoxes(kv: Keyspace, b: Boxes)
  {
    HoldsRecords(kv, b.records) && HoldsDead(kv, b.dead) && DroppedTotal(kv) == b.dropped
  }

  predicate IsDelivery(raw: Text)
  {
    HasPrefix(raw, "o/") || HasPrefix(raw, "d/") || raw == DROPPED_KEY
  }

  /** Flows, index and whatever else there may be are untouched. */
  ghost predicate LeavesFlows(before: Keyspace, after: Keyspace)
  {
    forall raw :: !IsDelivery(raw) ==> SameAt(before, after, raw)
  }

  // ---------- keys of different families differ ----------

  lemma KeysApart(id: OutputId, other: OutputId)
    ensures OutboxKey(id)[2..] == id && DeadKey(id)[2..] == id
    ensures HasPrefix(OutboxKey(id), "o/") && !HasPrefix(OutboxKey(id), "d/") && OutboxKey(id) != DROPPED_KEY
    ensures HasPrefix(DeadKey(id), "d/") && !HasPrefix(DeadKey(id), "o/") && DeadKey(id) != DROPPED_KEY
    ensures OutboxKey(id) != DeadKey(other)
    ensures id != other ==> OutboxKey(id) != OutboxKey(other) && DeadKey(id) != DeadKey(other)
  {
    assert OutboxKey(id)[..2] == "o/" && DeadKey(id)[..2] == "d/";
    assert OutboxKey(id)[0] == 'o' && DeadKey(id)[0] == 'd' && DeadKey(other)[0] == 'd' && DROPPED_KEY[0] == 'm';
    assert OutboxKey(other)[2..] == other && DeadKey(other)[2..] == other;
    assert "o/"[0] == 'o' && "d/"[0] == 'd';
  }

  lemma RawIsKey(raw: Text)
    ensures HasPrefix(raw, "o/") ==> raw == OutboxKey(raw[2..])
    ensures HasPrefix(raw, "d/") ==> raw == DeadKey(raw[2..])
  {
  }

  // ---------- one write at a time ----------

  lemma PutRecord(kv: Keyspace, b: Boxes, id: OutputId, r: Record)
    requires HoldsBoxes(kv, b) && ScannableId(id) && r.outputId == id
    ensures HoldsBoxes(kv[OutboxKey(id) := RecordCell(r)], b.(records := b.records[id := r]))
    ensures LeavesFlows(kv, kv[OutboxKey(id) := RecordCell(r)])
  {
    hide ScannableId, HasPrefix, OutboxKey, DeadKey;
    var after := kv[OutboxKey(id) := RecordCell(r)];
    KeysApart(id, id);
    var records := b.records[id := r];
    forall x | x in records ensures StoredRecord(after, x, records[x]) {
      if x != id {
        assert StoredRecord(kv, x, b.records[x]);
        KeysApart(x, id);
      }
    }
    forall x | x in b.dead ensures StoredDead(after, x, b.dead[x]) {
      assert StoredDead(kv, x, b.dead[x]);
      KeysApart(id, x);
    }
  }

  lemma DropRecord(kv: Keyspace, b: Boxes, id: OutputId)
    requires HoldsBoxes(kv, b)
    ensures HoldsBoxes(kv - {OutboxKey(id)}, b.(records := b.records - {id}))
    ensures LeavesFlows(kv, kv - {OutboxKey(id)})
  {
    hide HoldsRecords, HoldsDead, HasPrefix, OutboxKey;
    KeysApart(id, id);
    RecordDropped(kv, b.records, id);
    DeadKept(kv, kv - {OutboxKey(id)}, b.dead);
  }

  lemma RecordDropped(kv: Keyspace, records: map<OutputId, Record>, id: OutputId)
    requires HoldsRecords(kv, records)
    ensures HoldsRecords(kv - {OutboxKey(id)}, records - {id})
  {
    hide ScannableId, OutboxKey;
    var after := kv - {OutboxKey(id)};
    forall x | x in records - {id} ensures StoredRecord(after, x, records[x]) {
      assert StoredRecord(kv, x, records[x]);
      KeysApart(x, id);
    }
    forall raw | raw in after && HasPrefix(raw, "o/") ensures raw[2..] in records - {id} {
      RawIsKey(raw);
    }
  }

  lemma RecordsKept(before: Keyspace, after: Keyspace, records: map<OutputId, Record>)
    requires HoldsRecords(before, records) && forall raw :: HasPrefix(raw, "o/") ==> SameAt(before, after, raw)
    ensures HoldsRecords(after, records)
  {
    hide ScannableId, OutboxKey;
    forall id | id in records ensures StoredRecord(after, id, records[id]) {
      assert StoredRecord(before, id, records[id]);
      KeysApart(id, id);
      assert SameAt(before, after, OutboxKey(id));
    }
    forall raw | raw in after && HasPrefix(raw, "o/") ensures raw[2..] in records {
      assert SameAt(before, after, raw);
    }
  }

  lemma DeadKept(before: Keyspace, after: Keyspace, dead: map<OutputId, Record>)
    requires HoldsDead(before, dead) && forall raw :: HasPrefix(raw, "d/") ==> SameAt(before, after, raw)
    ensures HoldsDead(after, dead)
  {
    hide ScannableId, DeadKey;
    forall id | id in dead ensures StoredDead(after, id, dead[id]) {
      assert StoredDead(before, id, dead[id]);
      KeysApart(id, id);
      assert SameAt(before, after, DeadKey(id));
    }
    forall raw | raw in after && HasPrefix(raw, "d/") ensures raw[2..] in dead {
      assert SameAt(before, after, raw);
    }
  }

  lemma PutDead(kv: Keyspace, b: Boxes, id: OutputId, r: Record)
    requires HoldsBoxes(kv, b) && ScannableId(id) && r.outputId == id
    ensures HoldsBoxes(kv[DeadKey(id) := RecordCell(r)], b.(dead := b.dead[id := r]))
    ensures LeavesFlows(kv, kv[DeadKey(id) := RecordCell(r)])
  {
    hide ScannableId, HasPrefix, OutboxKey, DeadKey;
    var after := kv[DeadKey(id) := RecordCell(r)];
    KeysApart(id, id);
    var dead := b.dead[id := r];
    forall x | x in dead ensures StoredDead(after, x, dead[x]) {
      if x != id {
        assert StoredDead(kv, x, b.dead[x]);
        KeysApart(x, id);
      }
    }
    forall x | x in b.records ensures StoredRecord(after, x, b.records[x]) {
      assert StoredRecord(kv, x, b.records[x]);
      KeysApart(x, id);
    }
  }

  lemma DropDead(kv: Keyspace, b: Boxes, id: OutputId)
    requires HoldsBoxes(kv, b)
    ensures HoldsBoxes(kv - {DeadKey(id)}, b.(dead := b.dead - {id}))
    ensures LeavesFlows(kv, kv - {DeadKey(id)})
  {
    hide HoldsDead, HoldsRecords, DroppedTotal, TouchesDeadOnly, LeavesFlows, DeadKey;
    var ids := {id};
    var gone := set x | x in ids :: DeadKey(x);
    assert gone == {DeadKey(id)};
    TrimmedHolds(kv, b.dead, ids);
    DeletesAreDead(kv, ids);
    TrimKeepsRecords(kv, kv - gone, b.records);
    TrimLeavesFlows(kv, kv - gone);
  }

  lemma ReadsBoxes(kv: Keyspace, b: Boxes, id: OutputId)
    requires HoldsBoxes(kv, b)
    ensures OutboxKey(id) in kv <==> id in b.records
    ensures id in b.records ==> kv[OutboxKey(id)] == RecordCell(b.records[id])
    ensures id in b.records ==> ScannableId(id) && b.records[id].outputId == id
    ensures DeadKey(id) in kv <==> id in b.dead
    ensures id in b.dead ==> kv[DeadKey(id)] == RecordCell(b.dead[id]) && ScannableId(id) && b.dead[id].outputId == id
  {
    hide ScannableId, HasPrefix, OutboxKey, DeadKey;
    KeysApart(id, id);
    if id in b.records {
      assert StoredRecord(kv, id, b.records[id]);
    }
    if id in b.dead {
      assert StoredDead(kv, id, b.dead[id]);
    }
  }

  lemma LeavesThrough(a: Keyspace, b: Keyspace, c: Keyspace)
    requires LeavesFlows(a, b) && LeavesFlows(b, c)
    ensures LeavesFlows(a, c)
  {
    hide IsDelivery;
    forall raw | !IsDelivery(raw) ensures SameAt(a, c, raw) {
      assert SameAt(a, b, raw) && SameAt(b, c, raw);
    }
  }

  /** EnqueueOutbox: one write, under the output ID. */
  method EnqueueOutbox(tx: Tx, record: Record, ghost b: Boxes)
    requires HoldsBoxes(tx.kv, b) && ScannableId(record.outputId)
    modifies tx
    ensures HoldsBoxes(tx.kv, b.(records := b.records[record.outputId := record]))
    ensures LeavesFlows(old(tx.kv), tx.kv)
  {
    hide HoldsBoxes, LeavesFlows, ScannableId, OutboxKey;
    PutRecord(tx.kv, b, record.outputId, record);
    tx.kv := tx.kv[OutboxKey(record.outputId) := RecordCell(record)];
  }

  // ---------- resolving ----------

  /** What the verdict appends to the references of a resolution under way. */
  predicate Appends(p: Progress, res: Result, added: seq<Ref>, removed: seq<Ref>)
  {
    Resolved(p, res).added == p.added + added && Resolved(p, res).removed == p.removed + removed
  }

  predicate Fails(p: Progress, res: Result)
  {
    res.outputId in p.boxes.records && res.disposition == Unrecognised
  }

  /** One verdict, by point reads and writes. */
  method ApplyVerdict(tx: Tx, res: Result, ghost p: Progress) returns (ok: bool, added: seq<Ref>, removed: seq<Ref>)
    requires HoldsBoxes(tx.kv, p.boxes)
    modifies tx
    ensures ok == !Fails(p, res)
    ensures ok ==> HoldsBoxes(tx.kv, Resolved(p, res).boxes) && Appends(p, res, added, removed)
    ensures LeavesFlows(old(tx.kv), tx.kv)
  {
    hide HoldsBoxes, LeavesFlows, ScannableId, Buried, Postponed, OutboxKey, DeadKey;
    ok, added, removed := true, [], [];
    var id := res.outputId;
    ReadsBoxes(tx.kv, p.boxes, id);
    assert LeavesFlows(tx.kv, tx.kv) by { LeavesItself(tx.kv); }
    if OutboxKey(id) !in tx.kv {
      return;
    }
    var record := tx.kv[OutboxKey(id)].record;
    match res.disposition
    case Delivered =>
      DropRecord(tx.kv, p.boxes, id);
      tx.kv := tx.kv - {OutboxKey(id)};
    case Permanent =>
      added, removed := Bury(tx, record, res, p);
    case Retryable =>
      PostponedKeepsId(record, res);
      PutRecord(tx.kv, p.boxes, id, Postponed(record, res));
      tx.kv := tx.kv[OutboxKey(id) := RecordCell(Postponed(record, res))];
    case Unrecognised =>
      ok := false;
  }

  lemma LeavesItself(kv: Keyspace)
    ensures LeavesFlows(kv, kv)
  {
  }

  lemma PostponedKeepsId(r: Record, res: Result)
    ensures Postponed(r, res).outputId == r.outputId && Buried(r, res).outputId == r.outputId
  {
  }

  /** A permanent rejection: note the dead letter it replaces, write the new one, drop the record. */
  method Bury(tx: Tx, record: Record, res: Result, ghost p: Progress) returns (added: seq<Ref>, removed: seq<Ref>)
    requires HoldsBoxes(tx.kv, p.boxes) && res.disposition == Permanent
    requires res.outputId in p.boxes.records && p.boxes.records[res.outputId] == record
    modifies tx
    ensures HoldsBoxes(tx.kv, Resolved(p, res).boxes) && Appends(p, res, added, removed)
    ensures LeavesFlows(old(tx.kv), tx.kv)
  {
    hide HoldsBoxes, LeavesFlows, ScannableId, Buried, OutboxKey, DeadKey;
    var id := res.outputId;
    ghost var b, start := p.boxes, tx.kv;
    ReadsBoxes(tx.kv, b, id);
    removed := if DeadKey(id) in tx.kv then [RefOf(tx.kv[DeadKey(id)].record)] else [];
    var buried := Buried(record, res);
    PostponedKeepsId(record, res);
    PutDead(tx.kv, b, id, buried);
    tx.kv := tx.kv[DeadKey(id) := RecordCell(buried)];
    ghost var b', mid := b.(dead := b.dead[id := buried]), tx.kv;
    added := [RefOf(buried)];
    DropRecord(tx.kv, b', id);
    tx.kv := tx.kv - {OutboxKey(id)};
    LeavesThrough(start, mid, tx.kv);
  }

  lemma UnderstoodStep(b: Boxes, results: seq<Result>, i: nat)
    requires i < |results|
    ensures ResolvedAll(b, results[..i + 1]) == Resolved(ResolvedAll(b, results[..i]), results[i])
    ensures MemoryStore.Understood(b, results[..i + 1]) <==>
            MemoryStore.Understood(b, results[..i]) && !Fails(ResolvedAll(b, results[..i]), results[i])
  {
    hide Resolved;
    assert results[..i + 1][..i] == results[..i] && results[..i + 1][i] == results[i];
  }

  /** The verdicts in order. */
  method ApplyVerdicts(tx: Tx, results: seq<Result>, ghost b: Boxes)
    returns (ok: bool, added: seq<Ref>, removed: seq<Ref>)
    requires HoldsBoxes(tx.kv, b)
    modifies tx
    ensures ok <==> MemoryStore.Understood(b, results)
    ensures ok ==> HoldsBoxes(tx.kv, ResolvedAll(b, results).boxes)
    ensures ok ==> ResolvedAll(b, results).added == added && ResolvedAll(b, results).removed == removed
    ensures LeavesFlows(old(tx.kv), tx.kv)
  {
    hide HoldsBoxes, LeavesFlows, Resolved, ResolvedAll, MemoryStore.Understood, Fails;
    added, removed := [], [];
    ghost var start := tx.kv;
    NothingResolved(b);
    LeavesItself(start);
    assert results[..0] == [];
    for i := 0 to |results|
      invariant HoldsBoxes(tx.kv, ResolvedAll(b, results[..i]).boxes) && LeavesFlows(start, tx.kv)
      invariant ResolvedAll(b, results[..i]).added == added && ResolvedAll(b, results[..i]).removed == removed
      invariant MemoryStore.Understood(b, results[..i])
    {
      UnderstoodStep(b, results, i);
      ghost var before := tx.kv;
      var more, less;
      ok, more, less := ApplyVerdict(tx, results[i], ResolvedAll(b, results[..i]));
      LeavesThrough(start, before, tx.kv);
      if !ok {
        MemoryStore.NotUnderstood(b, results, i + 1);
        return;
      }
      added, removed := added + more, removed + less;
    }
    assert results[..|results|] == results;
    ok := true;
  }

  lemma NothingResolved(b: Boxes)
    ensures ResolvedAll(b, []) == Progress(b, [], []) && MemoryStore.Understood(b, [])
  {
  }

  lemma TrimLeavesFlows(before: Keyspace, after: Keyspace)
    requires TouchesDeadOnly(before, after)
    ensures LeavesFlows(before, after)
  {
  }

  lemma TrimKeepsRecords(before: Keyspace, after: Keyspace, records: map<OutputId, Record>)
    requires TouchesDeadOnly(before, after) && HoldsRecords(before, records)
    ensures HoldsRecords(after, records)
  {
    hide HoldsRecords;
    forall raw | HasPrefix(raw, "o/") ensures SameAt(before, after, raw) {
      RawIsKey(raw);
      KeysApart(raw[2..], raw[2..]);
    }
    RecordsKept(before, after, records);
  }

  /** ResolveOutbox of the durable store does what that of the simple store does: the same boxes, the
      same failures, the same reported change; open flows and their index are untouched. */
  method ResolveOutbox(tx: Tx, results: seq<Result>, ghost b: Boxes) returns (ok: bool, change: Change)
    requires HoldsBoxes(tx.kv, b)
    modifies tx
    ensures ok <==> MemoryStore.Understood(b, results)
    ensures ok ==> HoldsBoxes(tx.kv, Resolution(b, results, tx.maxDlq).0)
    ensures ok ==> change == Resolution(b, results, tx.maxDlq).1
    ensures LeavesFlows(old(tx.kv), tx.kv)
  {
    hide HoldsRecords, HoldsDead, DroppedTotal, LeavesFlows, ResolvedAll, MemoryStore.Understood, Victims, Kept,
      VictimRefs, TouchesDeadOnly;
    var added, removed;
    ghost var start := tx.kv;
    ok, added, removed := ApplyVerdicts(tx, results, b);
    change := NO_CHANGE;
    if !ok || added == [] {
      return;
    }
    ghost var p, mid := ResolvedAll(b, results), tx.kv;
    var dropped, retained := tx.TrimDeadLetters(p.boxes.dead);
    TrimLeavesFlows(mid, tx.kv);
    LeavesThrough(start, mid, tx.kv);
    TrimKeepsRecords(mid, tx.kv, p.boxes.records);
    VictimsAreDead(p.boxes.dead, tx.maxDlq);
    var refs := MapSeq(RefOf, dropped);
    assert refs == VictimRefs(p.boxes.dead, Victims(p.boxes.dead, tx.maxDlq)) by {
      MemoryStore.RefsOfVictims(p.boxes.dead, tx.maxDlq, dropped);
    }
    change := Change(retained, |dropped|, true, added, removed + refs);
  }

  // ---------- replaying ----------

  lemma RevivedKeepsId(r: Record, now: Time)
    ensures Revived(r, now).outputId == r.outputId
  {
  }

  lemma ReplayStep(b: Boxes, ids: seq<OutputId>, now: Time, i: nat)
    requires i < |ids|
    ensures
      var p, q := Replayed(b, ids[..i], now), Replayed(b, ids[..i + 1], now);
      if ids[i] !in p.boxes.dead then q == p
      else
        var r := p.boxes.dead[ids[i]];
        var records := p.boxes.records[ids[i] := Revived(r, now)];
        q == p.(boxes := p.boxes.(records := records, dead := p.boxes.dead - {ids[i]}),
                removed := p.removed + [RefOf(r)])
  {
    hide Revived, RefOf;
    assert ids[..i + 1][..i] == ids[..i] && ids[..i + 1][i] == ids[i];
  }

  /** One record goes back: its outbox key is written, its dead-letter key deleted. */
  method MoveOne(tx: Tx, id: OutputId, now: Time, ghost b: Boxes) returns (record: Record)
    requires HoldsBoxes(tx.kv, b) && id in b.dead
    modifies tx
    ensures record == b.dead[id]
    ensures HoldsBoxes(tx.kv, b.(records := b.records[id := Revived(record, now)], dead := b.dead - {id}))
    ensures LeavesFlows(old(tx.kv), tx.kv)
  {
    hide HoldsBoxes, LeavesFlows, ScannableId, Revived, OutboxKey, DeadKey;
    ghost var start := tx.kv;
    ReadsBoxes(tx.kv, b, id);
    record := tx.kv[DeadKey(id)].record;
    RevivedKeepsId(record, now);
    PutRecord(tx.kv, b, id, Revived(record, now));
    tx.kv := tx.kv[OutboxKey(id) := RecordCell(Revived(record, now))];
    ghost var mid, b' := tx.kv, b.(records := b.records[id := Revived(record, now)]);
    DropDead(tx.kv, b', id);
    tx.kv := tx.kv - {DeadKey(id)};
    LeavesThrough(start, mid, tx.kv);
  }

  lemma {:induction false} StillDead(b: Boxes, ids: seq<OutputId>, now: Time, i: nat, n: nat)
    requires n <= i < |ids| && (forall k :: 0 <= k < |ids| ==> ids[k] in b.dead)
    requires forall k, l :: 0 <= k < l < |ids| ==> ids[k] != ids[l]
    ensures ids[i] in Replayed(b, ids[..n], now).boxes.dead
    ensures Replayed(b, ids[..n], now).boxes.dead[ids[i]] == b.dead[ids[i]]
    decreases n
  {
    hide Revived, RefOf, Replayed;
    if n > 0 {
      StillDead(b, ids, now, i, n - 1);
      ReplayStep(b, ids, now, n - 1);
    } else {
      assert ids[..0] == [];
      NothingReplayed(b, now);
    }
  }

  lemma NothingReplayed(b: Boxes, now: Time)
    ensures Replayed(b, [], now) == Progress(b, [], [])
  {
  }

  predicate AllDead(dead: map<OutputId, Record>, ids: seq<OutputId>)
  {
    && (forall k :: 0 <= k < |ids| ==> ids[k] in dead)
    && (forall k, l :: 0 <= k < l < |ids| ==> ids[k] != ids[l])
  }

  lemma ReplayIdsAreDead(dead: map<OutputId, Record>, f: Filter)
    ensures AllDead(dead, ReplayIds(dead, f)) && forall id :: id in ReplayIds(dead, f) ==> id in dead
  {
    hide InIdOrder, Matches;
    var all := InIdOrder(Matching(dead, f));
    InIdOrderIs(Matching(dead, f));
    forall k | 0 <= k < |ReplayIds(dead, f)| ensures ReplayIds(dead, f)[k] in dead {
      assert all[k] in all;
    }
  }

  /** The candidates, moved one after the other. */
  method MoveEach(tx: Tx, ids: seq<OutputId>, now: Time, ghost b: Boxes)
    returns (moved: seq<Metadata>, removed: seq<Ref>)
    requires HoldsBoxes(tx.kv, b) && AllDead(b.dead, ids)
    modifies tx
    ensures HoldsBoxes(tx.kv, Replayed(b, ids, now).boxes) && removed == Replayed(b, ids, now).removed
    ensures |moved| == |ids| && forall k :: 0 <= k < |ids| ==> moved[k] == MetadataOf(b.dead[ids[k]])
    ensures LeavesFlows(old(tx.kv), tx.kv)
  {
    hide HoldsBoxes, LeavesFlows, Revived, RefOf, Replayed;
    moved, removed := [], [];
    ghost var start := tx.kv;
    LeavesItself(start);
    NothingReplayed(b, now);
    assert ids[..0] == [];
    for i := 0 to |ids|
      invariant HoldsBoxes(tx.kv, Replayed(b, ids[..i], now).boxes) && removed == Replayed(b, ids[..i], now).removed
      invariant |moved| == i && forall k :: 0 <= k < i ==> moved[k] == MetadataOf(b.dead[ids[k]])
      invariant LeavesFlows(start, tx.kv)
    {
      StillDead(b, ids, now, i, i);
      ReplayStep(b, ids, now, i);
      ghost var before := tx.kv;
      var record := MoveOne(tx, ids[i], now, Replayed(b, ids[..i], now).boxes);
      LeavesThrough(start, before, tx.kv);
      moved, removed := moved + [MetadataOf(record)], removed + [RefOf(record)];
    }
    assert ids[..|ids|] == ids;
  }

  /** ReplayDeadLetters of the durable store moves what that of the simple store moves and reports the
      same; open flows and their index are untouched. */
  method ReplayDeadLetters(tx: Tx, f: Filter, now: Time, ghost b: Boxes) returns (moved: seq<Metadata>, change: Change)
    requires HoldsBoxes(tx.kv, b)
    modifies tx
    ensures
      var ids := ReplayIds(b.dead, f);
      && (forall id :: id in ids ==> id in b.dead)
      && moved == AllMetadata(b.dead, ids)
      && HoldsBoxes(tx.kv, Replayed(b, ids, now).boxes)
      && change == ReplayChange(Replayed(b, ids, now))
    ensures LeavesFlows(old(tx.kv), tx.kv)
  {
    hide HoldsRecords, HoldsDead, DroppedTotal, LeavesFlows, ReplayIds, Replayed, Scanned, MetadataOf;
    var records := ScanDead(tx.kv, b.dead);
    var ids := ScanReplay(records, f, b.dead);
    ReplayIdsAreDead(b.dead, f);
    var removed;
    moved, removed := MoveEach(tx, ids, now, b);
    change := NO_CHANGE;
    if removed != [] {
      var left := ScanDead(tx.kv, Replayed(b, ids, now).boxes.dead);
      change := Change(|left|, 0, true, [], removed);
    }
  }

  // ---------- flows and boxes side by side ----------

  /** What leaves the flow and index families alone leaves the flows, their entries and any agreement. */
  lemma FlowsUnaffected(before: Keyspace, after: Keyspace, flows: Flows)
    requires LeavesFlows(before, after) && Holds(before, flows)
    ensures Holds(after, flows) && Entries(after) == Entries(before)
    ensures Covered(before, flows) ==> Covered(after, flows)
    ensures Indexed(before, flows) ==> Indexed(after, flows)
  {
    hide ParseExpiryKey, FlowKeyBytes, ExpiryKey, Storable, ByteKey, HasPrefix, CurrentEntry;
    FlowFamiliesApart();
    forall key | key in flows
      ensures StoredFlow(after, key, flows[key])
      ensures Covered(before, flows) ==> Storable(flows[key]) && EntryOf(flows[key]) in after
    {
      assert StoredFlow(before, key, flows[key]);
      FlowKeysApart(flows[key]);
      assert SameAt(before, after, FlowKeyBytes(key)) && SameAt(before, after, EntryOf(flows[key]));
    }
    forall raw | IsFlowRaw(raw) || IsEntryRaw(raw) ensures SameAt(before, after, raw) {
    }
  }

  /** Writes outside the delivery families leave the boxes alone. */
  ghost predicate LeavesBoxes(before: Keyspace, after: Keyspace)
  {
    forall raw :: IsDelivery(raw) ==> SameAt(before, after, raw)
  }

  lemma BoxesUnaffected(before: Keyspace, after: Keyspace, b: Boxes)
    requires LeavesBoxes(before, after) && HoldsBoxes(before, b)
    ensures HoldsBoxes(after, b)
  {
    hide HoldsRecords, HoldsDead, HasPrefix;
    assert SameAt(before, after, DROPPED_KEY);
    RecordsKept(before, after, b.records);
    DeadKept(before, after, b.dead);
  }

  /** Saving or deleting a flow writes its own two families only. */
  lemma FlowWritesLeaveBoxes(kv: Keyspace, f: Flow, key: FlowKey)
    requires Storable(f) && ByteKey(key)
    ensures LeavesBoxes(kv, SavedIn(kv, f)) && LeavesBoxes(kv, DeletedFrom(kv, key))
  {
    hide ExpiryKey, FlowKeyBytes, Load, IsDelivery;
    DeleteLeavesBoxes(kv, key);
    FlowFamiliesApart();
    FlowKeysApart(f);
    FlowKeyFamily(f.key);
  }

  lemma DeleteLeavesBoxes(kv: Keyspace, key: FlowKey)
    requires ByteKey(key)
    ensures LeavesBoxes(kv, DeletedFrom(kv, key))
  {
    hide ExpiryKey, FlowKeyBytes, Load, IsDelivery;
    FlowFamiliesApart();
    FlowKeyFamily(key);
  }

  lemma FlowKeyFamily(key: FlowKey)
    requires ByteKey(key)
    ensures IsFlowRaw(FlowKeyBytes(key))
    ensures forall t :: InRange(t) ==> IsEntryRaw(ExpiryKey(t, key))
  {
    hide ParseFlowKey, FlowKeyBytes, Parts, BigEndian;
    FlowRawParses(key);
    forall t | InRange(t) ensures IsEntryRaw(ExpiryKey(t, key)) {
      assert ExpiryKey(t, key)[..2] == "x/";
    }
  }

  lemma FlowFamiliesApart()
    ensures forall raw :: IsFlowRaw(raw) || IsEntryRaw(raw) ==> !IsDelivery(raw)
  {
    forall raw | IsFlowRaw(raw) || IsEntryRaw(raw) ensures !IsDelivery(raw) {
      assert raw[0] == raw[..2][0];
      assert DROPPED_KEY[0] == 'm';
    }
  }

  lemma FlowKeysApart(f: Flow)
    requires Storable(f)
    ensures IsFlowRaw(FlowKeyBytes(f.key)) && IsEntryRaw(EntryOf(f))
  {
    hide ParseExpiryKey, ParseFlowKey, ExpiryKey, FlowKeyBytes;
    FlowRawParses(f.key);
    EntryParses(f.expiresAt, f.key);
  }
}
