/** Draining the durable store: the outbox family is scanned for the batch, the verdicts are point writes. */
module DurableDrain {
  import opened ByteText
  import opened Rules
  import opened Outbox
  import opened DeadLetters
  import MemoryStore
  import opened PebbleKeys
  import opened PebbleStore
  import opened PebbleTx
  import opened PebbleDelivery
  import Engine
  import Drain

  // ---------- the scan ----------

  function OutboxScan(kv: Keyspace): set<Text>
  {
    set raw | raw in kv && InScan(raw, "o/", "o/" + [TOP])
  }

  /** The scan reaches exactly the waiting records. */
  lemma ScanIsOutbox(kv: Keyspace, records: map<OutputId, Record>, raw: Text)
    requires HoldsRecords(kv, records)
    ensures raw in OutboxScan(kv) <==> |raw| >= 2 && raw[2..] in records && raw == OutboxKey(raw[2..])
  {
    hide InScan, Less;
    if raw in OutboxScan(kv) {
      PrefixScanStays("o/", [TOP], raw);
    }
    if |raw| >= 2 && raw[2..] in records && raw == OutboxKey(raw[2..]) {
      assert StoredRecord(kv, raw[2..], records[raw[2..]]);
      PrefixScanReaches("o/", raw[2..]);
    }
  }

  lemma ScannedRecord(kv: Keyspace, records: map<OutputId, Record>, raw: Text)
    requires HoldsRecords(kv, records) && raw in OutboxScan(kv)
    ensures |raw| >= 2 && raw in kv && kv[raw].RecordCell? && raw[2..] in records && raw == OutboxKey(raw[2..])
    ensures kv[raw].record == records[raw[2..]] && kv[raw].record.outputId == raw[2..]
  {
    hide OutboxScan, ScannableId;
    ScanIsOutbox(kv, records, raw);
    assert StoredRecord(kv, raw[2..], records[raw[2..]]);
  }

  /** The scanned part of the outbox that is ready. */
  ghost predicate FoundReady(records: map<OutputId, Record>, todo: set<Text>, now: Time, ready: map<OutputId, Record>)
  {
    && (forall id :: id in ready <==> id in records && OutboxKey(id) !in todo && Ready(records[id], now))
    && (forall id :: id in ready ==> ready[id] == records[id])
  }

  lemma FoundOneMore(records: map<OutputId, Record>, todo: set<Text>, now: Time, ready: map<OutputId, Record>,
                     raw: Text)
    requires FoundReady(records, todo, now, ready) && |raw| >= 2 && raw in todo && raw == OutboxKey(raw[2..])
    requires raw[2..] in records
    ensures
      var id := raw[2..];
      FoundReady(records, todo - {raw}, now, if Ready(records[id], now) then ready[id := records[id]] else ready)
  {
    hide OutboxKey, Ready;
    forall id | id in records && OutboxKey(id) == raw ensures id == raw[2..] {
      KeysApart(id, id);
    }
  }

  /** PendingOutbox: scan, keep what is ready, sort by age, cut at the limit. */
  method PendingOutbox(kv: Keyspace, now: Time, limit: int, ghost records: map<OutputId, Record>)
    returns (batch: seq<Record>)
    requires HoldsRecords(kv, records)
    ensures MemoryStore.Pending(records, now, limit, batch)
  {
    hide HoldsRecords, OutboxScan, Ready, OutboxKey, FoundReady, MemoryStore.Pending;
    var ready: map<OutputId, Record> := map[];
    var todo := OutboxScan(kv);
    assert FoundReady(records, todo, now, ready) by { NothingFound(kv, records, now); }
    while todo != {}
      invariant todo <= OutboxScan(kv) && FoundReady(records, todo, now, ready)
      decreases todo
    {
      var raw :| raw in todo;
      ScannedRecord(kv, records, raw);
      FoundOneMore(records, todo, now, ready, raw);
      var record := kv[raw].record;
      if Ready(record, now) {
        ready := ready[record.outputId := record];
      }
      todo := todo - {raw};
    }
    batch := MemoryStore.ListPending(ready, now, limit);
    AllFound(records, now, ready);
    PendingOfReady(records, now, limit, ready, batch);
  }

  lemma NothingFound(kv: Keyspace, records: map<OutputId, Record>, now: Time)
    requires HoldsRecords(kv, records)
    ensures FoundReady(records, OutboxScan(kv), now, map[])
  {
    hide OutboxScan, HoldsRecords, Ready;
    forall id | id in records ensures OutboxKey(id) in OutboxScan(kv) {
      KeysApart(id, id);
      ScanIsOutbox(kv, records, OutboxKey(id));
    }
  }

  lemma AllFound(records: map<OutputId, Record>, now: Time, ready: map<OutputId, Record>)
    requires FoundReady(records, {}, now, ready)
    ensures ready == MemoryStore.ReadyPart(records, now)
  {
    hide Ready, OutboxKey;
  }

  lemma PendingOfReady(records: map<OutputId, Record>, now: Time, limit: int, ready: map<OutputId, Record>,
                       batch: seq<Record>)
    requires ready == MemoryStore.ReadyPart(records, now) && MemoryStore.Pending(ready, now, limit, batch)
    ensures MemoryStore.Pending(records, now, limit, batch)
  {
    hide EvictionQueue, Ready;
    assert MemoryStore.ReadyPart(ready, now) == ready;
  }

  // ---------- the drain ----------

  lemma BoxesAreLabelled(kv: Keyspace, b: Boxes)
    requires HoldsBoxes(kv, b)
    ensures Labelled(b.records)
  {
    hide ScannableId, OutboxKey, HoldsDead;
    forall id | id in b.records ensures b.records[id].outputId == id {
      assert StoredRecord(kv, id, b.records[id]);
    }
  }

  /** Drain over the durable store. `sink` answers the batch, `captured` says whether every permanent rejection
      was captured, and `commits` whether the resolving transaction goes through. */
  method Run(cfg: Engine.Config, tx: Tx, sink: seq<Record> -> Drain.Answer, limit: int, captured: bool, commits: bool,
             now: Time, ghost s: Engine.State)
    returns (ok: bool, delivered: nat, ghost batch: seq<Record>)
    requires HoldsBoxes(tx.kv, s.boxes) && tx.maxDlq == cfg.maxDlq
    modifies tx
    ensures MemoryStore.Pending(s.boxes.records, now, limit, batch)
    ensures Engine.Carries(s.boxes.records, batch) && Engine.AllReady(batch, now)
    ensures LeavesFlows(old(tx.kv), tx.kv)
    ensures
      var results := Engine.Verdicts(cfg, batch, sink(batch).results, sink(batch).err, now);
      && ok == (batch == [] || (captured && commits && Recognised(results)))
      && (ok ==> delivered == Drain.CountDelivered(results))
      && HoldsBoxes(tx.kv, if ok then Engine.Draining(cfg, s.(batch := batch), results).boxes else s.boxes)
  {
    hide MemoryStore.Pending, Engine.Carries, Engine.AllReady, Engine.Verdicts, ResolvedAll, Resolution,
      MemoryStore.Understood, Recognised, Engine.DeliveredIds, HoldsRecords, HoldsDead, DroppedTotal, LeavesFlows,
      Labelled;
    var records := PendingOutbox(tx.kv, now, limit, s.boxes.records);
    batch := records;
    BoxesAreLabelled(tx.kv, s.boxes);
    Drain.PendingIsLoadable(s.boxes.records, now, limit, records);
    var answer := sink(records);
    var results, count := Drain.Judge(cfg, records, answer, now);
    Drain.VerdictsAnswer(cfg, s.boxes, records, answer, now);
    LeavesItself(tx.kv);
    if |records| == 0 {
      Drain.NothingToResolve(cfg, s, results);
      return true, 0, batch;
    }
    if !captured {
      return false, 0, batch;
    }
    var before := tx.kv;
    var understood, change := ResolveOutbox(tx, results, s.boxes);
    if !understood || !commits {
      tx.kv := before;
      return false, 0, batch;
    }
    return true, count, batch;
  }
}
