/** One attempt at a ready batch (Drain of internal/application/deliver/service.go), on the store
    object: load, deliver, judge, capture, resolve. */
module Drain {
  import opened ByteText
  import opened Rules
  import opened Outbox
  import opened DeadLetters
  import opened DueFlows
  import opened MemoryStore
  import opened Delivery
  import opened Engine

  // ---------- a pending batch can be loaded ----------

  /** The IDs of a pending batch are distinct, waiting and ready. */
  lemma PendingIsLoadable(records: map<OutputId, Record>, now: Time, limit: int, batch: seq<Record>)
    requires Pending(records, now, limit, batch) && Labelled(records)
    ensures Carries(records, batch) && AllReady(batch, now)
  {
    hide EvictionQueue, Ready;
    var ready := ReadyPart(records, now);
    var all := EvictionQueue(ready);
    var queue := Limited(all, limit);
    QueueListsAll(ready);
    assert forall i :: 0 <= i < |queue| ==> queue[i] == all[i] && all[i] in all;
    forall i, j | 0 <= i < j < |batch| ensures batch[i].outputId != batch[j].outputId {
      assert queue[i] == AgeOf(ready, queue[i].id) && queue[j] == AgeOf(ready, queue[j].id);
      assert all[i] != all[j];
    }
  }

  /** A batch is in order of creation, ties by ID, and no ready record left out is older than one that is in. */
  lemma PendingIsOldest(records: map<OutputId, Record>, now: Time, limit: int, batch: seq<Record>, i: nat,
                        other: OutputId)
    requires Pending(records, now, limit, batch) && Labelled(records) && i < |batch|
    requires other in records && Ready(records[other], now)
    requires forall k :: 0 <= k <= i ==> batch[k].outputId != other
    ensures
      || batch[i].createdAt < records[other].createdAt
      || (batch[i].createdAt == records[other].createdAt && Less(batch[i].outputId, other))
  {
    hide EvictionQueue, Ready, Less;
    var ready := ReadyPart(records, now);
    var all := EvictionQueue(ready);
    QueueListsAll(ready);
    OlderIsOrder();
    assert AgeOf(ready, other) in all;
    var j :| 0 <= j < |all| && all[j] == AgeOf(ready, other);
    assert all[i] in all && batch[i] == records[all[i].id];
    assert forall k :: 0 <= k <= i ==> batch[k].outputId == all[k].id;
    assert i < j;
    assert !Older(all[j], all[i]) && all[i] != all[j];
  }

  /** The resolution fails on a batch exactly when some verdict is unknown. */
  lemma {:induction false} UnderstoodIsRecognised(b: Boxes, results: seq<Result>)
    requires forall i :: 0 <= i < |results| ==> results[i].outputId in b.records
    requires forall i, j :: 0 <= i < j < |results| ==> results[i].outputId != results[j].outputId
    ensures Understood(b, results) <==> Recognised(results)
    decreases |results|
  {
    hide ResolvedAll;
    if results != [] {
      var n := |results| - 1;
      UnderstoodIsRecognised(b, results[..n]);
      assert forall i :: 0 <= i < n ==> results[..n][i] == results[i];
      UntouchedWaits(b, results[..n], results[n].outputId);
    }
  }

  lemma {:induction false} UntouchedWaits(b: Boxes, results: seq<Result>, id: OutputId)
    requires Unanswered(results, id) && id in b.records
    ensures id in ResolvedAll(b, results).boxes.records
    decreases |results|
  {
    hide Buried, Postponed, RefsAt, RefOf;
    if results != [] {
      var n := |results| - 1;
      assert forall i :: 0 <= i < n ==> results[..n][i] == results[i];
      UntouchedWaits(b, results[..n], id);
    }
  }

  function CountDelivered(results: seq<Result>): nat
  {
    if results == [] then 0
    else CountDelivered(results[..|results| - 1]) + if results[|results| - 1].disposition == Delivered then 1 else 0
  }

  // ---------- the drain ----------

  /** What the sink says about a batch: per-record results, some perhaps missing, and an error. */
  datatype Answer = Answer(results: seq<Result>, err: Option<Text>)

  /** Rewrites every completed result into Drain's verdict. */
  method Judge(cfg: Config, batch: seq<Record>, answer: Answer, now: Time)
    returns (results: seq<Result>, delivered: nat)
    ensures results == Verdicts(cfg, batch, answer.results, answer.err, now)
    ensures delivered == CountDelivered(results)
  {
    hide Judged, Completed;
    var completed := CompleteResults(batch, answer.results, answer.err);
    results, delivered := [], 0;
    ghost var all := Verdicts(cfg, batch, answer.results, answer.err, now);
    for i := 0 to |batch|
      invariant results == all[..i] && delivered == CountDelivered(results)
    {
      var r := Judged(batch[i], completed[i], now, cfg.maxRetries,
          cfg.delayOf(batch[i].outputId, batch[i].attempts + 1));
      assert r == all[i];
      assert (results + [r])[..i] == results;
      results := results + [r];
      if r.disposition == Delivered {
        delivered := delivered + 1;
      }
    }
  }

  class Worker {
    const cfg: Config
    const store: Store

    constructor (cfg: Config, store: Store)
      ensures this.cfg == cfg && this.store == store
    {
      this.cfg, this.store := cfg, store;
    }

    /** `sink` answers the batch, `captured` says whether every permanent rejection was captured, and
        `commits` whether the resolving transaction goes through. */
    method Run(sink: seq<Record> -> Answer, limit: int, captured: bool, commits: bool, now: Time, ghost s: State)
      returns (ok: bool, delivered: nat, ghost batch: seq<Record>)
      requires Labelled(store.records) && store.Contents() == s.boxes && store.maxDlq == cfg.maxDlq
      modifies store`records, store`dead, store`dropped
      ensures Pending(s.boxes.records, now, limit, batch)
      ensures Carries(s.boxes.records, batch) && AllReady(batch, now)
      ensures
        var results := Verdicts(cfg, batch, sink(batch).results, sink(batch).err, now);
        && ok == (batch == [] || (captured && commits && Recognised(results)))
        && (ok ==> delivered == CountDelivered(results))
        && store.Contents() == if ok then Draining(cfg, s.(batch := batch), results).boxes else s.boxes
    {
      hide Pending, Carries, AllReady, Verdicts, ResolvedAll, Resolution, Understood, Recognised, Completed,
        DeliveredIds;
      var records := store.PendingOutbox(now, limit);
      batch := records;
      PendingIsLoadable(store.records, now, limit, records);
      var answer := sink(records);
      var results, count := Judge(cfg, records, answer, now);
      VerdictsAnswer(cfg, s.boxes, records, answer, now);
      if |records| == 0 {
        NothingToResolve(cfg, s, results);
        return true, 0, batch;
      }
      if !captured {
        return false, 0, batch;
      }
      var before, beforeDead, beforeDropped := store.records, store.dead, store.dropped;
      var understood, change := store.ResolveOutbox(results);
      if !understood || !commits {
        store.records, store.dead, store.dropped := before, beforeDead, beforeDropped;
        return false, 0, batch;
      }
      return true, count, batch;
    }
  }

  lemma VerdictsAnswer(cfg: Config, b: Boxes, batch: seq<Record>, answer: Answer, now: Time)
    requires Carries(b.records, batch)
    ensures
      var results := Verdicts(cfg, batch, answer.results, answer.err, now);
      Understood(b, results) <==> Recognised(results)
  {
    hide Understood, Recognised;
    UnderstoodIsRecognised(b, Verdicts(cfg, batch, answer.results, answer.err, now));
  }

  lemma NothingToResolve(cfg: Config, s: State, results: seq<Result>)
    requires results == []
    ensures Recognised(results) && CountDelivered(results) == 0
    ensures Draining(cfg, s.(batch := []), results).boxes == s.boxes
  {
    hide DeliveredIds;
    assert ResolvedAll(s.boxes, []) == Progress(s.boxes, [], []);
  }
}
