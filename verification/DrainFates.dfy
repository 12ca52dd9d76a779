/** What becomes of each record of a drained batch, read off the sink's answer: delivered, kept for a retry that
    backs off, or rejected. */
module DrainFates {
  import opened ByteText
  import opened Decimal
  import opened Rules
  import opened FlowDeadline
  import opened Outbox
  import opened DeadLetters
  import opened MemoryStore
  import opened Delivery
  import opened Engine
  import opened EngineDelivery
  import opened EngineRuns
  import opened Drain

  // ---------- one verdict among many ----------

  predicate SameIn(a: map<OutputId, Record>, b: map<OutputId, Record>, id: OutputId)
  {
    (id in a <==> id in b) && (id in a ==> a[id] == b[id])
  }

  predicate UnchangedAt(b: Boxes, b': Boxes, id: OutputId)
  {
    SameIn(b.records, b'.records, id) && SameIn(b.dead, b'.dead, id)
  }

  lemma OthersUnchanged(p: Progress, res: Result, id: OutputId)
    requires id != res.outputId
    ensures UnchangedAt(p.boxes, Resolved(p, res).boxes, id)
  {
    hide Buried, Postponed, RefsAt, RefOf;
  }

  lemma {:induction false} UnansweredUnchanged(b: Boxes, results: seq<Result>, id: OutputId)
    requires Unanswered(results, id)
    ensures UnchangedAt(b, ResolvedAll(b, results).boxes, id)
    decreases |results|
  {
    hide Resolved;
    if results != [] {
      var n := |results| - 1;
      assert forall i :: 0 <= i < n ==> results[..n][i] == results[i];
      UnansweredUnchanged(b, results[..n], id);
      OthersUnchanged(ResolvedAll(b, results[..n]), results[n], id);
    }
  }

  predicate DistinctIds(results: seq<Result>)
  {
    forall i, j :: 0 <= i < j < |results| ==> results[i].outputId != results[j].outputId
  }

  /** Among results for distinct records, each acts as if it were alone. */
  lemma {:induction false} ActsAlone(b: Boxes, results: seq<Result>, i: nat)
    requires DistinctIds(results) && i < |results|
    ensures
      var id := results[i].outputId;
      UnchangedAt(Resolved(Progress(b, [], []), results[i]).boxes, ResolvedAll(b, results).boxes, id)
    decreases |results|
  {
    hide Resolved;
    var n, id := |results| - 1, results[i].outputId;
    assert forall k :: 0 <= k < n ==> results[..n][k] == results[k];
    if i < n {
      ActsAlone(b, results[..n], i);
      OthersUnchanged(ResolvedAll(b, results[..n]), results[n], id);
    } else {
      UnansweredUnchanged(b, results[..n], id);
      SameEffect(Progress(b, [], []), ResolvedAll(b, results[..n]), results[n]);
    }
  }

  lemma SameEffect(p: Progress, q: Progress, res: Result)
    requires UnchangedAt(p.boxes, q.boxes, res.outputId)
    ensures UnchangedAt(Resolved(p, res).boxes, Resolved(q, res).boxes, res.outputId)
  {
    hide Buried, Postponed, RefsAt, RefOf;
  }

  // ---------- what a verdict writes ----------

  /** The record still says what it said, goes where it went, and is as old as it was. */
  predicate SameCargo(a: Record, b: Record)
  {
    && a.outputId == b.outputId && a.index == b.index && a.document == b.document && a.createdAt == b.createdAt
    && a.replayCount == b.replayCount
  }

  predicate Reports(before: Text, err: Option<Text>, after: Text)
  {
    if err == None then after == before else after == err.value
  }

  predicate RetryWritten(before: Record, res: Result, after: Record)
  {
    && SameCargo(before, after) && after.nextAttemptAt == res.nextAttemptAt
    && after.attempts == (if res.attempts > 0 then res.attempts else before.attempts + 1)
    && Reports(before.lastError, res.err, after.lastError)
    && after.rejectionType == before.rejectionType && after.deadLetteredAt == before.deadLetteredAt
  }

  predicate RejectionWritten(before: Record, res: Result, after: Record)
  {
    && SameCargo(before, after) && after.nextAttemptAt == before.nextAttemptAt
    && after.attempts == (if res.attempts > 0 then res.attempts else before.attempts)
    && Reports(before.lastError, res.err, after.lastError)
    && after.rejectionType == res.rejectionType && after.deadLetteredAt == res.deadLetteredAt
  }

  /** Resolving, record by record: a delivered record is gone, a retried one waits with its new deadline and its
      error, a rejected one is dead with its type, time and error; nothing else about it changes. */
  lemma ResolvedRecord(b: Boxes, results: seq<Result>, i: nat)
    requires DistinctIds(results) && i < |results| && results[i].outputId in b.records
    ensures
      var res, after := results[i], ResolvedAll(b, results).boxes;
      var id, before := res.outputId, b.records[res.outputId];
      match res.disposition
      case Delivered => id !in after.records && SameIn(b.dead, after.dead, id)
      case Retryable =>
        id in after.records && RetryWritten(before, res, after.records[id]) && SameIn(b.dead, after.dead, id)
      case Permanent => id !in after.records && id in after.dead && RejectionWritten(before, res, after.dead[id])
      case Unrecognised => SameIn(b.records, after.records, id) && SameIn(b.dead, after.dead, id)
  {
    hide ResolvedAll, RefsAt, RefOf;
    ActsAlone(b, results, i);
  }

  /** A result for a record that no longer waits changes nothing. */
  lemma AbsentIsIgnored(p: Progress, res: Result)
    requires res.outputId !in p.boxes.records
    ensures Resolved(p, res) == p
  {
  }

  lemma {:induction false} NothingBuried(b: Boxes, results: seq<Result>)
    requires forall i :: 0 <= i < |results| ==> results[i].disposition != Permanent
    ensures ResolvedAll(b, results).boxes.dead == b.dead && ResolvedAll(b, results).boxes.dropped == b.dropped
    ensures ResolvedAll(b, results).added == [] && ResolvedAll(b, results).removed == []
    decreases |results|
  {
    hide Postponed;
    if results != [] {
      NothingBuried(b, results[..|results| - 1]);
    }
  }

  /** Without a rejection the dead letters are left alone, whatever the cap, and no change is reported. */
  lemma NoRejectionNoTrim(b: Boxes, results: seq<Result>, cap: int)
    requires forall i :: 0 <= i < |results| ==> results[i].disposition != Permanent
    ensures
      var (b', change) := Resolution(b, results, cap);
      b'.dead == b.dead && b'.dropped == b.dropped && !change.changed && change.added == [] && change.removed == []
  {
    hide ResolvedAll;
    NothingBuried(b, results);
  }

  // ---------- the sink's answer ----------

  /** The sink's last word on a record is at `k`. */
  predicate LastWord(answer: seq<Result>, id: OutputId, k: nat)
  {
    k < |answer| && answer[k].outputId == id && forall j :: k < j < |answer| ==> answer[j].outputId != id
  }

  lemma {:induction false} LastWordCounts(answer: seq<Result>, id: OutputId, k: nat)
    requires LastWord(answer, id, k)
    ensures LastFor(answer, id) == Some(answer[k])
    decreases |answer|
  {
    var n := |answer| - 1;
    if k < n {
      assert forall j :: 0 <= j < n ==> answer[..n][j] == answer[j];
      LastWordCounts(answer[..n], id, k);
    }
  }

  /** A drain of a batch that is still in the outbox. */
  ghost predicate Drains(cfg: Config, s: State, answer: seq<Result>, sinkErr: Option<Text>, now: Time)
  {
    && Carries(s.boxes.records, s.batch) && s.boxes.records.Keys !! s.boxes.dead.Keys
    && Recognised(Verdicts(cfg, s.batch, answer, sinkErr, now))
  }

  ghost function Drained(cfg: Config, s: State, answer: seq<Result>, sinkErr: Option<Text>, now: Time): State
  {
    Draining(cfg, s, Verdicts(cfg, s.batch, answer, sinkErr, now))
  }

  /** Kept for another attempt, after the backoff. */
  predicate KeptForRetry(cfg: Config, r: Record, err: Option<Text>, now: Time, s': State)
  {
    && r.outputId in s'.boxes.records && r.outputId !in s'.boxes.dead
    && var after := s'.boxes.records[r.outputId];
    && SameCargo(r, after) && after.attempts == r.attempts + 1
    && after.nextAttemptAt == now + cfg.delayOf(r.outputId, r.attempts + 1)
    && Reports(r.lastError, err, after.lastError)
  }

  /** Out of the outbox, into the dead letters or straight through them. */
  predicate Rejected(r: Record, typ: Text, err: Option<Text>, now: Time, s': State)
  {
    && r.outputId !in s'.boxes.records && (r.outputId in s'.boxes.dead || r.outputId in s'.evicted)
    && (r.outputId in s'.boxes.dead ==>
          var after := s'.boxes.dead[r.outputId];
          && SameCargo(r, after) && after.attempts == r.attempts + 1
          && after.rejectionType == typ && after.deadLetteredAt == now && Reports(r.lastError, err, after.lastError))
  }

  /** The error a record that ran out of attempts is kept with. */
  function Exhausted(r: Record, err: Option<Text>): Text
  {
    var cause := if err.Some? then err.value else "sink permanently rejected record";
    "retry limit exceeded after " + Itoa(r.attempts + 1) + " attempts: " + cause
  }

  function Or(given: Text, otherwise: Text): Text
  {
    if given == "" then otherwise else given
  }

  lemma VerdictsAreDistinct(cfg: Config, records: map<OutputId, Record>, batch: seq<Record>, answer: seq<Result>,
                            sinkErr: Option<Text>, now: Time)
    requires Carries(records, batch)
    ensures DistinctIds(Verdicts(cfg, batch, answer, sinkErr, now))
    ensures forall i :: 0 <= i < |batch| ==> batch[i].outputId in records && records[batch[i].outputId] == batch[i]
  {
  }

  lemma TrimmedAt(b: Boxes, results: seq<Result>, cap: int, id: OutputId)
    ensures
      var resolved, after := ResolvedAll(b, results).boxes, Resolution(b, results, cap).0;
      && SameIn(resolved.records, after.records, id)
      && (id in after.dead ==> id in resolved.dead && after.dead[id] == resolved.dead[id])
  {
    hide ResolvedAll, Resolution;
    TrimOnlyDrops(b, results, cap);
  }

  /** The fate of a record by its completed result. */
  lemma FateByResult(cfg: Config, s: State, answer: seq<Result>, sinkErr: Option<Text>, now: Time, i: nat)
    requires Drains(cfg, s, answer, sinkErr, now) && i < |s.batch|
    ensures
      var r, s' := s.batch[i], Drained(cfg, s, answer, sinkErr, now);
      var c := Completed(r, answer, sinkErr);
      match c.disposition
      case Delivered => r.outputId !in s'.boxes.records && r.outputId !in s'.boxes.dead && r.outputId in s'.released
      case Retryable =>
        if r.attempts + 1 <= cfg.maxRetries then KeptForRetry(cfg, r, c.err, now, s')
        else Rejected(r, Or(c.rejectionType, "retry_limit_exceeded"), Some(Exhausted(r, c.err)), now, s')
      case Permanent => Rejected(r, Or(c.rejectionType, "unknown"), c.err, now, s')
      case Unrecognised => true
  {
    hide Completed, ResolvedAll, Resolution;
    var r := s.batch[i];
    var results := Verdicts(cfg, s.batch, answer, sinkErr, now);
    VerdictsAreDistinct(cfg, s.boxes.records, s.batch, answer, sinkErr, now);
    ResolvedRecord(s.boxes, results, i);
    TrimmedAt(s.boxes, results, cfg.maxDlq, r.outputId);
    assert results[i] in results;
  }

  /** A record the sink did not mention is retried: it waits with one attempt more while the limit allows it,
      and is rejected once it does not. */
  lemma UnansweredFate(cfg: Config, s: State, answer: seq<Result>, sinkErr: Option<Text>, now: Time, i: nat)
    requires Drains(cfg, s, answer, sinkErr, now) && i < |s.batch|
    requires forall k :: 0 <= k < |answer| ==> answer[k].outputId != s.batch[i].outputId
    ensures
      var r, s' := s.batch[i], Drained(cfg, s, answer, sinkErr, now);
      var err := if sinkErr.Some? then "sink delivery failed: " + sinkErr.value else "sink omitted delivery result";
      if r.attempts + 1 <= cfg.maxRetries then KeptForRetry(cfg, r, Some(err), now, s')
      else Rejected(r, "retry_limit_exceeded", Some(Exhausted(r, Some(err))), now, s')
  {
    hide Drains, Drained, KeptForRetry, Rejected;
    FateByResult(cfg, s, answer, sinkErr, now, i);
  }

  /** A record the sink did mention follows its last word. */
  lemma AnsweredFate(cfg: Config, s: State, answer: seq<Result>, sinkErr: Option<Text>, now: Time, i: nat, k: nat)
    requires Drains(cfg, s, answer, sinkErr, now) && i < |s.batch| && LastWord(answer, s.batch[i].outputId, k)
    ensures
      var r, s', word := s.batch[i], Drained(cfg, s, answer, sinkErr, now), answer[k];
      match word.disposition
      case Delivered => r.outputId !in s'.boxes.records && r.outputId !in s'.boxes.dead && r.outputId in s'.released
      case Retryable =>
        if r.attempts + 1 <= cfg.maxRetries then KeptForRetry(cfg, r, word.err, now, s')
        else Rejected(r, Or(word.rejectionType, "retry_limit_exceeded"), Some(Exhausted(r, word.err)), now, s')
      case Permanent => Rejected(r, Or(word.rejectionType, "unknown"), word.err, now, s')
      case Unrecognised => true
  {
    hide Drains, Drained, KeptForRetry, Rejected, LastWord;
    LastWordCounts(answer, s.batch[i].outputId, k);
    FateByResult(cfg, s, answer, sinkErr, now, i);
  }

  // ---------- backoff ----------

  /** A record kept for retry is ready exactly from the end of its backoff on. */
  lemma ReadyAfterBackoff(cfg: Config, r: Record, err: Option<Text>, now: Time, s': State, at: Time)
    requires KeptForRetry(cfg, r, err, now, s') && Representable(now) && cfg.delayOf(r.outputId, r.attempts + 1) > 0
    ensures Ready(s'.boxes.records[r.outputId], at) <==> now + cfg.delayOf(r.outputId, r.attempts + 1) <= at
  {
  }

  /** Until then no drain loads it. */
  lemma BacksOff(cfg: Config, r: Record, err: Option<Text>, now: Time, s': State, at: Time, limit: int,
                 batch: seq<Record>)
    requires KeptForRetry(cfg, r, err, now, s') && Representable(now) && Labelled(s'.boxes.records)
    requires now <= at < now + cfg.delayOf(r.outputId, r.attempts + 1) && Pending(s'.boxes.records, at, limit, batch)
    ensures forall i :: 0 <= i < |batch| ==> batch[i].outputId != r.outputId
  {
    hide Pending, KeptForRetry;
    PendingIsLoadable(s'.boxes.records, at, limit, batch);
    ReadyAfterBackoff(cfg, r, err, now, s', at);
  }

  /** In every reachable state a drain with known verdicts decides the fate of its records in this way. */
  lemma EveryDrainDecides(cfg: Config, rules: seq<Rule>, steps: seq<Step>, end: State, answer: seq<Result>,
                          sinkErr: Option<Text>, now: Time)
    requires Reached(cfg, rules, steps, end) && Recognised(Verdicts(cfg, end.batch, answer, sinkErr, now))
    requires Truthful(end, Verdicts(cfg, end.batch, answer, sinkErr, now))
    ensures Drains(cfg, end, answer, sinkErr, now) && Labelled(Drained(cfg, end, answer, sinkErr, now).boxes.records)
  {
    hide Reached, Verdicts, Truthful, Recognised, Carries, Draining, Bounded, Capped, SentFit, SinkFits, Arrived;
    ReachedHolds(cfg, rules, steps, end);
    DrainingKeeps(cfg, end, answer, sinkErr, now);
    FiledIsLabelled(Drained(cfg, end, answer, sinkErr, now));
  }

  lemma FiledIsLabelled(s: State)
    requires Filed(s.boxes, s.released, s.evicted, s.ledger)
    ensures Labelled(s.boxes.records)
  {
  }
}
