/** Draining the outbox (internal/application/deliver/service.go): completing what the sink answers,
    the retry policy, its backoff, and why retries end. */
module Delivery {
  import opened ByteText
  import opened Decimal
  import opened Rules
  import opened Outbox
  import opened Sums

  // ---------- backoff ----------

  const SECOND: int := 1_000_000_000
  const BASE_BACKOFF: int := SECOND
  const MAXIMUM_BACKOFF: int := 300 * SECOND
  const JITTER_SCALE: int := 65535

  function PowerOfTwo(n: nat): (p: nat)
    ensures p > 0
  {
    if n == 0 then 1 else 2 * PowerOfTwo(n - 1)
  }

  /** The undisturbed delay; the shift is capped so that it fits an int64. */
  function RawDelay(attempt: nat): nat
    requires attempt >= 1
  {
    BASE_BACKOFF * PowerOfTwo(if attempt - 1 > 30 then 30 else attempt - 1)
  }

  /** The largest doubling of the base below the maximum. */
  function CapFloor(floor: nat): nat
    requires floor > 0
    decreases MAXIMUM_BACKOFF - floor
  {
    if floor * 2 < MAXIMUM_BACKOFF then CapFloor(floor * 2) else floor
  }

  predicate Jitter(j: nat)
  {
    j <= JITTER_SCALE
  }

  /** Jitter `j` is drawn for this attempt, `c` once for the capped delay; both are fractions of 65535. */
  function BackoffDelay(attempt: nat, j: nat, c: nat): int
    requires attempt >= 1 && Jitter(j) && Jitter(c)
  {
    var raw := RawDelay(attempt);
    if raw >= MAXIMUM_BACKOFF then
      var floor := CapFloor(BASE_BACKOFF);
      floor + (MAXIMUM_BACKOFF - floor) * c / JITTER_SCALE
    else
      raw * (3 * JITTER_SCALE + j) / (4 * JITTER_SCALE)
  }

  /** The small loop of backoff. */
  method ComputeCapFloor() returns (floor: nat)
    ensures floor == CapFloor(BASE_BACKOFF)
  {
    floor := BASE_BACKOFF;
    while floor * 2 < MAXIMUM_BACKOFF
      invariant floor > 0 && CapFloor(BASE_BACKOFF) == CapFloor(floor)
      decreases MAXIMUM_BACKOFF - floor
    {
      floor := floor * 2;
    }
  }

  lemma CapFloorIs256()
    ensures CapFloor(BASE_BACKOFF) == 256 * SECOND
  {
    assert CapFloor(256 * SECOND) == 256 * SECOND;
    assert CapFloor(128 * SECOND) == CapFloor(256 * SECOND);
    assert CapFloor(64 * SECOND) == CapFloor(128 * SECOND);
    assert CapFloor(32 * SECOND) == CapFloor(64 * SECOND);
    assert CapFloor(16 * SECOND) == CapFloor(32 * SECOND);
    assert CapFloor(8 * SECOND) == CapFloor(16 * SECOND);
    assert CapFloor(4 * SECOND) == CapFloor(8 * SECOND);
    assert CapFloor(2 * SECOND) == CapFloor(4 * SECOND);
  }

  lemma {:induction false} PowerGrows(m: nat, n: nat)
    requires m <= n
    ensures PowerOfTwo(m) <= PowerOfTwo(n)
    ensures m < n ==> 2 * PowerOfTwo(m) <= PowerOfTwo(n)
    decreases n - m
  {
    if m < n {
      PowerGrows(m + 1, n);
    }
  }

  lemma PowersKnown()
    ensures PowerOfTwo(8) == 256 && PowerOfTwo(9) == 512 && PowerOfTwo(30) == 1_073_741_824
  {
    assert PowerOfTwo(4) == 16;
    assert PowerOfTwo(6) == 64;
    assert PowerOfTwo(10) == 1024;
    assert PowerOfTwo(13) == 8192;
    assert PowerOfTwo(16) == 65536;
    assert PowerOfTwo(19) == 524_288;
    assert PowerOfTwo(22) == 4_194_304;
    assert PowerOfTwo(25) == 33_554_432;
    assert PowerOfTwo(28) == 268_435_456;
  }

  /** The cap is reached exactly from the tenth attempt on. */
  lemma RawDelayBounds(attempt: nat)
    requires attempt >= 1
    ensures attempt <= 9 <==> RawDelay(attempt) < MAXIMUM_BACKOFF
    ensures SECOND <= RawDelay(attempt) <= INT64_MAX
    ensures attempt <= 9 ==> RawDelay(attempt) <= 256 * SECOND
  {
    PowersKnown();
    var shift := if attempt - 1 > 30 then 30 else attempt - 1;
    PowerGrows(shift, 30);
    if shift <= 8 {
      PowerGrows(shift, 8);
    } else {
      PowerGrows(9, shift);
    }
  }

  /** A jittered delay lies between three quarters of the raw delay and the raw delay. */
  lemma JitteredBounds(raw: nat, j: nat)
    requires Jitter(j)
    ensures 3 * raw <= 4 * (raw * (3 * JITTER_SCALE + j) / (4 * JITTER_SCALE)) + 3
    ensures raw * (3 * JITTER_SCALE + j) / (4 * JITTER_SCALE) <= raw
  {
    var scaled := raw * (3 * JITTER_SCALE + j);
    assert raw * (3 * JITTER_SCALE) <= scaled <= raw * (4 * JITTER_SCALE) by {
      MulMonotone(raw, 3 * JITTER_SCALE, 3 * JITTER_SCALE + j);
      MulMonotone(raw, 3 * JITTER_SCALE + j, 4 * JITTER_SCALE);
    }
    DivBounds(raw, scaled);
  }

  lemma MulMonotone(a: nat, x: nat, y: nat)
    requires x <= y
    ensures a * x <= a * y
  {
    assert a * y == a * x + a * (y - x);
  }

  lemma DivBounds(raw: nat, scaled: nat)
    requires raw * (3 * JITTER_SCALE) <= scaled <= raw * (4 * JITTER_SCALE)
    ensures 3 * raw <= 4 * (scaled / (4 * JITTER_SCALE)) + 3
    ensures scaled / (4 * JITTER_SCALE) <= raw
  {
    var q := scaled / (4 * JITTER_SCALE);
    assert q * (4 * JITTER_SCALE) <= scaled < (q + 1) * (4 * JITTER_SCALE);
  }

  lemma CappedBounds(c: nat)
    requires Jitter(c)
    ensures 256 * SECOND <= 256 * SECOND + (MAXIMUM_BACKOFF - 256 * SECOND) * c / JITTER_SCALE <= MAXIMUM_BACKOFF
  {
    var width := MAXIMUM_BACKOFF - 256 * SECOND;
    MulMonotone(width, c, JITTER_SCALE);
    assert width * c / JITTER_SCALE <= width;
  }

  /** For every attempt and jitter the delay is between 750 ms and 5 minutes. */
  lemma BackoffBounds(attempt: nat, j: nat, c: nat)
    requires attempt >= 1 && Jitter(j) && Jitter(c)
    ensures 750_000_000 <= BackoffDelay(attempt, j, c) <= MAXIMUM_BACKOFF
    ensures IsInt64(RawDelay(attempt))
  {
    hide RawDelay, CapFloor;
    RawDelayBounds(attempt);
    CapFloorIs256();
    JitteredBounds(RawDelay(attempt), j);
    CappedBounds(c);
  }

  /** Later attempts wait longer before the cap, never less across it, and the same beyond it,
      whatever the jitter of each. */
  lemma BackoffGrows(a: nat, ja: nat, b: nat, jb: nat, c: nat)
    requires 1 <= a < b && Jitter(ja) && Jitter(jb) && Jitter(c)
    ensures b <= 9 ==> BackoffDelay(a, ja, c) < BackoffDelay(b, jb, c)
    ensures BackoffDelay(a, ja, c) <= BackoffDelay(b, jb, c)
    ensures a >= 10 ==> BackoffDelay(a, ja, c) == BackoffDelay(b, jb, c)
  {
    hide CapFloor;
    RawDelayBounds(a);
    RawDelayBounds(b);
    CapFloorIs256();
    JitteredBounds(RawDelay(a), ja);
    CappedBounds(c);
    if b <= 9 {
      PowerGrows(a - 1, b - 1);
      assert 2 * RawDelay(a) <= RawDelay(b);
      JitteredBounds(RawDelay(b), jb);
    }
  }

  /** The jitter spans the last quarter of the raw delay, and at the cap the way from the floor to the maximum. */
  lemma BackoffSpans(attempt: nat, j: nat, c: nat)
    requires attempt >= 1 && Jitter(j) && Jitter(c)
    ensures attempt <= 9 ==> BackoffDelay(attempt, 0, c) == RawDelay(attempt) * 3 / 4
    ensures attempt <= 9 ==> BackoffDelay(attempt, JITTER_SCALE, c) == RawDelay(attempt)
    ensures attempt >= 10 ==> BackoffDelay(attempt, j, 0) == 256 * SECOND
    ensures attempt >= 10 ==> BackoffDelay(attempt, j, JITTER_SCALE) == 300 * SECOND
    ensures attempt <= 9 ==> RawDelay(attempt) == SECOND * PowerOfTwo(attempt - 1)
  {
    hide CapFloor;
    RawDelayBounds(attempt);
    CapFloorIs256();
    var raw := RawDelay(attempt);
    QuarterScales(raw);
    assert raw * (3 * JITTER_SCALE + JITTER_SCALE) / (4 * JITTER_SCALE) == raw by { WholeScales(raw); }
  }

  lemma WholeScales(raw: nat)
    ensures raw * (4 * JITTER_SCALE) / (4 * JITTER_SCALE) == raw
  {
  }

  lemma QuarterScales(raw: nat)
    ensures raw * (3 * JITTER_SCALE) / (4 * JITTER_SCALE) == raw * 3 / 4
  {
    var q, m := raw * 3 / 4, raw * 3 % 4;
    assert raw * 3 == 4 * q + m;
    assert raw * (3 * JITTER_SCALE) == (raw * 3) * JITTER_SCALE;
    assert (4 * q + m) * JITTER_SCALE == q * (4 * JITTER_SCALE) + m * JITTER_SCALE;
  }

  // ---------- completing the sink's answer ----------

  /** The last result for an ID wins. */
  function LastFor(results: seq<Result>, id: OutputId): (r: Option<Result>)
    ensures r.Some? ==> r.value in results && r.value.outputId == id
    ensures r.None? ==> forall x :: x in results ==> x.outputId != id
  {
    if results == [] then None
    else if results[|results| - 1].outputId == id then Some(results[|results| - 1])
    else LastFor(results[..|results| - 1], id)
  }

  function Omitted(id: OutputId, sinkErr: Option<Text>): Result
  {
    var err := if sinkErr.Some? then "sink delivery failed: " + sinkErr.value else "sink omitted delivery result";
    Result(id, Retryable, Some(err), "", ZERO_TIME, 0, ZERO_TIME)
  }

  function Completed(record: Record, results: seq<Result>, sinkErr: Option<Text>): (r: Result)
    ensures r.outputId == record.outputId
  {
    match LastFor(results, record.outputId)
    case Some(r) => r
    case None => Omitted(record.outputId, sinkErr)
  }

  method IndexResults(results: seq<Result>) returns (byId: map<OutputId, Result>)
    ensures forall id :: LastFor(results, id) == if id in byId then Some(byId[id]) else None
  {
    byId := map[];
    for i := 0 to |results|
      invariant forall id :: LastFor(results[..i], id) == if id in byId then Some(byId[id]) else None
    {
      assert results[..i + 1][..i] == results[..i] && results[..i + 1][i] == results[i];
      byId := byId[results[i].outputId := results[i]];
    }
    assert results[..|results|] == results;
  }

  method CompleteResults(records: seq<Record>, results: seq<Result>, sinkErr: Option<Text>)
    returns (completed: seq<Result>)
    ensures |completed| == |records|
    ensures forall i :: 0 <= i < |records| ==> completed[i] == Completed(records[i], results, sinkErr)
  {
    var byId := IndexResults(results);
    completed := [];
    for i := 0 to |records|
      invariant |completed| == i
      invariant forall k :: 0 <= k < i ==> completed[k] == Completed(records[k], results, sinkErr)
    {
      var id := records[i].outputId;
      assert LastFor(results, id) == if id in byId then Some(byId[id]) else None;
      completed := completed + [if id in byId then byId[id] else Omitted(id, sinkErr)];
    }
  }

  // ---------- the verdict of one attempt ----------

  function SafeError(err: Option<Text>): Text
  {
    if err.Some? then err.value else "sink permanently rejected record"
  }

  /** Drain's verdict: one more attempt, a retry with a deadline, or the dead letters at the limit. */
  function Judged(record: Record, result: Result, now: Time, maxRetries: nat, delay: Duration): Result
  {
    var attempt := record.attempts + 1;
    var r := result.(attempts := attempt);
    var decided :=
      if r.disposition != Retryable then r
      else if attempt > maxRetries then
        r.(disposition := Permanent,
           rejectionType := if r.rejectionType == "" then "retry_limit_exceeded" else r.rejectionType,
           err := Some("retry limit exceeded after " + Itoa(attempt) + " attempts: " + SafeError(r.err)))
      else r.(nextAttemptAt := now + delay);
    if decided.disposition != Permanent then decided
    else
      decided.(deadLetteredAt := now,
               rejectionType := if decided.rejectionType == "" then "unknown" else decided.rejectionType)
  }

  /** A verdict that keeps the record keeps it below the retry limit; every verdict spends an attempt. */
  lemma JudgedSpends(record: Record, result: Result, now: Time, maxRetries: nat, delay: Duration)
    ensures
      var r := Judged(record, result, now, maxRetries, delay);
      && r.outputId == result.outputId && r.attempts == record.attempts + 1
      && (r.disposition == Retryable ==> r.attempts <= maxRetries && r.nextAttemptAt == now + delay)
      && (r.disposition == Permanent ==> r.rejectionType != "" && r.deadLetteredAt == now)
      && (r.disposition == Delivered <==> result.disposition == Delivered)
      && (r.disposition == Unrecognised <==> result.disposition == Unrecognised)
  {
  }

  // ---------- retries end ----------

  predicate Bounded(records: map<OutputId, Record>, maxRetries: nat)
  {
    forall id :: id in records ==> records[id].attempts <= maxRetries
  }

  /** Attempts left, counting the final one, over the whole outbox. */
  ghost function Weight(records: map<OutputId, Record>, maxRetries: nat): nat
    requires Bounded(records, maxRetries)
  {
    Total(Weights(records, maxRetries))
  }

  function Weights(records: map<OutputId, Record>, maxRetries: nat): map<OutputId, nat>
    requires Bounded(records, maxRetries)
  {
    map id | id in records :: maxRetries + 1 - records[id].attempts
  }

  /** The result spends an attempt of a record that is still waiting. */
  predicate Spends(records: map<OutputId, Record>, res: Result, maxRetries: nat)
  {
    && res.outputId in records
    && res.disposition != Unrecognised
    && res.attempts == records[res.outputId].attempts + 1
    && (res.disposition == Retryable ==> res.attempts <= maxRetries)
  }

  lemma ResolvedLowers(p: Progress, res: Result, maxRetries: nat)
    requires Bounded(p.boxes.records, maxRetries) && Spends(p.boxes.records, res, maxRetries)
    ensures Bounded(Resolved(p, res).boxes.records, maxRetries)
    ensures Weight(Resolved(p, res).boxes.records, maxRetries) < Weight(p.boxes.records, maxRetries)
    ensures forall id :: id != res.outputId ==> (id in Resolved(p, res).boxes.records <==> id in p.boxes.records)
    ensures forall id :: id != res.outputId && id in p.boxes.records ==>
            Resolved(p, res).boxes.records[id] == p.boxes.records[id]
  {
    hide Total;
    var records, records', id := p.boxes.records, Resolved(p, res).boxes.records, res.outputId;
    var w := Weights(records, maxRetries);
    TotalRemove(w, id);
    if res.disposition == Retryable {
      var v := maxRetries + 1 - res.attempts;
      TotalSet(w, id, v);
      assert Weights(records', maxRetries) == w[id := v];
    } else {
      assert Weights(records', maxRetries) == w - {id};
    }
  }

  /** The results answer distinct waiting records, each spending one of its attempts. */
  predicate Spend(records: map<OutputId, Record>, results: seq<Result>, maxRetries: nat)
  {
    && (forall i :: 0 <= i < |results| ==> Spends(records, results[i], maxRetries))
    && (forall i, j :: 0 <= i < j < |results| ==> results[i].outputId != results[j].outputId)
  }

  predicate Unanswered(results: seq<Result>, id: OutputId)
  {
    forall i :: 0 <= i < |results| ==> results[i].outputId != id
  }

  lemma {:induction false} ResolvedAllLowers(b: Boxes, results: seq<Result>, maxRetries: nat)
    requires Bounded(b.records, maxRetries) && Spend(b.records, results, maxRetries)
    ensures
      var after := ResolvedAll(b, results).boxes.records;
      && Bounded(after, maxRetries)
      && Weight(after, maxRetries) + |results| <= Weight(b.records, maxRetries)
      && (forall id :: Unanswered(results, id) ==>
            (id in after <==> id in b.records) && (id in b.records ==> after[id] == b.records[id]))
    decreases |results|
  {
    hide Resolved, Weight, Bounded;
    if results != [] {
      var n := |results| - 1;
      var rest, res := results[..n], results[n];
      assert forall i :: 0 <= i < n ==> rest[i] == results[i];
      ResolvedAllLowers(b, rest, maxRetries);
      assert Spends(b.records, res, maxRetries);
      assert Unanswered(rest, res.outputId);
      ResolvedLowers(ResolvedAll(b, rest), res, maxRetries);
      forall id | Unanswered(results, id) ensures Unanswered(rest, id) && res.outputId != id {
        assert forall i :: 0 <= i < n ==> rest[i] == results[i];
      }
    }
  }

  predicate DrainOf(b: Boxes, results: seq<Result>, after: map<OutputId, Record>, maxRetries: nat)
  {
    results != [] && Spend(b.records, results, maxRetries) && after == ResolvedAll(b, results).boxes.records
  }

  /** One committed drain of a non-empty batch, whatever the other boxes hold. */
  ghost predicate Drained(before: map<OutputId, Record>, after: map<OutputId, Record>, maxRetries: nat)
  {
    exists dead, dropped, results :: DrainOf(Boxes(before, dead, dropped), results, after, maxRetries)
  }

  ghost predicate DrainedThroughout(states: seq<map<OutputId, Record>>, maxRetries: nat)
  {
    forall i, j :: 0 <= i < |states| && 0 <= j < |states| && j == i + 1 ==> Drained(states[i], states[j], maxRetries)
  }

  /** A closed outbox sees at most as many committed drains of non-empty batches as it has attempts
      left. */
  lemma {:induction false} DrainsAreBounded(states: seq<map<OutputId, Record>>, maxRetries: nat)
    requires states != [] && Bounded(states[0], maxRetries) && DrainedThroughout(states, maxRetries)
    ensures forall i :: 0 <= i < |states| ==> Bounded(states[i], maxRetries)
    ensures |states| - 1 <= Weight(states[0], maxRetries)
    decreases |states|
  {
    hide Weight, Bounded, Drained, Spend;
    if |states| > 1 {
      assert Drained(states[0], states[1], maxRetries);
      DrainLowers(states[0], states[1], maxRetries);
      var rest := states[1..];
      DrainsAreBounded(rest, maxRetries);
      forall i | 0 <= i < |states| ensures Bounded(states[i], maxRetries) {
        if i > 0 {
          assert states[i] == rest[i - 1];
        }
      }
    }
  }

  lemma DrainLowers(before: map<OutputId, Record>, after: map<OutputId, Record>, maxRetries: nat)
    requires Bounded(before, maxRetries) && Drained(before, after, maxRetries)
    ensures Bounded(after, maxRetries) && Weight(after, maxRetries) < Weight(before, maxRetries)
  {
    hide Weight, Spend;
    var dead, dropped, results :| DrainOf(Boxes(before, dead, dropped), results, after, maxRetries);
    ResolvedAllLowers(Boxes(before, dead, dropped), results, maxRetries);
  }
}
