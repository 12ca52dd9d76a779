/** Retries end: a closed outbox of which something is ready at every drain is empty after as many
    committed drains as it has attempts left, whatever the sink answers and whatever else still backs off. */
module DrainsEmpty {
  import opened Rules
  import opened Outbox
  import opened DeadLetters
  import opened MemoryStore
  import opened Delivery
  import opened Sums
  import opened Engine
  import opened EngineDelivery
  import opened Drain

  // ---------- a ready outbox yields a batch ----------

  /** Something is ready, so something is loaded, whatever the limit. */
  lemma ReadyYieldsBatch(records: map<OutputId, Record>, now: Time, limit: int, batch: seq<Record>)
    requires ReadyPart(records, now) != map[] && Pending(records, now, limit, batch)
    ensures batch != []
  {
    hide EvictionQueue, ReadyPart;
    QueueListsAll(ReadyPart(records, now));
  }

  /** An outbox that is not empty has something to deliver now; the rest may still be backing off. */
  predicate SomeReadyAt(records: map<OutputId, Record>, now: Time)
  {
    records != map[] ==> ReadyPart(records, now) != map[]
  }

  lemma WaitingYieldsBatch(records: map<OutputId, Record>, now: Time, limit: int, batch: seq<Record>)
    requires records != map[] && SomeReadyAt(records, now) && Pending(records, now, limit, batch)
    ensures batch != []
  {
    hide Pending, ReadyPart;
    ReadyYieldsBatch(records, now, limit, batch);
  }

  // ---------- one drain ----------

  /** A drain: when it ran, what it loaded and what the sink answered. */
  datatype Attempt = Attempt(now: Time, batch: seq<Record>, answer: Answer)

  function VerdictsOf(cfg: Config, a: Attempt): seq<Result>
  {
    Verdicts(cfg, a.batch, a.answer.results, a.answer.err, a.now)
  }

  /** The drain loaded what was pending, every verdict was known, and it committed. */
  ghost predicate DrainedBy(cfg: Config, limit: int, b: Boxes, a: Attempt, b': Boxes)
  {
    && Pending(b.records, a.now, limit, a.batch) && Recognised(VerdictsOf(cfg, a))
    && b' == Resolution(b, VerdictsOf(cfg, a), cfg.maxDlq).0
  }

  /** That is what the drain of the service leaves in the store. */
  lemma ServiceDrains(cfg: Config, limit: int, s: State, a: Attempt)
    requires Pending(s.boxes.records, a.now, limit, a.batch) && Recognised(VerdictsOf(cfg, a))
    ensures DrainedBy(cfg, limit, s.boxes, a, Draining(cfg, s.(batch := a.batch), VerdictsOf(cfg, a)).boxes)
  {
    hide Pending, Recognised, Resolution, ResolvedAll, DeliveredIds, Verdicts;
  }

  lemma {:induction false} ResolvedStayLabelled(b: Boxes, results: seq<Result>)
    requires Labelled(b.records)
    ensures Labelled(ResolvedAll(b, results).boxes.records)
    decreases |results|
  {
    hide RefsAt, RefOf, ErrorOr;
    if results != [] {
      ResolvedStayLabelled(b, results[..|results| - 1]);
    }
  }

  /** Records still to be delivered are labelled and within the retry limit. */
  predicate Sound(records: map<OutputId, Record>, maxRetries: nat)
  {
    Labelled(records) && Bounded(records, maxRetries)
  }

  lemma DrainLowersWeight(cfg: Config, limit: int, b: Boxes, a: Attempt, b': Boxes)
    requires DrainedBy(cfg, limit, b, a, b') && Sound(b.records, cfg.maxRetries)
    ensures Sound(b'.records, cfg.maxRetries)
    ensures Weight(b'.records, cfg.maxRetries) + |a.batch| <= Weight(b.records, cfg.maxRetries)
  {
    hide Pending, Labelled, Bounded, Weight, Resolution, ResolvedAll, Recognised, Carries, AllReady, Spend, Verdicts;
    PendingIsLoadable(b.records, a.now, limit, a.batch);
    VerdictsSpend(cfg, b.records, a.batch, a.answer.results, a.answer.err, a.now);
    ResolvedAllLowers(b, VerdictsOf(cfg, a), cfg.maxRetries);
    ResolvedStayLabelled(b, VerdictsOf(cfg, a));
    TrimOnlyDrops(b, VerdictsOf(cfg, a), cfg.maxDlq);
  }

  lemma WeightlessIsEmpty(records: map<OutputId, Record>, maxRetries: nat)
    requires Bounded(records, maxRetries)
    ensures Weight(records, maxRetries) == 0 ==> records == map[]
  {
    hide Total;
    if records != map[] {
      var id :| id in records;
      TotalRemove(Weights(records, maxRetries), id);
    }
  }

  // ---------- a sequence of drains ----------

  /** Each drain takes the outbox from one state to the next, and nothing else touches it. */
  ghost predicate DrainsThrough(cfg: Config, limit: int, states: seq<Boxes>, attempts: seq<Attempt>)
  {
    && |states| == |attempts| + 1
    && forall i, j :: 0 <= i < |attempts| && j == i + 1 ==> ReadyDrain(cfg, limit, states, attempts, i, j)
  }

  ghost predicate ReadyDrain(cfg: Config, limit: int, states: seq<Boxes>, attempts: seq<Attempt>, i: nat, j: nat)
    requires i < |states| && i < |attempts| && j < |states|
  {
    SomeReadyAt(states[i].records, attempts[i].now) && DrainedBy(cfg, limit, states[i], attempts[i], states[j])
  }

  function Left(weight: nat, drains: nat): nat
  {
    if drains <= weight then weight - drains else 0
  }

  /** At most so many attempts are left in the outbox. */
  ghost predicate Within(records: map<OutputId, Record>, maxRetries: nat, left: nat)
  {
    Sound(records, maxRetries) && Weight(records, maxRetries) <= left
  }

  lemma OneDrainLess(cfg: Config, limit: int, b: Boxes, a: Attempt, b': Boxes, weight: nat, n: nat)
    requires SomeReadyAt(b.records, a.now) && DrainedBy(cfg, limit, b, a, b')
    requires Within(b.records, cfg.maxRetries, Left(weight, n))
    ensures Within(b'.records, cfg.maxRetries, Left(weight, n + 1))
  {
    hide DrainedBy, Weight, SomeReadyAt, Sound;
    DrainLowersWeight(cfg, limit, b, a, b');
    if b.records != map[] {
      PendingOf(cfg, limit, b, a, b');
      WaitingYieldsBatch(b.records, a.now, limit, a.batch);
    } else {
      EmptyWeighsNothing(cfg.maxRetries);
    }
  }

  lemma PendingOf(cfg: Config, limit: int, b: Boxes, a: Attempt, b': Boxes)
    requires DrainedBy(cfg, limit, b, a, b')
    ensures Pending(b.records, a.now, limit, a.batch)
  {
    hide Pending, Recognised, Resolution, Verdicts;
  }

  lemma EmptyWeighsNothing(maxRetries: nat)
    ensures Weight(map[], maxRetries) == 0
  {
    assert Weights(map[], maxRetries) == map[];
  }

  lemma {:induction false} WeightAfter(cfg: Config, limit: int, states: seq<Boxes>, attempts: seq<Attempt>, weight: nat,
                                       n: nat)
    requires DrainsThrough(cfg, limit, states, attempts) && n <= |attempts|
    requires Within(states[0].records, cfg.maxRetries, weight)
    ensures Within(states[n].records, cfg.maxRetries, Left(weight, n))
    decreases n
  {
    hide Within, ReadyDrain;
    if n > 0 {
      WeightAfter(cfg, limit, states, attempts, weight, n - 1);
      assert ReadyDrain(cfg, limit, states, attempts, n - 1, n);
      DrainOf(cfg, limit, states, attempts, n - 1, n);
      OneDrainLess(cfg, limit, states[n - 1], attempts[n - 1], states[n], weight, n - 1);
    }
  }

  lemma DrainOf(cfg: Config, limit: int, states: seq<Boxes>, attempts: seq<Attempt>, i: nat, j: nat)
    requires i < |states| && i < |attempts| && j < |states| && ReadyDrain(cfg, limit, states, attempts, i, j)
    ensures SomeReadyAt(states[i].records, attempts[i].now) && DrainedBy(cfg, limit, states[i], attempts[i], states[j])
  {
    hide SomeReadyAt, DrainedBy;
  }

  /** Any known verdicts empty a closed outbox: once there were as many ready drains as attempts were
      left at the start, no record waits any more. */
  lemma OutboxEmpties(cfg: Config, limit: int, states: seq<Boxes>, attempts: seq<Attempt>)
    requires DrainsThrough(cfg, limit, states, attempts)
    requires Labelled(states[0].records) && Bounded(states[0].records, cfg.maxRetries)
    requires |attempts| >= Weight(states[0].records, cfg.maxRetries)
    ensures states[|attempts|].records == map[]
  {
    hide Weight, DrainsThrough, Labelled;
    assert |states| == |attempts| + 1 by { Lengths(cfg, limit, states, attempts); }
    WeightAfter(cfg, limit, states, attempts, Weight(states[0].records, cfg.maxRetries), |attempts|);
    WeightlessIsEmpty(states[|attempts|].records, cfg.maxRetries);
  }

  lemma Lengths(cfg: Config, limit: int, states: seq<Boxes>, attempts: seq<Attempt>)
    requires DrainsThrough(cfg, limit, states, attempts)
    ensures |states| == |attempts| + 1
  {
    hide ReadyDrain;
  }
}
