/** A whole sweep as a run of the engine: what the sweep loop decides to close, closed step by step, and
    the releases that follow the commit. */
module SweepRuns {
  import opened Rules
  import opened FlowDeadline
  import Registry
  import opened Outbox
  import opened Engine
  import opened EngineDelivery
  import opened EngineRuns
  import PebbleStore
  import PebbleDelivery
  import Sweep
  import Ingest

  type Closing = seq<Sweep.Closed>

  predicate ClosesDue(s: State, c: Sweep.Closed, now: Time)
  {
    && c.key in s.flows && s.flows[c.key] == c.flow && c.flow.expiresAt <= now
    && c.reason == OutcomeOf(c.flow, s.registry.versions, now)
  }

  /** Distinct due flows, each with the reason the registry gives now. */
  predicate Sweepable(s: State, closed: Closing, now: Time)
  {
    && (forall i :: 0 <= i < |closed| ==> ClosesDue(s, closed[i], now))
    && (forall i, j :: 0 <= i < j < |closed| ==> closed[i].key != closed[j].key)
  }

  function IdOf(cfg: Config, c: Sweep.Closed): OutputId
  {
    OutputOf(cfg, c.key, c.flow)
  }

  /** The output IDs of the sweep are unused and distinct. */
  predicate FreshClosing(cfg: Config, ledger: Ledger, closed: Closing)
  {
    && (forall i :: 0 <= i < |closed| ==> IdOf(cfg, closed[i]) !in ledger)
    && (forall i, j :: 0 <= i < j < |closed| ==> IdOf(cfg, closed[i]) != IdOf(cfg, closed[j]))
  }

  predicate FreeFrom(calls: map<nat, Call>, t: nat)
  {
    forall u :: t <= u ==> u !in calls
  }

  function Steps(closed: Closing, t: nat, now: Time): seq<Step>
    decreases |closed|
  {
    if closed == [] then [] else [Step.Sweep(t, closed[0].key, now)] + Steps(closed[1..], t + 1, now)
  }

  predicate Filed(cfg: Config, ledger: Ledger, c: Sweep.Closed, now: Time)
  {
    && IdOf(cfg, c) in ledger
    && var document := ledger[IdOf(cfg, c)].document;
    document.flow == c.flow && document.reason == c.reason && document.finalizedAt == now
  }

  predicate AllFiled(cfg: Config, ledger: Ledger, closed: Closing, now: Time)
  {
    forall i :: 0 <= i < |closed| ==> Filed(cfg, ledger, closed[i], now)
  }

  predicate OwesPin(calls: map<nat, Call>, t: nat, c: Sweep.Closed)
  {
    t in calls && calls[t] == Owing([PinnedBy(c.flow)])
  }

  /** The sweep still owes the release of every version its flows held. */
  predicate AllOwed(calls: map<nat, Call>, t: nat, closed: Closing)
  {
    forall i :: 0 <= i < |closed| ==> OwesPin(calls, t + i, closed[i])
  }

  lemma FirstStaysOwed(before: map<nat, Call>, after: map<nat, Call>, t: nat, closed: Closing)
    requires closed != [] && OwesPin(before, t, closed[0]) && AllOwed(after, t + 1, closed[1..])
    requires forall u :: u < t + 1 && u in before ==> u in after && after[u] == before[u]
    ensures AllOwed(after, t, closed)
  {
    hide PinnedBy;
    forall i | 0 <= i < |closed| ensures OwesPin(after, t + i, closed[i]) {
      if i > 0 {
        assert OwesPin(after, t + 1 + (i - 1), closed[1..][i - 1]);
      }
    }
  }

  lemma OneStep(cfg: Config, s: State, t: nat, c: Sweep.Closed, now: Time)
    requires ClosesDue(s, c, now)
    ensures c.key in s.flows
    ensures
      var s' := SweepOne(cfg, s, t, c.key, now);
      && s'.flows == s.flows - {c.key} && s'.registry == s.registry
      && s'.calls == s.calls[t := Owing([PinnedBy(c.flow)])]
      && s'.boxes == Sweep.Enqueue(cfg, s.boxes, s.registry, c, now)
      && s'.ledger.Keys == s.ledger.Keys + {IdOf(cfg, c)}
      && Filed(cfg, s'.ledger, c, now)
      && forall id :: id in s.ledger && id != IdOf(cfg, c) ==> s'.ledger[id] == s.ledger[id]
  {
    hide OutputOf, UsedRule, OutcomeOf;
  }

  lemma RestSweepable(cfg: Config, s: State, s': State, closed: Closing, now: Time)
    requires Sweepable(s, closed, now) && closed != [] && FreshClosing(cfg, s.ledger, closed)
    requires s'.flows == s.flows - {closed[0].key} && s'.registry == s.registry
    requires s'.ledger.Keys == s.ledger.Keys + {IdOf(cfg, closed[0])}
    ensures Sweepable(s', closed[1..], now) && FreshClosing(cfg, s'.ledger, closed[1..])
  {
    hide OutcomeOf, IdOf;
    var rest := closed[1..];
    assert forall i :: 0 <= i < |rest| ==> rest[i] == closed[i + 1];
    forall i | 0 <= i < |rest| ensures ClosesDue(s', rest[i], now) && IdOf(cfg, rest[i]) !in s'.ledger {
      assert ClosesDue(s, closed[i + 1], now);
    }
  }

  /** The sweep's closings are a run of the engine that removes exactly those flows and files each
      with its reason. */
  lemma {:induction false} SweepIsRun(cfg: Config, s: State, t: nat, closed: Closing, now: Time) returns (end: State)
    requires Sweepable(s, closed, now) && FreshClosing(cfg, s.ledger, closed) && FreeFrom(s.calls, t)
    ensures Runs(cfg, s, Steps(closed, t, now), end)
    ensures end.flows == s.flows - Sweep.KeysClosed(closed) && end.registry == s.registry
    ensures end.boxes == Sweep.EnqueueAll(cfg, s.boxes, s.registry, closed, now)
    ensures AllOwed(end.calls, t, closed)
    ensures (forall u :: u < t && u in s.calls ==> u in end.calls && end.calls[u] == s.calls[u])
    ensures AllFiled(cfg, end.ledger, closed, now)
    ensures forall id :: id in s.ledger ==> id in end.ledger && end.ledger[id] == s.ledger[id]
    decreases |closed|
  {
    hide Sweepable, FreshClosing, IdOf, SweepOne, Filed, AllFiled, ClosesDue, Sweep.KeysClosed, Sweep.Enqueue, Runs,
      Steps, PinnedBy;
    if closed == [] {
      end := s;
      NothingSwept(cfg, s, t, now);
    } else {
      var c := closed[0];
      FirstCloses(cfg, s, closed, now);
      var s' := SweepOne(cfg, s, t, c.key, now);
      OneStep(cfg, s, t, c, now);
      RestSweepable(cfg, s, s', closed, now);
      assert FreeFrom(s'.calls, t + 1);
      end := SweepIsRun(cfg, s', t + 1, closed[1..], now);
      StepThenRun(cfg, s, t, closed, now, end);
      KeysSplit(closed);
      FirstStaysFiled(cfg, s'.ledger, end.ledger, closed, now);
      FirstStaysOwed(s'.calls, end.calls, t, closed);
    }
  }

  lemma NothingSwept(cfg: Config, s: State, t: nat, now: Time)
    ensures Runs(cfg, s, Steps([], t, now), s) && AllFiled(cfg, s.ledger, [], now)
    ensures s.flows - Sweep.KeysClosed([]) == s.flows
  {
    assert Sweep.KeysClosed([]) == {};
  }

  lemma FirstCloses(cfg: Config, s: State, closed: Closing, now: Time)
    requires Sweepable(s, closed, now) && FreshClosing(cfg, s.ledger, closed) && closed != []
    ensures ClosesDue(s, closed[0], now) && closed[0].key in s.flows && IdOf(cfg, closed[0]) !in s.ledger
  {
  }

  lemma StepThenRun(cfg: Config, s: State, t: nat, closed: Closing, now: Time, end: State)
    requires closed != [] && ClosesDue(s, closed[0], now) && IdOf(cfg, closed[0]) !in s.ledger && t !in s.calls
    requires Runs(cfg, SweepOne(cfg, s, t, closed[0].key, now), Steps(closed[1..], t + 1, now), end)
    ensures Runs(cfg, s, Steps(closed, t, now), end)
  {
    hide SweepOne, OutcomeOf, OutputOf;
    var steps := Steps(closed, t, now);
    assert steps[0] == Step.Sweep(t, closed[0].key, now) && steps[1..] == Steps(closed[1..], t + 1, now);
    assert Enabled(cfg, s, steps[0]) && FreshIds(cfg, s, steps[0]);
    assert Next(cfg, s, steps[0]) == SweepOne(cfg, s, t, closed[0].key, now);
  }

  lemma KeysSplit(closed: Closing)
    requires closed != []
    ensures Sweep.KeysClosed(closed) == {closed[0].key} + Sweep.KeysClosed(closed[1..])
  {
    assert closed == [closed[0]] + closed[1..];
    assert forall c :: c in closed <==> c == closed[0] || c in closed[1..];
  }

  lemma FirstStaysFiled(cfg: Config, before: Ledger, after: Ledger, closed: Closing, now: Time)
    requires closed != [] && Filed(cfg, before, closed[0], now) && AllFiled(cfg, after, closed[1..], now)
    requires forall id :: id in before ==> id in after && after[id] == before[id]
    ensures AllFiled(cfg, after, closed, now)
  {
    hide IdOf;
    forall i | 0 <= i < |closed| ensures Filed(cfg, after, closed[i], now) {
      if i > 0 {
        assert Filed(cfg, after, closed[1..][i - 1], now);
      }
    }
  }

  /** What the sweep loop reports can be swept: the loop and the engine agree on flows and reasons. */
  lemma ReportIsSweepable(s: State, closed: Closing, now: Time)
    requires Sweep.ClosedRightly(closed, s.flows, s.registry.versions, now)
    ensures Sweepable(s, closed, now)
  {
    hide OutcomeOf;
    DistinctKeys(closed);
    forall i | 0 <= i < |closed| ensures ClosesDue(s, closed[i], now) {
      assert closed[i] in closed;
    }
  }

  lemma {:induction false} KeysAreFewer(closed: Closing)
    ensures |Sweep.KeysClosed(closed)| <= |closed|
    decreases |closed|
  {
    if closed == [] {
      assert Sweep.KeysClosed(closed) == {};
    } else {
      KeysSplit(closed);
      KeysAreFewer(closed[1..]);
    }
  }

  lemma {:induction false} DistinctKeys(closed: Closing)
    requires |Sweep.KeysClosed(closed)| == |closed|
    ensures forall i, j :: 0 <= i < j < |closed| ==> closed[i].key != closed[j].key
    decreases |closed|
  {
    if closed != [] {
      var rest := closed[1..];
      KeysSplit(closed);
      KeysAreFewer(rest);
      assert closed[0].key !in Sweep.KeysClosed(rest);
      DistinctKeys(rest);
      forall i, j | 0 <= i < j < |closed| ensures closed[i].key != closed[j].key {
        if i == 0 {
          assert closed[j] == rest[j - 1] && closed[j] in rest;
        } else {
          assert closed[i] == rest[i - 1] && closed[j] == rest[j - 1];
        }
      }
    }
  }

  // ---------- the releases after the commit ----------

  function ReleaseSteps(t: nat, n: nat): seq<Step>
    decreases n
  {
    if n == 0 then [] else Ingest.Releases(t, 2) + ReleaseSteps(t + 1, n - 1)
  }

  lemma ReleasesOne(cfg: Config, s: State, t: nat, ref: Reference) returns (end: State)
    requires t in s.calls && s.calls[t] == Owing([ref])
    ensures Runs(cfg, s, Ingest.Releases(t, 2), end)
    ensures end.flows == s.flows && end.boxes == s.boxes && end.ledger == s.ledger
    ensures end.registry == Registry.Released(s.registry, ref)
    ensures end.calls == s.calls - {t}
  {
    hide Registry.Released, Runs, Ingest.Releases;
    end := Ingest.ReleaseAll(s, t, [ref]);
    Ingest.ReleasesRun(cfg, s, t, [ref]);
    ReleaseAllOfOne(s, t, ref);
  }

  lemma ReleaseAllOfOne(s: State, t: nat, ref: Reference)
    ensures
      var end := Ingest.ReleaseAll(s, t, [ref]);
      && end.flows == s.flows && end.boxes == s.boxes && end.ledger == s.ledger
      && end.registry == Registry.Released(s.registry, ref)
      && end.calls == s.calls - {t}
  {
    hide Registry.Released;
    var mid := ReleaseNext(s, t, [ref]);
    assert [ref][1..] == [];
    assert Ingest.ReleaseAll(mid, t, []) == ReleaseNext(mid, t, []);
  }

  lemma {:induction false} ReleasesRun(cfg: Config, s: State, t: nat, closed: Closing) returns (end: State)
    requires AllOwed(s.calls, t, closed)
    ensures Runs(cfg, s, ReleaseSteps(t, |closed|), end)
    ensures end.flows == s.flows && end.boxes == s.boxes && end.ledger == s.ledger
    ensures end.registry == Registry.ReleasedFrom(s.registry, Sweep.PinsOf(closed))
    decreases |closed|
  {
    hide Registry.Released, Runs, PinnedBy, Ingest.Releases;
    if closed == [] {
      end := s;
      NoSteps(cfg, s);
    } else {
      assert OwesPin(s.calls, t + 0, closed[0]);
      var ref := PinnedBy(closed[0].flow);
      var mid := ReleasesOne(cfg, s, t, ref);
      RestOwed(s.calls, t, closed);
      end := ReleasesRun(cfg, mid, t + 1, closed[1..]);
      RunsTogether(cfg, s, Ingest.Releases(t, 2), mid, ReleaseSteps(t + 1, |closed| - 1), end);
      assert Sweep.PinsOf(closed)[1..] == Sweep.PinsOf(closed[1..]) && Sweep.PinsOf(closed)[0] == ref;
    }
  }

  lemma NoSteps(cfg: Config, s: State)
    ensures Runs(cfg, s, [], s)
  {
  }

  lemma RestOwed(calls: map<nat, Call>, t: nat, closed: Closing)
    requires AllOwed(calls, t, closed) && closed != []
    ensures AllOwed(calls - {t}, t + 1, closed[1..])
  {
    hide PinnedBy;
    forall i | 0 <= i < |closed| - 1 ensures OwesPin(calls - {t}, t + 1 + i, closed[1..][i]) {
      assert OwesPin(calls, t + (i + 1), closed[i + 1]);
    }
  }

  /** The call as a whole: flows, boxes and registry after a committed sweep are those of an engine run. */
  lemma SweepCallIsRun(cfg: Config, s: State, t: nat, closed: Closing, now: Time) returns (end: State)
    requires Sweep.ClosedRightly(closed, s.flows, s.registry.versions, now)
    requires FreshClosing(cfg, s.ledger, closed) && FreeFrom(s.calls, t)
    ensures Runs(cfg, s, Steps(closed, t, now) + ReleaseSteps(t, |closed|), end)
    ensures end.flows == s.flows - Sweep.KeysClosed(closed)
    ensures end.boxes == Sweep.EnqueueAll(cfg, s.boxes, s.registry, closed, now)
    ensures end.registry == Registry.ReleasedFrom(s.registry, Sweep.PinsOf(closed))
    ensures AllFiled(cfg, end.ledger, closed, now)
  {
    hide FreshClosing, Sweepable, Runs, Steps, ReleaseSteps, AllFiled, AllOwed, Sweep.ClosedRightly, Sweep.KeysClosed,
      Sweep.EnqueueAll, Registry.ReleasedFrom;
    ReportIsSweepable(s, closed, now);
    var mid := SweepIsRun(cfg, s, t, closed, now);
    end := ReleasesRun(cfg, mid, t, closed);
    RunsTogether(cfg, s, Steps(closed, t, now), mid, ReleaseSteps(t, |closed|), end);
  }

  /** What the sweep leaves in the durable store and the registry is what that run leaves. */
  lemma SweptStateIsReached(cfg: Config, s: State, t: nat, kv: PebbleStore.Keyspace, g: Registry.Registry,
                            closed: Closing, now: Time)
    returns (end: State)
    requires Sweep.SweptTo(cfg, kv, s.flows, s.boxes, s.registry, closed, now)
    requires g == Registry.ReleasedFrom(s.registry, Sweep.PinsOf(closed))
    requires FreshClosing(cfg, s.ledger, closed) && FreeFrom(s.calls, t)
    ensures Runs(cfg, s, Steps(closed, t, now) + ReleaseSteps(t, |closed|), end)
    ensures PebbleStore.Holds(kv, end.flows) && PebbleStore.Covered(kv, end.flows)
    ensures PebbleDelivery.HoldsBoxes(kv, end.boxes)
    ensures g == end.registry
  {
    hide FreshClosing, FreeFrom, Runs, Sweep.ClosedRightly, Sweep.KeysClosed, Sweep.EnqueueAll, Registry.ReleasedFrom,
      PebbleStore.Holds, PebbleStore.Covered, PebbleDelivery.HoldsBoxes;
    end := SweepCallIsRun(cfg, s, t, closed, now);
  }
}
