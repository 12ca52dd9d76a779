/** The incremental dead-letter summary of internal/application/alerts/service.go against a recount
    of the store. */
module Alerts {
  import opened ByteText
  import opened Rules
  import opened FlowModel
  import opened Ordering
  import opened Outbox
  import opened DeadLetters
  import opened DeadLetterPaging

  datatype Summary = Summary(records: nat, dropped: nat, reasons: map<Text, nat>, indices: map<Text, nat>)

  function ReasonType(value: Text): Text
  {
    if value == "" then "unknown" else value
  }

  function ReasonKey(ref: Ref): Text
  {
    ReasonType(ref.typ)
  }

  function IndexKey(ref: Ref): Text
  {
    ref.index
  }

  // ---------- counters ----------

  /** A counter at one or below is dropped; there is no zero entry and nothing below zero. */
  function Decremented(counts: map<Text, nat>, key: Text): map<Text, nat>
  {
    if Count(counts, key) <= 1 then counts - {key} else counts[key := Count(counts, key) - 1]
  }

  function Incremented(counts: map<Text, nat>, key: Text): map<Text, nat>
  {
    counts[key := Count(counts, key) + 1]
  }

  function DecrementedAll(counts: map<Text, nat>, keys: seq<Text>): map<Text, nat>
  {
    if keys == [] then counts else Decremented(DecrementedAll(counts, keys[..|keys| - 1]), keys[|keys| - 1])
  }

  function IncrementedAll(counts: map<Text, nat>, keys: seq<Text>): map<Text, nat>
  {
    if keys == [] then counts else Incremented(IncrementedAll(counts, keys[..|keys| - 1]), keys[|keys| - 1])
  }

  function Monus(a: nat, b: nat): nat
  {
    if a <= b then 0 else a - b
  }

  lemma {:induction false} DecrementedCount(counts: map<Text, nat>, keys: seq<Text>, key: Text)
    ensures Count(DecrementedAll(counts, keys), key) == Monus(Count(counts, key), multiset(keys)[key])
    decreases |keys|
  {
    if keys != [] {
      var n := |keys| - 1;
      DecrementedCount(counts, keys[..n], key);
      assert keys == keys[..n] + [keys[n]];
    }
  }

  lemma {:induction false} IncrementedCount(counts: map<Text, nat>, keys: seq<Text>, key: Text)
    ensures Count(IncrementedAll(counts, keys), key) == Count(counts, key) + multiset(keys)[key]
    decreases |keys|
  {
    if keys != [] {
      var n := |keys| - 1;
      IncrementedCount(counts, keys[..n], key);
      assert keys == keys[..n] + [keys[n]];
    }
  }

  /** One dimension after a change: removals first, then additions. */
  function Recounted(counts: map<Text, nat>, keyOf: Ref -> Text, change: Change): map<Text, nat>
  {
    IncrementedAll(DecrementedAll(counts, MapSeq(keyOf, change.removed)), MapSeq(keyOf, change.added))
  }

  lemma RecountedCount(counts: map<Text, nat>, keyOf: Ref -> Text, change: Change, key: Text)
    ensures Count(Recounted(counts, keyOf, change), key) ==
            Monus(Count(counts, key), multiset(MapSeq(keyOf, change.removed))[key])
            + multiset(MapSeq(keyOf, change.added))[key]
  {
    hide DecrementedAll, IncrementedAll, MapSeq;
    DecrementedCount(counts, MapSeq(keyOf, change.removed), key);
    IncrementedCount(DecrementedAll(counts, MapSeq(keyOf, change.removed)), MapSeq(keyOf, change.added), key);
  }

  function Updated(s: Summary, change: Change): Summary
  {
    if !change.changed then s
    else
      Summary(change.records, s.dropped + change.dropped,
              Recounted(s.reasons, ReasonKey, change), Recounted(s.indices, IndexKey, change))
  }

  // ---------- the recount ----------

  /** The keys of a bag of references. */
  ghost function Image(keyOf: Ref -> Text, refs: multiset<Ref>): multiset<Text>
    decreases |refs|
  {
    if refs == multiset{} then multiset{}
    else
      var x :| x in refs;
      Image(keyOf, refs - multiset{x}) + multiset{keyOf(x)}
  }

  lemma ImageTakesSome(keyOf: Ref -> Text, refs: multiset<Ref>) returns (x: Ref)
    requires refs != multiset{}
    ensures x in refs && Image(keyOf, refs) == Image(keyOf, refs - multiset{x}) + multiset{keyOf(x)}
  {
    x :| x in refs && Image(keyOf, refs) == Image(keyOf, refs - multiset{x}) + multiset{keyOf(x)};
  }

  lemma {:induction false} ImageRemove(keyOf: Ref -> Text, refs: multiset<Ref>, y: Ref)
    requires y in refs
    ensures Image(keyOf, refs) == Image(keyOf, refs - multiset{y}) + multiset{keyOf(y)}
    decreases |refs|
  {
    hide Image;
    var x := ImageTakesSome(keyOf, refs);
    if x != y {
      var a, b := refs - multiset{x}, refs - multiset{y};
      ImageRemove(keyOf, a, y);
      ImageRemove(keyOf, b, x);
      assert a - multiset{y} == b - multiset{x};
    }
  }

  lemma ImageAdd(keyOf: Ref -> Text, refs: multiset<Ref>, y: Ref)
    ensures Image(keyOf, refs + multiset{y}) == Image(keyOf, refs) + multiset{keyOf(y)}
  {
    ImageRemove(keyOf, refs + multiset{y}, y);
    assert refs + multiset{y} - multiset{y} == refs;
  }

  lemma {:induction false} ImageAddAll(keyOf: Ref -> Text, refs: multiset<Ref>, more: seq<Ref>)
    ensures Image(keyOf, refs + multiset(more)) == Image(keyOf, refs) + multiset(MapSeq(keyOf, more))
    decreases |more|
  {
    hide Image;
    if more == [] {
      assert refs + multiset(more) == refs && MapSeq(keyOf, more) == [];
    } else {
      var n := |more| - 1;
      ImageAddAll(keyOf, refs, more[..n]);
      assert more == more[..n] + [more[n]];
      assert MapSeq(keyOf, more) == MapSeq(keyOf, more[..n]) + [keyOf(more[n])];
      ImageAdd(keyOf, refs + multiset(more[..n]), more[n]);
      assert refs + multiset(more) == refs + multiset(more[..n]) + multiset{more[n]};
    }
  }

  /** How many retained rejections have this key. */
  ghost function Recount(dead: map<OutputId, Record>, keyOf: Ref -> Text, key: Text): nat
  {
    Image(keyOf, RefsIn(dead))[key]
  }

  /** The change tells exactly how one dead-letter set became another. */
  ghost predicate Tells(dead: map<OutputId, Record>, change: Change, dead': map<OutputId, Record>)
  {
    && RefsIn(dead') + multiset(change.removed) == RefsIn(dead) + multiset(change.added)
    && (change.changed ==> change.records == |dead'|)
    && (!change.changed ==> dead' == dead && change.dropped == 0)
  }

  lemma RecountMoves(dead: map<OutputId, Record>, change: Change, dead': map<OutputId, Record>, keyOf: Ref -> Text,
                     key: Text)
    requires Tells(dead, change, dead')
    ensures Recount(dead', keyOf, key) + multiset(MapSeq(keyOf, change.removed))[key]
         == Recount(dead, keyOf, key) + multiset(MapSeq(keyOf, change.added))[key]
  {
    hide Image, RefsIn, MapSeq;
    ImageAddAll(keyOf, RefsIn(dead'), change.removed);
    ImageAddAll(keyOf, RefsIn(dead), change.added);
    var after, before := Image(keyOf, RefsIn(dead')), Image(keyOf, RefsIn(dead));
    var removed, added := multiset(MapSeq(keyOf, change.removed)), multiset(MapSeq(keyOf, change.added));
    assert after + removed == before + added;
    assert (after + removed)[key] == (before + added)[key];
  }

  /** One dimension under one change: a counter that was at least the recount stays so, and one that
      was exact stays exact if and only if the change removes no more under the key than were counted. */
  lemma CounterTracks(counts: map<Text, nat>, keyOf: Ref -> Text, dead: map<OutputId, Record>, change: Change,
                      dead': map<OutputId, Record>, key: Text)
    requires Tells(dead, change, dead') && change.changed
    requires Count(counts, key) >= Recount(dead, keyOf, key)
    ensures Count(Recounted(counts, keyOf, change), key) >= Recount(dead', keyOf, key)
    ensures Count(counts, key) == Recount(dead, keyOf, key) ==>
              (Count(Recounted(counts, keyOf, change), key) == Recount(dead', keyOf, key) <==>
               multiset(MapSeq(keyOf, change.removed))[key] <= Count(counts, key))
  {
    hide Recounted, Tells, Recount, MapSeq;
    RecountedCount(counts, keyOf, change, key);
    RecountMoves(dead, change, dead', keyOf, key);
  }

  // ---------- whole runs ----------

  ghost predicate NeverBelow(s: Summary, dead: map<OutputId, Record>)
  {
    && (forall key :: Count(s.reasons, key) >= Recount(dead, ReasonKey, key))
    && (forall key :: Count(s.indices, key) >= Recount(dead, IndexKey, key))
  }

  /** Totals agree with the store and no counter is below its recount. */
  ghost predicate Tracks(s: Summary, b: Boxes)
  {
    s.records == |b.dead| && s.dropped == b.dropped && NeverBelow(s, b.dead)
  }

  lemma UpdateTracks(s: Summary, b: Boxes, change: Change, b': Boxes)
    requires Tracks(s, b) && Tells(b.dead, change, b'.dead) && b'.dropped == b.dropped + change.dropped
    ensures Tracks(Updated(s, change), b')
  {
    hide Recounted, Recount;
    if change.changed {
      forall key ensures Count(Recounted(s.reasons, ReasonKey, change), key) >= Recount(b'.dead, ReasonKey, key) {
        CounterTracks(s.reasons, ReasonKey, b.dead, change, b'.dead, key);
      }
      forall key ensures Count(Recounted(s.indices, IndexKey, change), key) >= Recount(b'.dead, IndexKey, key) {
        CounterTracks(s.indices, IndexKey, b.dead, change, b'.dead, key);
      }
    }
  }

  /** A transaction that touches the dead letters. */
  datatype Commit = Resolve(results: seq<Result>) | Replay(ids: seq<OutputId>, now: Time)

  ghost function Committed(b: Boxes, c: Commit, cap: int): (Boxes, Change)
  {
    match c
    case Resolve(results) => Resolution(b, results, cap)
    case Replay(ids, now) => (Replayed(b, ids, now).boxes, ReplayChange(Replayed(b, ids, now)))
  }

  lemma CommitTells(b: Boxes, c: Commit, cap: int)
    ensures
      var (b', change) := Committed(b, c, cap);
      Tells(b.dead, change, b'.dead) && b'.dropped == b.dropped + change.dropped
  {
    hide Resolution, RefsIn, Replayed;
    match c
    case Resolve(results) =>
      ResolutionBalances(b, results, cap);
      UnchangedDropsNothing(b, results, cap);
    case Replay(ids, now) =>
      ReplayBalances(b, ids, now);
      assert RefsIn(b.dead) + multiset([]) == RefsIn(b.dead);
  }

  lemma UnchangedDropsNothing(b: Boxes, results: seq<Result>, cap: int)
    ensures !Resolution(b, results, cap).1.changed ==> Resolution(b, results, cap).1.dropped == 0
  {
    hide ResolvedAll, Victims, Kept;
  }

  ghost function BoxesAfter(b: Boxes, commits: seq<Commit>, cap: int): Boxes
  {
    if commits == [] then b
    else Committed(BoxesAfter(b, commits[..|commits| - 1], cap), commits[|commits| - 1], cap).0
  }

  ghost function SummaryAfter(s: Summary, b: Boxes, commits: seq<Commit>, cap: int): Summary
  {
    if commits == [] then s
    else
      var n := |commits| - 1;
      Updated(SummaryAfter(s, b, commits[..n], cap), Committed(BoxesAfter(b, commits[..n], cap), commits[n], cap).1)
  }

  /** Applied in commit order, the changes keep the totals exact and no counter below its recount. */
  lemma {:induction false} SummaryTracks(s: Summary, b: Boxes, commits: seq<Commit>, cap: int)
    requires Tracks(s, b)
    ensures Tracks(SummaryAfter(s, b, commits, cap), BoxesAfter(b, commits, cap))
    decreases |commits|
  {
    hide Committed, Updated, Tracks;
    if commits != [] {
      var n := |commits| - 1;
      SummaryTracks(s, b, commits[..n], cap);
      var before := BoxesAfter(b, commits[..n], cap);
      CommitTells(before, commits[n], cap);
      var (after, change) := Committed(before, commits[n], cap);
      UpdateTracks(SummaryAfter(s, b, commits[..n], cap), before, change, after);
    }
  }

  // ---------- the seed ----------

  function TypeKey(ref: Ref): Text
  {
    ref.typ
  }

  /** What a reason counts once the empty one is called unknown. */
  function MergedCount(raw: map<Text, nat>, key: Text): nat
  {
    if key == "" then 0 else Count(raw, key) + if key == "unknown" then Count(raw, "") else 0
  }

  ghost predicate Merges(raw: map<Text, nat>, merged: map<Text, nat>)
  {
    forall key :: Count(merged, key) == MergedCount(raw, key)
  }

  method MergeReasons(raw: map<Text, nat>) returns (merged: map<Text, nat>)
    ensures Merges(raw, merged)
  {
    merged := map[];
    var todo := raw.Keys;
    while todo != {}
      invariant todo <= raw.Keys
      invariant Merges(map key | key in raw && key !in todo :: raw[key], merged)
      decreases todo
    {
      var reason :| reason in todo;
      ghost var before, after := (map key | key in raw && key !in todo :: raw[key]),
          (map key | key in raw && key !in todo - {reason} :: raw[key]);
      MergeOneMore(before, merged, reason, raw[reason]);
      assert after == before[reason := raw[reason]];
      merged := merged[ReasonType(reason) := Count(merged, ReasonType(reason)) + raw[reason]];
      todo := todo - {reason};
    }
    assert raw == map key | key in raw && key !in todo :: raw[key];
  }

  lemma MergeOneMore(raw: map<Text, nat>, merged: map<Text, nat>, reason: Text, count: nat)
    requires Merges(raw, merged) && reason !in raw
    ensures Merges(raw[reason := count], merged[ReasonType(reason) := Count(merged, ReasonType(reason)) + count])
  {
    var merged' := merged[ReasonType(reason) := Count(merged, ReasonType(reason)) + count];
    forall key ensures Count(merged', key) == MergedCount(raw[reason := count], key) {
      assert Count(merged, key) == MergedCount(raw, key);
    }
  }

  /** Every counter equals its recount. */
  ghost predicate CountsExactly(counts: map<Text, nat>, keyOf: Ref -> Text, dead: map<OutputId, Record>)
  {
    forall key :: Count(counts, key) == Recount(dead, keyOf, key)
  }

  lemma NoneCounted(keyOf: Ref -> Text)
    ensures CountsExactly(map[], keyOf, map[])
  {
    assert RefMap(map[]) == map[];
  }

  lemma CountOneMore(counts: map<Text, nat>, keyOf: Ref -> Text, dead: map<OutputId, Record>, id: OutputId, r: Record)
    requires CountsExactly(counts, keyOf, dead) && id !in dead
    ensures CountsExactly(Incremented(counts, keyOf(RefOf(r))), keyOf, dead[id := r])
  {
    hide Image, RefsIn;
    RefsSet(dead, id, r);
    assert multiset(RefsAt(dead, id)) == multiset{};
    assert RefsIn(dead[id := r]) == RefsIn(dead) + multiset{RefOf(r)};
    ImageAdd(keyOf, RefsIn(dead), RefOf(r));
    var counts' := Incremented(counts, keyOf(RefOf(r)));
    forall key ensures Count(counts', key) == Recount(dead[id := r], keyOf, key) {
      assert Count(counts, key) == Recount(dead, keyOf, key);
    }
  }

  /** DeadLetters: the store counts what it holds. */
  method Summarise(dead: map<OutputId, Record>, dropped: nat) returns (summary: Summary)
    ensures summary.records == |dead| && summary.dropped == dropped
    ensures CountsExactly(summary.reasons, TypeKey, dead) && CountsExactly(summary.indices, IndexKey, dead)
  {
    hide CountsExactly, Incremented, RefOf;
    var reasons: map<Text, nat>, indices: map<Text, nat> := map[], map[];
    var todo := dead.Keys;
    ghost var seen: map<OutputId, Record> := map[];
    NoneCounted(TypeKey);
    NoneCounted(IndexKey);
    while todo != {}
      invariant todo <= dead.Keys && seen == dead - todo
      invariant CountsExactly(reasons, TypeKey, seen) && CountsExactly(indices, IndexKey, seen)
      decreases todo
    {
      var id :| id in todo;
      CountOneMore(reasons, TypeKey, seen, id, dead[id]);
      CountOneMore(indices, IndexKey, seen, id, dead[id]);
      reasons := Incremented(reasons, TypeKey(RefOf(dead[id])));
      indices := Incremented(indices, IndexKey(RefOf(dead[id])));
      todo := todo - {id};
      seen := seen[id := dead[id]];
    }
    assert seen == dead;
    summary := Summary(|dead|, dropped, reasons, indices);
  }

  lemma {:induction false} ImagesMerge(refs: multiset<Ref>, key: Text)
    ensures Image(ReasonKey, refs)[key] ==
            if key == "" then 0
            else Image(TypeKey, refs)[key] + if key == "unknown" then Image(TypeKey, refs)[""] else 0
    decreases |refs|
  {
    hide Image;
    if refs != multiset{} {
      var x := ImageTakesSome(ReasonKey, refs);
      ImageRemove(TypeKey, refs, x);
      ImagesMerge(refs - multiset{x}, key);
    } else {
      NoImage(ReasonKey);
      NoImage(TypeKey);
    }
  }

  lemma NoImage(keyOf: Ref -> Text)
    ensures Image(keyOf, multiset{}) == multiset{}
  {
  }

  /** A service seeded from the store starts exact, so that everything said of tracking summaries holds. */
  lemma SeedTracks(seed: Summary, s: Summary, b: Boxes)
    requires seed.records == |b.dead| && seed.dropped == b.dropped
    requires CountsExactly(seed.reasons, TypeKey, b.dead) && CountsExactly(seed.indices, IndexKey, b.dead)
    requires s.records == seed.records && s.dropped == seed.dropped && s.indices == seed.indices
    requires Merges(seed.reasons, s.reasons)
    ensures CountsExactly(s.reasons, ReasonKey, b.dead) && CountsExactly(s.indices, IndexKey, b.dead) && Tracks(s, b)
  {
    hide Image, RefsIn;
    forall key ensures Count(s.reasons, key) == Recount(b.dead, ReasonKey, key) {
      ImagesMerge(RefsIn(b.dead), key);
      assert Count(seed.reasons, key) == Recount(b.dead, TypeKey, key);
      assert Count(seed.reasons, "") == Recount(b.dead, TypeKey, "");
    }
  }

  // ---------- the service object ----------

  class Service {
    var dlq: Summary

    /** New: reasons are merged under their normal names. */
    constructor (seed: Summary)
      ensures dlq.records == seed.records && dlq.dropped == seed.dropped && dlq.indices == seed.indices
      ensures Merges(seed.reasons, dlq.reasons)
    {
      var reasons := MergeReasons(seed.reasons);
      dlq := seed.(reasons := reasons);
    }

    method ApplyDeadLetterChange(change: Change)
      modifies this
      ensures dlq == Updated(old(dlq), change)
    {
      if !change.changed {
        return;
      }
      var reasons := CountDown(dlq.reasons, MapSeq(ReasonKey, change.removed));
      var indices := CountDown(dlq.indices, MapSeq(IndexKey, change.removed));
      reasons := CountUp(reasons, MapSeq(ReasonKey, change.added));
      indices := CountUp(indices, MapSeq(IndexKey, change.added));
      dlq := Summary(change.records, dlq.dropped + change.dropped, reasons, indices);
    }
  }

  method CountDown(counts: map<Text, nat>, keys: seq<Text>) returns (after: map<Text, nat>)
    ensures after == DecrementedAll(counts, keys)
  {
    after := counts;
    for i := 0 to |keys|
      invariant after == DecrementedAll(counts, keys[..i])
    {
      assert keys[..i + 1][..i] == keys[..i] && keys[..i + 1][i] == keys[i];
      if Count(after, keys[i]) <= 1 {
        after := after - {keys[i]};
      } else {
        after := after[keys[i] := after[keys[i]] - 1];
      }
    }
    assert keys[..|keys|] == keys;
  }

  method CountUp(counts: map<Text, nat>, keys: seq<Text>) returns (after: map<Text, nat>)
    ensures after == IncrementedAll(counts, keys)
  {
    after := counts;
    for i := 0 to |keys|
      invariant after == IncrementedAll(counts, keys[..i])
    {
      assert keys[..i + 1][..i] == keys[..i] && keys[..i + 1][i] == keys[i];
      after := after[keys[i] := Count(after, keys[i]) + 1];
    }
    assert keys[..|keys|] == keys;
  }

  // ---------- where the counters drift ----------

  function BuriedBy(b: Boxes, res: Result): Record
    requires res.outputId in b.records
  {
    Buried(b.records[res.outputId], res)
  }

  /** A full dead-letter set, all of it newer than the record now rejected. */
  predicate FullOfNewer(b: Boxes, res: Result, cap: int)
    requires res.outputId in b.records
  {
    && |b.dead| == cap && res.outputId !in b.dead
    && forall id :: id in b.dead ==> Older(Age(b.records[res.outputId].createdAt, res.outputId), AgeOf(b.dead, id))
  }

  lemma BuriesOne(b: Boxes, res: Result)
    requires res.disposition == Permanent && res.outputId in b.records && res.outputId !in b.dead
    ensures
      var p, buried := ResolvedAll(b, [res]), BuriedBy(b, res);
      && p.added == [RefOf(buried)] && p.removed == [] && p.boxes.dropped == b.dropped
      && p.boxes.dead == b.dead[res.outputId := buried] && buried.createdAt == b.records[res.outputId].createdAt
  {
    var results := [res];
    assert results[..0] == [] && ResolvedAll(b, results[..0]) == Progress(b, [], []);
  }

  lemma EvictsItself(dead: map<OutputId, Record>, id: OutputId, r: Record)
    requires id !in dead
    requires forall x :: x in dead ==> Older(Age(r.createdAt, id), AgeOf(dead, x))
    ensures Victims(dead[id := r], |dead|) == [Age(r.createdAt, id)]
    ensures Kept(dead[id := r], |dead|) == dead
  {
    hide Older, EvictionQueue, IdsOf;
    var all := dead[id := r];
    DropOne(all, id);
    assert all - {id} == dead;
    OldestIsFirst(all, id);
    QueueListsAll(all);
    var q := EvictionQueue(all);
    assert q[..1] == [q[0]];
    OneId(q[0]);
  }

  lemma OneId(a: Age)
    ensures IdsOf([a]) == {a.id}
  {
  }

  lemma OldestIsFirst(dead: map<OutputId, Record>, id: OutputId)
    requires id in dead && forall x :: x in dead ==> x == id || Older(AgeOf(dead, id), AgeOf(dead, x))
    ensures EvictionQueue(dead) != [] && EvictionQueue(dead)[0] == AgeOf(dead, id)
  {
    hide Older, EvictionQueue, IdsOf;
    QueueListsAll(dead);
    var q := EvictionQueue(dead);
    assert AgeOf(dead, id) in q;
    assert q[..0] == [];
    NoIds();
    assert dead - {} == dead;
    OldestIsNext(dead, 0, id);
  }

  /** A record buried into a full set of newer ones is evicted by its own transaction: the removal
      finds nothing to subtract, the addition stays, and the counter ends above the recount. */
  lemma SameTransactionEvictionDrifts(s: Summary, b: Boxes, res: Result, cap: int)
    requires res.disposition == Permanent && res.outputId in b.records && FullOfNewer(b, res, cap)
    requires Tracks(s, b) && Count(s.reasons, ReasonType(res.rejectionType)) == 0
    ensures
      var (b', change) := Resolution(b, [res], cap);
      var key := ReasonType(res.rejectionType);
      && change.added == [RefOf(BuriedBy(b, res))] && change.removed == [RefOf(BuriedBy(b, res))]
      && b'.dead == b.dead && Recount(b'.dead, ReasonKey, key) == 0
      && Count(Updated(s, change).reasons, key) == 1
  {
    hide ResolvedAll, Recount, Recounted, Older, Victims, Kept;
    var buried := BuriedBy(b, res);
    BuriesOne(b, res);
    EvictsItself(b.dead, res.outputId, buried);
    var (b', change) := Resolution(b, [res], cap);
    assert change.removed == [RefOf(buried)];
    OneRefDrifts(s, change, RefOf(buried));
  }

  lemma OneRefDrifts(s: Summary, change: Change, ref: Ref)
    requires change.changed && change.added == [ref] && change.removed == [ref] && Count(s.reasons, ReasonKey(ref)) == 0
    ensures Count(Updated(s, change).reasons, ReasonKey(ref)) == 1
  {
    hide Recounted;
    RecountedCount(s.reasons, ReasonKey, change, ReasonKey(ref));
    assert MapSeq(ReasonKey, [ref]) == [ReasonKey(ref)];
  }
}
