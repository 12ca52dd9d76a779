/** The simple store of internal/adapters/state/memory/store.go: maps scanned in no particular order. */
module MemoryStore {
  import opened ByteText
  import opened Rules
  import opened FlowModel
  import opened Ordering
  import opened Outbox
  import opened DeadLetters
  import opened DeadLetterPaging
  import opened DueFlows

  // ---------- scans ----------

  predicate DeadlineLess(a: Due, b: Due)
  {
    a.deadline < b.deadline
  }

  /** Full scan of the open flows. */
  method ScanDue(flows: Flows, before: Time) returns (found: seq<Due>)
    ensures Found(flows, before, found)
  {
    hide FoundAmong;
    found := [];
    var todo := flows.Keys;
    ghost var seen: set<FlowKey> := {};
    FoundNothing(flows);
    while todo != {}
      invariant todo <= flows.Keys && seen == DueSet(flows, before) - todo
      invariant FoundAmong(flows, seen, found)
      decreases todo
    {
      var key :| key in todo;
      todo := todo - {key};
      if flows[key].expiresAt > before {
        continue;
      }
      FoundOneMore(flows, found, key, seen);
      found := found + [Due(flows[key].expiresAt, key)];
      seen := seen + {key};
    }
    assert seen == DueSet(flows, before);
    FoundAll(flows, before, found);
  }

  method ScanMatching(dead: map<OutputId, Record>, f: Filter, within: set<OutputId>) returns (ids: seq<OutputId>)
    requires within <= dead.Keys
    ensures multiset(ids) == multiset(Matching(dead, f) * within)
  {
    ids := [];
    var todo := within;
    ghost var seen: set<OutputId> := {};
    while todo != {}
      invariant todo <= within && seen == Matching(dead, f) * within - todo
      invariant multiset(ids) == multiset(seen)
      decreases todo
    {
      var id :| id in todo;
      todo := todo - {id};
      if Matches(f, dead[id]) {
        ids := ids + [id];
        seen := seen + {id};
      }
    }
  }

  function ReadyPart(records: map<OutputId, Record>, now: Time): map<OutputId, Record>
  {
    map id | id in records && Ready(records[id], now) :: records[id]
  }

  /** The batch holds the longest-waiting ready records, oldest first, ties by ID. */
  ghost predicate Pending(records: map<OutputId, Record>, now: Time, limit: int, batch: seq<Record>)
  {
    var queue := Limited(EvictionQueue(ReadyPart(records, now)), limit);
    && |batch| == |queue|
    && forall i :: 0 <= i < |batch| ==> queue[i].id in records && batch[i] == records[queue[i].id]
  }

  method ScanReady(records: map<OutputId, Record>, now: Time) returns (found: seq<Age>)
    ensures multiset(found) == multiset(AgesOf(ReadyPart(records, now)))
  {
    found := [];
    var todo := records.Keys;
    ghost var seen: set<Age> := {};
    while todo != {}
      invariant todo <= records.Keys
      invariant forall a :: a in seen <==>
              a.id in records && a.id !in todo && Ready(records[a.id], now) && a == AgeOf(records, a.id)
      invariant multiset(found) == multiset(seen)
      decreases todo
    {
      var id :| id in todo;
      todo := todo - {id};
      if !Ready(records[id], now) {
        continue;
      }
      found := found + [AgeOf(records, id)];
      seen := seen + {AgeOf(records, id)};
    }
    assert seen == AgesOf(ReadyPart(records, now)) by { ReadyAges(records, now); }
  }

  lemma ReadyAges(records: map<OutputId, Record>, now: Time)
    ensures forall a :: a in AgesOf(ReadyPart(records, now)) <==>
            a.id in records && Ready(records[a.id], now) && a == AgeOf(records, a.id)
  {
    hide Ready;
    var ready := ReadyPart(records, now);
    assert forall id :: id in ready ==> AgeOf(ready, id) == AgeOf(records, id);
  }

  method ListPending(records: map<OutputId, Record>, now: Time, limit: int) returns (batch: seq<Record>)
    ensures Pending(records, now, limit, batch)
  {
    hide Older, Sort, EvictionQueue, AgesOf, Ready;
    var found := ScanReady(records, now);
    ghost var ready := ReadyPart(records, now);
    var sorted := Sort(Older, found);
    assert sorted == EvictionQueue(ready) by { SortedIsQueue(ready, found); }
    QueueListsAll(ready);
    var queue := Limited(sorted, limit);
    assert forall i :: 0 <= i < |queue| ==> queue[i] in sorted;
    batch := seq(|queue|, i requires 0 <= i < |queue| => records[queue[i].id]);
  }

  lemma SortedIsQueue(dead: map<OutputId, Record>, listing: seq<Age>)
    requires multiset(listing) == multiset(AgesOf(dead))
    ensures Sort(Older, listing) == EvictionQueue(dead)
  {
    hide Older, Sort, SortedSet;
    OlderIsOrder();
    SortOrders(Older, listing);
    SortPermutes(Older, listing);
    OrderedListing(Older, AgesOf(dead), Sort(Older, listing));
  }

  /** The inner loop of trimDeadLetters; the candidate starts as the empty ID, present or not. */
  method FindOldest(dead: map<OutputId, Record>) returns (oldest: OutputId)
    requires dead != map[]
    ensures oldest in dead
    ensures forall id :: id in dead ==> id == oldest || Older(AgeOf(dead, oldest), AgeOf(dead, id))
  {
    OlderIsOrder();
    oldest := "";
    var todo := dead.Keys;
    while todo != {}
      invariant todo <= dead.Keys
      invariant todo != dead.Keys ==> oldest in dead
      invariant oldest in dead ==> forall id :: id in dead && id !in todo ==>
              id == oldest || Older(AgeOf(dead, oldest), AgeOf(dead, id))
      decreases todo
    {
      var id :| id in todo;
      if oldest !in dead || Older(AgeOf(dead, id), AgeOf(dead, oldest)) {
        ExtendOldest(dead, todo, oldest, id);
        oldest := id;
      } else {
        assert id == oldest || Older(AgeOf(dead, oldest), AgeOf(dead, id));
      }
      todo := todo - {id};
    }
  }

  lemma ExtendOldest(dead: map<OutputId, Record>, todo: set<OutputId>, oldest: OutputId, id: OutputId)
    requires id in dead && todo <= dead.Keys && (todo != dead.Keys ==> oldest in dead)
    requires oldest in dead ==> forall x :: x in dead && x !in todo ==>
            x == oldest || Older(AgeOf(dead, oldest), AgeOf(dead, x))
    requires oldest in dead ==> Older(AgeOf(dead, id), AgeOf(dead, oldest))
    ensures forall x :: x in dead && x !in todo ==> x == id || Older(AgeOf(dead, id), AgeOf(dead, x))
  {
    hide Older;
    OlderIsOrder();
    if oldest in dead {
      forall x | x in dead && x !in todo ensures x == id || Older(AgeOf(dead, id), AgeOf(dead, x)) {
        if x != oldest {
          assert !Older(AgeOf(dead, oldest), AgeOf(dead, id)) && !Older(AgeOf(dead, x), AgeOf(dead, oldest));
        }
      }
    }
  }

  /** What is left after the first n evictions. */
  ghost function LeftAfter(dead: map<OutputId, Record>, n: nat): map<OutputId, Record>
    requires n <= |EvictionQueue(dead)|
  {
    dead - IdsOf(EvictionQueue(dead)[..n])
  }

  lemma EvictOne(dead: map<OutputId, Record>, n: nat, oldest: OutputId)
    requires n < |EvictionQueue(dead)| && oldest in LeftAfter(dead, n)
    requires forall id :: id in LeftAfter(dead, n) ==>
               id == oldest || Older(AgeOf(LeftAfter(dead, n), oldest), AgeOf(LeftAfter(dead, n), id))
    ensures EvictionQueue(dead)[n].id == oldest
    ensures LeftAfter(dead, n + 1) == LeftAfter(dead, n) - {oldest}
    ensures |LeftAfter(dead, n + 1)| == |LeftAfter(dead, n)| - 1
  {
    hide EvictionQueue, Older, IdsOf;
    var q := EvictionQueue(dead);
    assert forall id :: id in LeftAfter(dead, n) ==> AgeOf(LeftAfter(dead, n), id) == AgeOf(dead, id);
    OldestIsNext(dead, n, oldest);
    assert q[..n + 1] == q[..n] + [q[n]];
    IdsSnoc(q[..n], q[n]);
    DropOne(LeftAfter(dead, n), oldest);
  }

  lemma EvictNone(dead: map<OutputId, Record>)
    ensures |EvictionQueue(dead)| == |dead|
    ensures LeftAfter(dead, 0) == dead
  {
    hide EvictionQueue, Older, IdsOf;
    QueueListsAll(dead);
    NoIds();
    assert EvictionQueue(dead)[..0] == [];
  }

  /** Deletes the minimum until the cap is met; what goes, and in which order, is Victims. */
  method TrimByMinimum(dead: map<OutputId, Record>, cap: int)
    returns (kept: map<OutputId, Record>, dropped: seq<Record>)
    ensures kept == Kept(dead, cap)
    ensures |dropped| == |Victims(dead, cap)|
    ensures forall i :: 0 <= i < |dropped| ==>
            Victims(dead, cap)[i].id in dead && dropped[i] == dead[Victims(dead, cap)[i].id]
  {
    hide EvictionQueue, LeftAfter, Older, IdsOf, AgeOf;
    EvictNone(dead);
    ghost var q := EvictionQueue(dead);
    kept, dropped := dead, [];
    while cap >= 0 && |kept| > cap
      invariant |dropped| <= Excess(dead, cap)
      invariant kept == LeftAfter(dead, |dropped|)
      invariant |kept| == |dead| - |dropped|
      invariant forall i :: 0 <= i < |dropped| ==> q[i].id in dead && dropped[i] == dead[q[i].id]
      decreases |kept|
    {
      var oldest := FindOldest(kept);
      EvictOne(dead, |dropped|, oldest);
      assert oldest in dead && dead[oldest] == kept[oldest] by { LeftIsPart(dead, |dropped|, oldest); }
      dropped := dropped + [kept[oldest]];
      kept := kept - {oldest};
    }
    assert kept == Kept(dead, cap) by { LeftIsKept(dead, cap); }
  }

  lemma LeftIsPart(dead: map<OutputId, Record>, n: nat, id: OutputId)
    requires n <= |EvictionQueue(dead)| && id in LeftAfter(dead, n)
    ensures id in dead && dead[id] == LeftAfter(dead, n)[id]
  {
    hide EvictionQueue, IdsOf;
  }

  lemma LeftIsKept(dead: map<OutputId, Record>, cap: int)
    requires Excess(dead, cap) <= |EvictionQueue(dead)|
    ensures Kept(dead, cap) == LeftAfter(dead, Excess(dead, cap))
  {
    hide EvictionQueue, IdsOf;
  }

  // ---------- the loops of the transaction methods ----------

  /** No verdict that reaches a record is unrecognised. */
  predicate Understood(b: Boxes, results: seq<Result>)
  {
    results == [] ||
    var n := |results| - 1;
    && Understood(b, results[..n])
    && (results[n].disposition == Unrecognised ==> results[n].outputId !in ResolvedAll(b, results[..n]).boxes.records)
  }

  lemma {:induction false} NotUnderstood(b: Boxes, results: seq<Result>, n: nat)
    requires n <= |results| && !Understood(b, results[..n])
    ensures !Understood(b, results)
    decreases |results| - n
  {
    if n == |results| {
      assert results[..n] == results;
    } else {
      assert results[..n + 1][..n] == results[..n];
      NotUnderstood(b, results, n + 1);
    }
  }

  /** Verdicts applied one by one; an unknown verdict for a live record fails the transaction. */
  method ResolveEach(b: Boxes, results: seq<Result>) returns (ok: bool, p: Progress)
    ensures ok <==> Understood(b, results)
    ensures ok ==> p == ResolvedAll(b, results)
  {
    hide Buried, Postponed, RefsAt;
    p := Progress(b, [], []);
    assert results[..0] == [];
    for i := 0 to |results|
      invariant p == ResolvedAll(b, results[..i]) && Understood(b, results[..i])
    {
      var res := results[i];
      assert results[..i + 1][..i] == results[..i] && results[..i + 1][i] == res;
      if res.outputId in p.boxes.records && res.disposition == Unrecognised {
        NotUnderstood(b, results, i + 1);
        return false, p;
      }
      p := Resolved(p, res);
    }
    assert results[..|results|] == results;
    ok := true;
  }

  /** The IDs of one page and the next cursor. */
  method ListPage(dead: map<OutputId, Record>, f: Filter, cursor: OutputId) returns (ids: seq<OutputId>, next: OutputId)
    ensures ids == PageOf(InIdOrder(Beyond(Matching(dead, f), cursor)), f.limit)
    ensures next == NextCursor(InIdOrder(Beyond(Matching(dead, f), cursor)), f.limit)
    ensures forall id :: id in ids ==> id in dead
  {
    hide InIdOrder, Less;
    var beyond := set id | id in dead && Less(cursor, id);
    var all := ScanMatching(dead, f, beyond);
    assert Matching(dead, f) * beyond == Beyond(Matching(dead, f), cursor);
    var sorted := SortIds(all, Beyond(Matching(dead, f), cursor));
    InIdOrderIs(Beyond(Matching(dead, f), cursor));
    ids, next := PageOf(sorted, f.limit), NextCursor(sorted, f.limit);
    assert forall id :: id in ids ==> id in sorted;
  }

  method ListReplay(dead: map<OutputId, Record>, f: Filter) returns (ids: seq<OutputId>)
    ensures ids == ReplayIds(dead, f)
    ensures forall id :: id in ids ==> id in dead
  {
    hide InIdOrder;
    var all := ScanMatching(dead, f, dead.Keys);
    assert Matching(dead, f) * dead.Keys == Matching(dead, f);
    var sorted := SortIds(all, Matching(dead, f));
    InIdOrderIs(Matching(dead, f));
    ids := PageOf(sorted, f.limit);
    assert forall id :: id in ids ==> id in sorted;
  }

  /** The store object; a transaction works on a copy and is published whole. */
  class Store {
    var flows: Flows
    var records: map<OutputId, Record>
    var dead: map<OutputId, Record>
    var dropped: nat
    const maxDlq: int

    constructor (maxDlq: int)
      ensures flows == map[] && Contents() == Boxes(map[], map[], 0) && this.maxDlq == maxDlq
    {
      flows, records, dead, dropped := map[], map[], map[], 0;
      this.maxDlq := maxDlq;
    }

    function Contents(): Boxes
      reads this
    {
      Boxes(records, dead, dropped)
    }

    method DueFlows(before: Time, limit: int) returns (due: seq<FlowKey>)
      ensures Answers(flows, before, limit, due)
    {
      var found := ScanDue(flows, before);
      SortedCandidatesAnswer(flows, before, limit, found, DeadlineLess);
      due := MapSeq(KeyOf, Limited(Sort(DeadlineLess, found), limit));
    }

    method PendingOutbox(now: Time, limit: int) returns (batch: seq<Record>)
      ensures Pending(records, now, limit, batch)
    {
      batch := ListPending(records, now, limit);
    }

    method ResolveOutbox(results: seq<Result>) returns (ok: bool, change: Change)
      modifies this`records, this`dead, this`dropped
      ensures ok <==> Understood(old(Contents()), results)
      ensures ok ==> (Contents(), change) == Resolution(old(Contents()), results, maxDlq)
    {
      hide ResolvedAll, Victims, Kept, VictimRefs, Understood;
      var p;
      ok, p := ResolveEach(Contents(), results);
      change := NO_CHANGE;
      if !ok {
        return;
      }
      records, dead, dropped := p.boxes.records, p.boxes.dead, p.boxes.dropped;
      if p.added == [] {
        return;
      }
      var kept, evicted := TrimByMinimum(dead, maxDlq);
      VictimsAreDead(dead, maxDlq);
      var refs := MapSeq(RefOf, evicted);
      assert refs == VictimRefs(dead, Victims(dead, maxDlq)) by { RefsOfVictims(dead, maxDlq, evicted); }
      dead, dropped := kept, dropped + |evicted|;
      change := Change(|dead|, |evicted|, true, p.added, p.removed + refs);
    }

    method ListDeadLetters(f: Filter, cursor: OutputId) returns (page: seq<Metadata>, next: OutputId)
      ensures
        var ids := InIdOrder(Beyond(Matching(dead, f), cursor));
        && (forall id :: id in PageOf(ids, f.limit) ==> id in dead)
        && page == AllMetadata(dead, PageOf(ids, f.limit))
        && next == NextCursor(ids, f.limit)
    {
      var ids;
      ids, next := ListPage(dead, f, cursor);
      page := AllMetadata(dead, ids);
    }

    method ReplayDeadLetters(f: Filter, now: Time) returns (moved: seq<Metadata>, change: Change)
      modifies this`records, this`dead
      ensures
        var ids := ReplayIds(old(dead), f);
        && (forall id :: id in ids ==> id in old(dead))
        && moved == AllMetadata(old(dead), ids)
        && Contents() == Replayed(old(Contents()), ids, now).boxes
        && change == ReplayChange(Replayed(old(Contents()), ids, now))
    {
      hide ReplayIds, Replayed, AllMetadata;
      var ids := ListReplay(dead, f);
      moved := AllMetadata(dead, ids);
      var removed := MoveBack(ids, now);
      change := if removed == [] then NO_CHANGE else Change(|dead|, 0, true, [], removed);
    }

    method MoveBack(ids: seq<OutputId>, now: Time) returns (removed: seq<Ref>)
      modifies this`records, this`dead
      ensures Progress(Contents(), [], removed) == Replayed(old(Contents()), ids, now)
    {
      removed := [];
      for i := 0 to |ids|
        invariant Progress(Contents(), [], removed) == Replayed(old(Contents()), ids[..i], now)
      {
        assert ids[..i + 1][..i] == ids[..i] && ids[..i + 1][i] == ids[i];
        if ids[i] in dead {
          var r := dead[ids[i]];
          removed := removed + [RefOf(r)];
          records := records[ids[i] := Revived(r, now)];
          dead := dead - {ids[i]};
        }
      }
      assert ids[..|ids|] == ids;
    }
  }

  lemma RefsOfVictims(dead: map<OutputId, Record>, cap: int, evicted: seq<Record>)
    requires |evicted| == |Victims(dead, cap)|
    requires forall v :: v in Victims(dead, cap) ==> v.id in dead
    requires forall i :: 0 <= i < |evicted| ==>
            Victims(dead, cap)[i].id in dead && evicted[i] == dead[Victims(dead, cap)[i].id]
    ensures MapSeq(RefOf, evicted) == VictimRefs(dead, Victims(dead, cap))
  {
    hide Victims, RefOf;
  }
}
