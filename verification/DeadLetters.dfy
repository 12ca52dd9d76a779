/** Retention, resolution, replay and paging of dead letters, as both stores must do them. */
module DeadLetters {
  import opened ByteText
  import opened Ordering
  import opened Outbox
  import opened Sums

  // ---------- retention ----------

  /** All retained records, oldest first. */
  ghost function EvictionQueue(dead: map<OutputId, Record>): seq<Age>
  {
    SortedSet(Older, AgesOf(dead))
  }

  /** How many records are over the cap; a negative cap means none. */
  function Excess(dead: map<OutputId, Record>, cap: int): nat
  {
    if cap >= 0 && |dead| > cap then |dead| - cap else 0
  }

  lemma {:induction false} AgesAreMany(dead: map<OutputId, Record>)
    ensures |AgesOf(dead)| == |dead|
    decreases |dead|
  {
    if dead != map[] {
      var id :| id in dead;
      var rest := dead - {id};
      AgesAreMany(rest);
      assert AgesOf(dead) == AgesOf(rest) + {AgeOf(dead, id)} by {
        assert forall x :: x in rest ==> AgeOf(rest, x) == AgeOf(dead, x);
        assert forall x :: x in dead ==> x == id || x in rest;
      }
      assert AgeOf(dead, id) !in AgesOf(rest);
    } else {
      assert AgesOf(dead) == {};
    }
  }

  lemma QueueListsAll(dead: map<OutputId, Record>)
    ensures Ordered(Older, EvictionQueue(dead))
    ensures multiset(EvictionQueue(dead)) == multiset(AgesOf(dead))
    ensures |EvictionQueue(dead)| == |dead|
    ensures forall i, j :: 0 <= i < j < |EvictionQueue(dead)| ==> EvictionQueue(dead)[i] != EvictionQueue(dead)[j]
    ensures forall a :: a in EvictionQueue(dead) <==> a.id in dead && a == AgeOf(dead, a.id)
  {
    hide Older, SortedSet;
    OlderIsOrder();
    SortedSetOrders(Older, AgesOf(dead));
    AgesAreMany(dead);
    ListingIsDistinct(AgesOf(dead), EvictionQueue(dead));
  }

  /** The records evicted to meet the cap, in order of eviction. */
  ghost function Victims(dead: map<OutputId, Record>, cap: int): (victims: seq<Age>)
    ensures |victims| == Excess(dead, cap)
  {
    QueueListsAll(dead);
    EvictionQueue(dead)[..Excess(dead, cap)]
  }

  function IdsOf(ages: seq<Age>): set<OutputId>
  {
    set a | a in ages :: a.id
  }

  ghost function Kept(dead: map<OutputId, Record>, cap: int): map<OutputId, Record>
  {
    dead - IdsOf(Victims(dead, cap))
  }

  /** A queued record is among the first n exactly when its position is. */
  lemma QueueSplits(dead: map<OutputId, Record>, n: nat, j: nat)
    requires n <= |EvictionQueue(dead)| && j < |EvictionQueue(dead)|
    ensures EvictionQueue(dead)[j].id in IdsOf(EvictionQueue(dead)[..n]) <==> j < n
  {
    hide Older, EvictionQueue, AgesOf;
    QueueListsAll(dead);
    var q := EvictionQueue(dead);
    if j < n {
      assert q[..n][j] == q[j];
    } else {
      forall a | a in q[..n] ensures a.id != q[j].id {
        var i :| 0 <= i < n && q[i] == a;
        assert a in q && q[j] in q;
      }
    }
  }

  /** The cap is met, nothing is evicted needlessly, and every evicted record is older than every kept one. */
  lemma RetentionKeepsNewest(dead: map<OutputId, Record>, cap: int)
    ensures cap >= 0 ==> |Kept(dead, cap)| <= cap
    ensures |Kept(dead, cap)| == if 0 <= cap < |dead| then cap else |dead|
    ensures forall v, id :: v in Victims(dead, cap) && id in Kept(dead, cap) ==> Older(v, AgeOf(dead, id))
  {
    hide Older, EvictionQueue, AgesOf, IdsOf;
    QueueListsAll(dead);
    OlderIsOrder();
    var q, n := EvictionQueue(dead), Excess(dead, cap);
    forall v, id | v in Victims(dead, cap) && id in Kept(dead, cap) ensures Older(v, AgeOf(dead, id)) {
      var i :| 0 <= i < n && q[i] == v;
      var age := AgeOf(dead, id);
      assert age in q;
      var j :| 0 <= j < |q| && q[j] == age;
      QueueSplits(dead, n, j);
      assert !Older(q[j], q[i]) && q[i] != q[j];
    }
    PrefixRemoves(dead, n);
  }

  /** In plain terms: an evicted record was created before every kept one, or with it and has the lesser ID. */
  lemma EvictedIsOlder(dead: map<OutputId, Record>, cap: int, gone: OutputId, kept: OutputId)
    requires gone in dead && gone !in Kept(dead, cap) && kept in Kept(dead, cap)
    ensures
      || dead[gone].createdAt < dead[kept].createdAt
      || (dead[gone].createdAt == dead[kept].createdAt && Less(gone, kept))
  {
    hide Less, EvictionQueue, Victims;
    RetentionKeepsNewest(dead, cap);
    VictimsAreDead(dead, cap);
    var v :| v in Victims(dead, cap) && v.id == gone;
    assert Older(v, AgeOf(dead, kept));
  }

  lemma {:induction false} PrefixRemoves(dead: map<OutputId, Record>, n: nat)
    requires n <= |EvictionQueue(dead)|
    ensures |dead - IdsOf(EvictionQueue(dead)[..n])| == |dead| - n
    decreases n
  {
    hide Older, EvictionQueue, AgesOf, IdsOf, Ordered;
    QueueListsAll(dead);
    var q := EvictionQueue(dead);
    if n == 0 {
      assert IdsOf(q[..0]) == {} by { NoIds(); }
      assert dead - IdsOf(q[..0]) == dead;
    } else {
      PrefixRemoves(dead, n - 1);
      QueueSplits(dead, n - 1, n - 1);
      var last := q[n - 1];
      assert q[..n] == q[..n - 1] + [last];
      IdsSnoc(q[..n - 1], last);
      assert last in q;
      DropOne(dead - IdsOf(q[..n - 1]), last.id);
      assert dead - IdsOf(q[..n]) == dead - IdsOf(q[..n - 1]) - {last.id};
    }
  }

  lemma NoIds()
    ensures IdsOf([]) == {}
  {
  }

  lemma IdsSnoc(ages: seq<Age>, a: Age)
    ensures IdsOf(ages + [a]) == IdsOf(ages) + {a.id}
  {
    var all := ages + [a];
    assert forall x :: x in all <==> x in ages || x == a;
  }

  lemma DropOne(m: map<OutputId, Record>, id: OutputId)
    requires id in m
    ensures |m - {id}| == |m| - 1
  {
    assert (m - {id}).Keys == m.Keys - {id};
    assert |m.Keys - {id}| == |m.Keys| - 1;
  }

  /** Deleting the oldest remaining record n times removes the first n of the queue: what is oldest
      after n removals is the next in line. */
  lemma OldestIsNext(dead: map<OutputId, Record>, n: nat, id: OutputId)
    requires n < |EvictionQueue(dead)|
    requires id in dead - IdsOf(EvictionQueue(dead)[..n])
    requires forall x :: x in dead - IdsOf(EvictionQueue(dead)[..n]) ==>
            x == id || Older(AgeOf(dead, id), AgeOf(dead, x))
    ensures EvictionQueue(dead)[n] == AgeOf(dead, id)
  {
    hide Older, EvictionQueue, AgesOf, IdsOf;
    QueueListsAll(dead);
    OlderIsOrder();
    var q := EvictionQueue(dead);
    assert q[n] in q && AgeOf(dead, id) in q;
    var j :| 0 <= j < |q| && q[j] == AgeOf(dead, id);
    QueueSplits(dead, n, j);
    QueueSplits(dead, n, n);
    assert Ordered(Older, q);
  }

  /** Sorting any listing of the records and dropping a prefix evicts the same records in the same order. */
  lemma SortedPrefixIsVictims(dead: map<OutputId, Record>, listing: seq<Age>, cap: int)
    requires multiset(listing) == multiset(AgesOf(dead))
    ensures |Sort(Older, listing)| == |dead|
    ensures Sort(Older, listing)[..Excess(dead, cap)] == Victims(dead, cap)
  {
    hide Older, Sort, SortedSet;
    OlderIsOrder();
    SortOrders(Older, listing);
    SortPermutes(Older, listing);
    OrderedListing(Older, AgesOf(dead), Sort(Older, listing));
    QueueListsAll(dead);
  }

  // ---------- resolving a batch of verdicts ----------

  function VictimRefs(dead: map<OutputId, Record>, victims: seq<Age>): seq<Ref>
    requires forall v :: v in victims ==> v.id in dead
  {
    seq(|victims|, i requires 0 <= i < |victims| => RefOf(dead[victims[i].id]))
  }

  lemma VictimsAreDead(dead: map<OutputId, Record>, cap: int)
    ensures forall v :: v in Victims(dead, cap) ==> v.id in dead && v == AgeOf(dead, v.id)
  {
    hide EvictionQueue, Older, AgesOf;
    QueueListsAll(dead);
    assert forall v :: v in Victims(dead, cap) ==> v in EvictionQueue(dead);
  }

  /** ResolveOutbox: verdicts in order, then retention when anything was buried. */
  ghost function Resolution(b: Boxes, results: seq<Result>, cap: int): (Boxes, Change)
  {
    var p := ResolvedAll(b, results);
    if p.added == [] then (p.boxes, NO_CHANGE)
    else
      var dead := p.boxes.dead;
      var victims := Victims(dead, cap);
      VictimsAreDead(dead, cap);
      (p.boxes.(dead := Kept(dead, cap), dropped := p.boxes.dropped + |victims|),
       Change(|Kept(dead, cap)|, |victims|, true, p.added, p.removed + VictimRefs(dead, victims)))
  }

  ghost function RefMap(dead: map<OutputId, Record>): map<OutputId, multiset<Ref>>
  {
    map id | id in dead :: multiset{RefOf(dead[id])}
  }

  /** The references of all retained rejections. */
  ghost function RefsIn(dead: map<OutputId, Record>): multiset<Ref>
  {
    Sum(RefMap(dead))
  }

  lemma RefMapSet(dead: map<OutputId, Record>, id: OutputId, r: Record)
    ensures RefMap(dead[id := r]) == RefMap(dead)[id := multiset{RefOf(r)}]
  {
    hide RefOf;
  }

  lemma RefMapDrop(dead: map<OutputId, Record>, id: OutputId)
    ensures RefMap(dead - {id}) == RefMap(dead) - {id}
  {
    hide RefOf;
  }

  lemma RefsSet(dead: map<OutputId, Record>, id: OutputId, r: Record)
    ensures RefsIn(dead[id := r]) + multiset(RefsAt(dead, id)) == RefsIn(dead) + multiset{RefOf(r)}
  {
    hide RefOf, Sum;
    RefMapSet(dead, id, r);
    SumSwap(RefMap(dead), id, multiset{RefOf(r)});
    assert multiset(RefsAt(dead, id)) == if id in RefMap(dead) then RefMap(dead)[id] else multiset{};
  }

  lemma RefsDrop(dead: map<OutputId, Record>, id: OutputId)
    requires id in dead
    ensures RefsIn(dead - {id}) + multiset{RefOf(dead[id])} == RefsIn(dead)
  {
    hide RefOf;
    RefMapDrop(dead, id);
    SumRemove(RefMap(dead), id);
  }

  lemma {:induction false} ResolvedBalances(b: Boxes, results: seq<Result>)
    ensures
      var p := ResolvedAll(b, results);
      RefsIn(p.boxes.dead) + multiset(p.removed) == RefsIn(b.dead) + multiset(p.added)
    ensures ResolvedAll(b, results).added == [] ==> ResolvedAll(b, results).boxes.dead == b.dead
    ensures ResolvedAll(b, results).boxes.dropped == b.dropped
    decreases |results|
  {
    hide RefsIn, Buried, Postponed;
    if results != [] {
      var n := |results| - 1;
      ResolvedBalances(b, results[..n]);
      var p, res := ResolvedAll(b, results[..n]), results[n];
      if res.outputId in p.boxes.records && res.disposition == Permanent {
        BurialBalances(p, res, RefsIn(b.dead));
      }
    }
  }

  lemma BurialBalances(p: Progress, res: Result, before: multiset<Ref>)
    requires res.outputId in p.boxes.records && res.disposition == Permanent
    requires RefsIn(p.boxes.dead) + multiset(p.removed) == before + multiset(p.added)
    ensures
      var q := Resolved(p, res);
      RefsIn(q.boxes.dead) + multiset(q.removed) == before + multiset(q.added)
  {
    hide RefsIn, RefsAt, RefOf, Buried;
    var dead, id := p.boxes.dead, res.outputId;
    var r := Buried(p.boxes.records[id], res);
    RefsSet(dead, id, r);
    var q := Resolved(p, res);
    assert multiset(q.removed) == multiset(p.removed) + multiset(RefsAt(dead, id));
    assert multiset(q.added) == multiset(p.added) + multiset{RefOf(r)};
    var A, X, R := RefsIn(q.boxes.dead), multiset(RefsAt(dead, id)), multiset(p.removed);
    assert A + (R + X) == (A + X) + R;
    assert (RefsIn(dead) + multiset{RefOf(r)}) + R == (RefsIn(dead) + R) + multiset{RefOf(r)};
    assert (before + multiset(p.added)) + multiset{RefOf(r)} == before + multiset(q.added);
  }

  lemma {:induction false} PrefixBalances(dead: map<OutputId, Record>, n: nat)
    requires n <= |EvictionQueue(dead)|
    requires forall v :: v in EvictionQueue(dead)[..n] ==> v.id in dead
    ensures RefsIn(dead - IdsOf(EvictionQueue(dead)[..n])) + multiset(VictimRefs(dead, EvictionQueue(dead)[..n])) ==
            RefsIn(dead)
    decreases n
  {
    hide Older, EvictionQueue, AgesOf, IdsOf, RefsIn, RefOf;
    var q := EvictionQueue(dead);
    if n == 0 {
      NoIds();
      assert dead - IdsOf(q[..0]) == dead && q[..0] == [];
    } else {
      var first, last := q[..n - 1], q[n - 1];
      assert q[..n] == first + [last];
      assert forall v :: v in first ==> v in q[..n];
      assert last in q[..n];
      PrefixBalances(dead, n - 1);
      IdsSnoc(first, last);
      QueueSplits(dead, n - 1, n - 1);
      var rest := dead - IdsOf(first);
      RefsDrop(rest, last.id);
      assert dead - IdsOf(q[..n]) == rest - {last.id};
      assert VictimRefs(dead, q[..n]) == VictimRefs(dead, first) + [RefOf(dead[last.id])];
    }
  }

  /** The change a resolution reports is exactly the difference it made. */
  lemma ResolutionBalances(b: Boxes, results: seq<Result>, cap: int)
    ensures
      var (b', change) := Resolution(b, results, cap);
      && RefsIn(b'.dead) + multiset(change.removed) == RefsIn(b.dead) + multiset(change.added)
      && (change.changed ==> change.records == |b'.dead|)
      && (!change.changed ==> b'.dead == b.dead)
      && b'.dropped == b.dropped + change.dropped
      && (change.changed && cap >= 0 ==> |b'.dead| <= cap)
  {
    hide RefsIn, ResolvedAll, VictimRefs, EvictionQueue, IdsOf, Older;
    ResolvedBalances(b, results);
    var p := ResolvedAll(b, results);
    if p.added != [] {
      var dead := p.boxes.dead;
      VictimsAreDead(dead, cap);
      RetentionKeepsNewest(dead, cap);
      var victims := Victims(dead, cap);
      QueueListsAll(dead);
      PrefixBalances(dead, |victims|);
      var refs := VictimRefs(dead, victims);
      assert multiset(p.removed + refs) == multiset(p.removed) + multiset(refs);
      assert RefsIn(Kept(dead, cap)) + multiset(p.removed + refs) == RefsIn(dead) + multiset(p.removed);
    }
  }
}
