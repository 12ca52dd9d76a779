/** Selecting dead letters: paging by cursor, replay back to the outbox, and the dry run. */
module DeadLetterPaging {
  import opened ByteText
  import opened Rules
  import opened Ordering
  import opened Outbox
  import opened DeadLetters

  /** Zero values do not constrain the selection. */
  datatype Filter = Filter(outputId: OutputId, reasonType: Text, index: Text, olderThan: Time, limit: int)

  predicate Matches(f: Filter, r: Record)
  {
    && (f.outputId == "" || r.outputId == f.outputId)
    && (f.reasonType == "" || r.rejectionType == f.reasonType)
    && (f.index == "" || r.index == f.index)
    && (f.olderThan == ZERO_TIME || r.deadLetteredAt < f.olderThan)
  }

  /** The payload-free view of a record. */
  datatype Metadata = Metadata(
    outputId: OutputId, index: Text, rejectionType: Text, byteSize: nat, createdAt: Time,
    deadLetteredAt: Time, attempts: nat, replayCount: nat)

  function MetadataOf(r: Record): Metadata
  {
    Metadata(r.outputId, r.index, r.rejectionType, r.document.size, r.createdAt, r.deadLetteredAt, r.attempts,
        r.replayCount)
  }

  function AllMetadata(dead: map<OutputId, Record>, ids: seq<OutputId>): seq<Metadata>
    requires forall id :: id in ids ==> id in dead
  {
    seq(|ids|, i requires 0 <= i < |ids| => MetadataOf(dead[ids[i]]))
  }

  // ---------- selection ----------

  function Matching(dead: map<OutputId, Record>, f: Filter): set<OutputId>
  {
    set id | id in dead && Matches(f, dead[id])
  }

  function Beyond(ids: set<OutputId>, cursor: OutputId): set<OutputId>
  {
    set id | id in ids && Less(cursor, id)
  }

  ghost function InIdOrder(ids: set<OutputId>): seq<OutputId>
  {
    SortedSet(Less, ids)
  }

  lemma LessIsOrder()
    ensures Sortable(Less) && Decisive(Less)
  {
    forall a: Text, b: Text ensures Less(a, b) || a == b || Less(b, a) {
      LessTotal(a, b);
    }
    forall a: Text, b: Text | Less(a, b) ensures !Less(b, a) {
      if Less(b, a) {
        LessTransitive(a, b, a);
        LessIrreflexive(a);
      }
    }
    forall a: Text, b: Text, c: Text | !Less(b, a) && !Less(c, b) ensures !Less(c, a) {
      LessTotal(a, b);
      LessTotal(b, c);
      if Less(c, a) {
        if a != b && b != c {
          LessTransitive(a, b, c);
        }
        LessIrreflexive(a);
        if a != c {
          LessTransitive(a, c, a);
        }
        assert false;
      }
    }
  }

  /** A set in the order a map iteration happens to give. */
  method ListSet(s: set<Text>) returns (l: seq<Text>)
    ensures multiset(l) == multiset(s)
  {
    l := [];
    var todo := s;
    while todo != {}
      invariant todo <= s && multiset(l) == multiset(s - todo)
      decreases todo
    {
      var x :| x in todo;
      assert s - (todo - {x}) == (s - todo) + {x};
      l, todo := l + [x], todo - {x};
    }
    assert s - todo == s;
  }

  /** sort.Slice by ID; with no ties the result is the one ascending listing. */
  method SortIds(l: seq<Text>, ghost s: set<Text>) returns (sorted: seq<Text>)
    requires multiset(l) == multiset(s)
    ensures sorted == InIdOrder(s)
  {
    hide Sort, SortedSet, Less;
    LessIsOrder();
    sorted := Sort(Less, l);
    SortPermutes(Less, l);
    SortOrders(Less, l);
    OrderedListing(Less, s, sorted);
  }

  /** A page and the cursor of the next one; the empty cursor means there is none. */
  function PageOf(ids: seq<OutputId>, limit: int): seq<OutputId>
  {
    if limit > 0 && |ids| > limit then ids[..limit] else ids
  }

  function NextCursor(ids: seq<OutputId>, limit: int): OutputId
  {
    if limit > 0 && |ids| > limit then ids[limit - 1] else ""
  }

  lemma InIdOrderIs(ids: set<OutputId>)
    ensures Ordered(Less, InIdOrder(ids)) && |InIdOrder(ids)| == |ids|
    ensures multiset(InIdOrder(ids)) == multiset(ids)
    ensures forall i, j :: 0 <= i < j < |InIdOrder(ids)| ==> InIdOrder(ids)[i] != InIdOrder(ids)[j]
    ensures forall id :: id in InIdOrder(ids) <==> id in ids
  {
    hide SortedSet, Less;
    LessIsOrder();
    SortedSetOrders(Less, ids);
    ListingIsDistinct(ids, InIdOrder(ids));
  }

  lemma StrictlyAscending(ids: set<OutputId>, i: nat, j: nat)
    requires i < j < |InIdOrder(ids)|
    ensures Less(InIdOrder(ids)[i], InIdOrder(ids)[j]) && !Less(InIdOrder(ids)[j], InIdOrder(ids)[i])
  {
    hide InIdOrder, Less;
    InIdOrderIs(ids);
    LessIsOrder();
  }

  /** What lies beyond the last ID of a page is the rest of the listing. */
  lemma RestBeyondPage(ids: set<OutputId>, n: nat)
    requires 0 < n <= |InIdOrder(ids)|
    ensures InIdOrder(Beyond(ids, InIdOrder(ids)[n - 1])) == InIdOrder(ids)[n..]
  {
    hide InIdOrder, Less;
    InIdOrderIs(ids);
    LessIsOrder();
    var all := InIdOrder(ids);
    var rest, cursor := all[n..], all[n - 1];
    forall id ensures id in rest <==> id in Beyond(ids, cursor) {
      if id in rest {
        var j :| n <= j < |all| && all[j] == id;
        StrictlyAscending(ids, n - 1, j);
      }
      if id in Beyond(ids, cursor) {
        var j :| 0 <= j < |all| && all[j] == id;
        LessIrreflexive(cursor);
        assert j >= n;
        assert rest[j - n] == id;
      }
    }
    DistinctListing(rest, Beyond(ids, cursor));
    assert Ordered(Less, rest);
    OrderedListing(Less, Beyond(ids, cursor), rest);
    assert InIdOrder(Beyond(ids, cursor)) == rest by { InIdOrderDef(Beyond(ids, cursor)); }
  }

  lemma InIdOrderDef(ids: set<OutputId>)
    ensures InIdOrder(ids) == SortedSet(Less, ids)
  {
  }

  /** A listing without repeats counts every member once. */
  lemma {:induction false} DistinctListing<T(!new)>(l: seq<T>, s: set<T>)
    requires forall i, j :: 0 <= i < j < |l| ==> l[i] != l[j]
    requires forall x :: x in l <==> x in s
    ensures multiset(l) == multiset(s)
    decreases |l|
  {
    if l == [] {
      assert s == {};
    } else {
      var n := |l| - 1;
      var x := l[n];
      assert l == l[..n] + [x];
      assert forall y :: y in l[..n] <==> y in s - {x} by {
        forall y ensures y in l[..n] <==> y in s - {x} {
          assert y in l <==> y in l[..n] || y == x;
        }
      }
      DistinctListing(l[..n], s - {x});
      assert multiset(s) == multiset(s - {x}) + multiset{x};
    }
  }

  lemma BeyondBeyond(ids: set<OutputId>, a: OutputId, b: OutputId)
    requires Less(a, b)
    ensures Beyond(Beyond(ids, a), b) == Beyond(ids, b)
  {
    hide Less;
    forall id | id in ids && Less(b, id) ensures Less(a, id) {
      LessTransitive(a, b, id);
    }
  }

  // ---------- paging ----------

  /** Follows cursors from `cursor` until a page names no next one. */
  ghost function FollowPages(ids: set<OutputId>, cursor: OutputId, limit: int): seq<OutputId>
    decreases |Beyond(ids, cursor)|
  {
    var listing := InIdOrder(Beyond(ids, cursor));
    var next := NextCursor(listing, limit);
    if next == "" then PageOf(listing, limit)
    else
      CursorAdvances(ids, cursor, limit);
      PageOf(listing, limit) + FollowPages(ids, next, limit)
  }

  lemma CursorAdvances(ids: set<OutputId>, cursor: OutputId, limit: int)
    requires NextCursor(InIdOrder(Beyond(ids, cursor)), limit) != ""
    ensures
      var next := NextCursor(InIdOrder(Beyond(ids, cursor)), limit);
      && Less(cursor, next)
      && |Beyond(ids, next)| < |Beyond(ids, cursor)|
      && InIdOrder(Beyond(ids, next)) == InIdOrder(Beyond(ids, cursor))[limit..]
  {
    hide InIdOrder, Less;
    var here := Beyond(ids, cursor);
    var listing := InIdOrder(here);
    InIdOrderIs(here);
    var next := listing[limit - 1];
    assert next in here;
    RestBeyondPage(here, limit);
    BeyondBeyond(ids, cursor, next);
    InIdOrderIs(Beyond(ids, next));
  }

  /** The pages, concatenated, are the whole selection in ID order, each record once. */
  lemma {:induction false} PagesAreComplete(ids: set<OutputId>, cursor: OutputId, limit: int)
    ensures FollowPages(ids, cursor, limit) == InIdOrder(Beyond(ids, cursor))
    decreases |Beyond(ids, cursor)|
  {
    hide InIdOrder, Beyond;
    var listing := InIdOrder(Beyond(ids, cursor));
    var next := NextCursor(listing, limit);
    if next != "" {
      CursorAdvances(ids, cursor, limit);
      PagesAreComplete(ids, next, limit);
      assert listing == listing[..limit] + listing[limit..];
    } else {
      NoEmptyCursor(ids, cursor, limit);
    }
  }

  lemma NoEmptyCursor(ids: set<OutputId>, cursor: OutputId, limit: int)
    requires NextCursor(InIdOrder(Beyond(ids, cursor)), limit) == ""
    ensures PageOf(InIdOrder(Beyond(ids, cursor)), limit) == InIdOrder(Beyond(ids, cursor))
  {
    hide InIdOrder;
    var listing := InIdOrder(Beyond(ids, cursor));
    InIdOrderIs(Beyond(ids, cursor));
    assert forall i :: 0 <= i < |listing| ==> listing[i] in Beyond(ids, cursor);
    assert forall id :: id in Beyond(ids, cursor) ==> id != "";
  }

  /** A page is full, or holds all that is left; without a limit it holds everything. */
  lemma PageSize(ids: seq<OutputId>, limit: int)
    ensures |PageOf(ids, limit)| == if 0 < limit < |ids| then limit else |ids|
    ensures PageOf(ids, limit) == ids[..|PageOf(ids, limit)|]
  {
  }

  // ---------- replay ----------

  ghost function ReplayIds(dead: map<OutputId, Record>, f: Filter): seq<OutputId>
  {
    PageOf(InIdOrder(Matching(dead, f)), f.limit)
  }

  /** The dry run lists the first page after the empty cursor. */
  ghost function PreviewIds(dead: map<OutputId, Record>, f: Filter): seq<OutputId>
  {
    PageOf(InIdOrder(Beyond(Matching(dead, f), "")), f.limit)
  }

  lemma EmptyIsFirst(ids: set<OutputId>, i: nat)
    requires i < |InIdOrder(ids)| && InIdOrder(ids)[i] == ""
    ensures i == 0
  {
    hide InIdOrder;
    if i > 0 {
      StrictlyAscending(ids, 0, i);
    }
  }

  /** A dry run previews exactly what a replay would move, unless a record with the empty ID matches. */
  lemma PreviewIsReplay(dead: map<OutputId, Record>, f: Filter)
    ensures PreviewIds(dead, f) == ReplayIds(dead, f) <==> "" !in Matching(dead, f)
  {
    hide InIdOrder, Matching;
    var all := Matching(dead, f);
    var shown := Beyond(all, "");
    InIdOrderIs(all);
    InIdOrderIs(shown);
    if "" !in all {
      assert shown == all;
    } else {
      var listing := InIdOrder(all);
      assert "" in listing;
      var i :| 0 <= i < |listing| && listing[i] == "";
      EmptyIsFirst(all, i);
      assert ReplayIds(dead, f)[0] == "";
      assert "" in ReplayIds(dead, f);
      assert "" !in InIdOrder(shown);
      assert forall id :: id in PreviewIds(dead, f) ==> id in InIdOrder(shown);
    }
  }

  function Revived(r: Record, now: Time): Record
  {
    r.(attempts := 0, lastError := "", rejectionType := "", deadLetteredAt := ZERO_TIME, nextAttemptAt := now,
       replayCount := r.replayCount + 1)
  }

  /** Moves the listed dead letters back to the outbox, in order. */
  function Replayed(b: Boxes, ids: seq<OutputId>, now: Time): Progress
  {
    if ids == [] then Progress(b, [], [])
    else
      var p, id := Replayed(b, ids[..|ids| - 1], now), ids[|ids| - 1];
      if id !in p.boxes.dead then p
      else
        var r := p.boxes.dead[id];
        p.(boxes := p.boxes.(records := p.boxes.records[id := Revived(r, now)], dead := p.boxes.dead - {id}),
           removed := p.removed + [RefOf(r)])
  }

  function AllRevived(dead: map<OutputId, Record>, ids: seq<OutputId>, now: Time): map<OutputId, Record>
  {
    map id | id in ids && id in dead :: Revived(dead[id], now)
  }

  /** Replay moves exactly the listed dead letters, each as it lay. */
  lemma {:induction false} ReplayMoves(b: Boxes, ids: seq<OutputId>, now: Time)
    ensures
      var after := Replayed(b, ids, now).boxes;
      && after.dead == b.dead - (set id | id in ids)
      && after.records == b.records + AllRevived(b.dead, ids, now)
    decreases |ids|
  {
    hide Revived, RefOf;
    if ids != [] {
      var n := |ids| - 1;
      ReplayMoves(b, ids[..n], now);
      var p, id := Replayed(b, ids[..n], now), ids[n];
      assert forall x :: x in ids <==> x in ids[..n] || x == id;
      if id !in p.boxes.dead {
        assert AllRevived(b.dead, ids, now) == AllRevived(b.dead, ids[..n], now);
      } else {
        assert AllRevived(b.dead, ids, now) == AllRevived(b.dead, ids[..n], now)[id := Revived(b.dead[id], now)];
      }
    }
  }

  /** What a replay without a limit leaves: exactly the records that some named dimension of the filter rules out,
      a cut-off ruling out what was dead-lettered at or after it. */
  lemma ReplayTakesExactly(b: Boxes, f: Filter, now: Time, id: OutputId)
    requires f.limit <= 0 && id in b.dead && b.dead[id].outputId == id
    ensures
      var r, after := b.dead[id], Replayed(b, ReplayIds(b.dead, f), now).boxes;
      id in after.dead <==>
        || (f.outputId != "" && id != f.outputId)
        || (f.reasonType != "" && r.rejectionType != f.reasonType)
        || (f.index != "" && r.index != f.index)
        || (f.olderThan != ZERO_TIME && f.olderThan <= r.deadLetteredAt)
  {
    hide InIdOrder, Replayed, Revived;
    ReplayMoves(b, ReplayIds(b.dead, f), now);
    InIdOrderIs(Matching(b.dead, f));
  }

  /** A replayed record is ready at once and starts over, but says, goes and dates as before. */
  lemma ReplayedStartsOver(b: Boxes, f: Filter, now: Time, id: OutputId)
    requires id in ReplayIds(b.dead, f)
    ensures
      var after := Replayed(b, ReplayIds(b.dead, f), now).boxes;
      && id in b.dead && id !in after.dead && id in after.records
      && var old', new' := b.dead[id], after.records[id];
      && new'.outputId == old'.outputId && new'.index == old'.index && new'.document == old'.document
      && new'.createdAt == old'.createdAt && new'.replayCount == old'.replayCount + 1
      && new'.attempts == 0 && new'.lastError == "" && new'.rejectionType == "" && new'.deadLetteredAt == ZERO_TIME
      && new'.nextAttemptAt == now && (forall at :: now <= at ==> Ready(new', at))
  {
    hide InIdOrder, Replayed;
    ReplayMoves(b, ReplayIds(b.dead, f), now);
    InIdOrderIs(Matching(b.dead, f));
    var all := InIdOrder(Matching(b.dead, f));
    assert id in all;
  }

  /** The listing shows each record of the page under its own fields. */
  lemma MetadataShows(dead: map<OutputId, Record>, ids: seq<OutputId>, k: nat)
    requires k < |ids| && forall id :: id in ids ==> id in dead
    ensures
      var shown, r := AllMetadata(dead, ids)[k], dead[ids[k]];
      && shown.outputId == r.outputId && shown.index == r.index && shown.rejectionType == r.rejectionType
      && shown.byteSize == r.document.size && shown.createdAt == r.createdAt
      && shown.deadLetteredAt == r.deadLetteredAt && shown.attempts == r.attempts && shown.replayCount == r.replayCount
  {
  }

  function ReplayChange(p: Progress): Change
  {
    if p.removed == [] then NO_CHANGE else Change(|p.boxes.dead|, 0, true, [], p.removed)
  }

  /** What replay reports is what it removed; the drop total does not move. */
  lemma {:induction false} ReplayBalances(b: Boxes, ids: seq<OutputId>, now: Time)
    ensures
      var p := Replayed(b, ids, now);
      && RefsIn(p.boxes.dead) + multiset(p.removed) == RefsIn(b.dead)
      && p.added == [] && p.boxes.dropped == b.dropped
      && (p.removed == [] ==> p.boxes.dead == b.dead)
    decreases |ids|
  {
    hide RefsIn, RefOf, Revived;
    if ids != [] {
      var n := |ids| - 1;
      ReplayBalances(b, ids[..n], now);
      var p, id := Replayed(b, ids[..n], now), ids[n];
      if id in p.boxes.dead {
        RefsDrop(p.boxes.dead, id);
        var q := Replayed(b, ids, now);
        assert multiset(q.removed) == multiset(p.removed) + multiset{RefOf(p.boxes.dead[id])};
        assert RefsIn(q.boxes.dead) + multiset(q.removed) == RefsIn(p.boxes.dead) + multiset(p.removed);
      }
    }
  }
}
