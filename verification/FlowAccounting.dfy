/** What every run of Apply keeps: nothing stored is lost or counted twice, the three duplicate
    tallies agree, timeline positions are unique, and completeness is exact. */
module FlowAccounting {
  import opened ByteText
  import opened Rules
  import opened FlowModel
  import opened Sums

  // ---------- the books ----------

  function Singles(members: map<Text, Event>): map<Text, multiset<Event>>
  {
    map role | role in members :: multiset{members[role]}
  }

  ghost function MemberEvents(members: map<Text, Event>): multiset<Event>
  {
    Sum(Singles(members))
  }

  /** Every event held in a stitch slot. */
  ghost function SlotEvents(invocations: seq<Invocation>): multiset<Event>
  {
    if invocations == [] then multiset{}
    else SlotEvents(invocations[..|invocations| - 1]) + MemberEvents(invocations[|invocations| - 1].members)
  }

  function PlainEvents(plain: seq<PlainEntry>): multiset<Event>
  {
    if plain == [] then multiset{}
    else PlainEvents(plain[..|plain| - 1]) + multiset{plain[|plain| - 1].event}
  }

  function DuplicateSum(invocations: seq<Invocation>): nat
  {
    if invocations == [] then 0
    else DuplicateSum(invocations[..|invocations| - 1]) + invocations[|invocations| - 1].duplicateCount
  }

  function ByteSum(events: seq<Event>): nat
  {
    if events == [] then 0 else ByteSum(events[..|events| - 1]) + events[|events| - 1].doc.size
  }

  /** Stored events are exactly the slot members and the plain entries; tallies and byte total agree. */
  ghost predicate Balanced(f: Flow)
  {
    && multiset(f.events) == SlotEvents(f.invocations) + PlainEvents(f.plain)
    && f.bytes == ByteSum(f.events)
    && f.duplicateCount == DuplicateSum(f.invocations)
    && f.duplicateCount == Total(f.duplicates)
  }

  /** Timeline positions are distinct and below nextOrder; identities are distinct. */
  predicate Positioned(f: Flow)
  {
    && f.nextOrder == |f.invocations| + |f.plain|
    && (forall i :: 0 <= i < |f.invocations| ==> f.invocations[i].order < f.nextOrder)
    && (forall i :: 0 <= i < |f.plain| ==> f.plain[i].order < f.nextOrder)
    && (forall i, j :: 0 <= i < j < |f.invocations| ==> f.invocations[i].order != f.invocations[j].order)
    && (forall i, j :: 0 <= i < j < |f.plain| ==> f.plain[i].order != f.plain[j].order)
    && (forall i, j :: 0 <= i < |f.invocations| && 0 <= j < |f.plain| ==> f.invocations[i].order != f.plain[j].order)
    && (forall i, j :: 0 <= i < j < |f.invocations| ==> f.invocations[i].identity != f.invocations[j].identity)
  }

  /** The invocation is the one of stitch `k` with group `values`: its name, identity and group say
      so, each member belongs to the slot it occupies, and it is complete exactly when every
      required role is filled. */
  predicate Describes(v: Invocation, r: Rule, k: nat, values: seq<Text>)
  {
    && k < |r.stitch| && |values| == |r.stitch[k].groupBy|
    && v.stitchId == r.stitch[k].id
    && v.identity == InvocationKey(r.stitch[k].id, values)
    && v.group == GroupOf(r.stitch[k], values)
    && (v.complete <==> Filled(v.members, RequiredRoles(r.stitch[k])))
    && forall role :: role in v.members ==> Fills(r, v.members[role], k, role, values)
  }

  predicate Fills(r: Rule, e: Event, k: nat, role: Text, values: seq<Text>)
  {
    var slot := SlotOf(r, e.doc.body);
    slot.Some? && slot.value.index == k && slot.value.role == role && slot.value.values == values
  }

  ghost predicate Exact(v: Invocation, r: Rule)
  {
    exists k: nat, values :: Describes(v, r, k, values)
  }

  ghost predicate AllExact(f: Flow, r: Rule)
  {
    forall i :: 0 <= i < |f.invocations| ==> Exact(f.invocations[i], r)
  }

  // ---------- how the sums move ----------

  lemma {:induction false} SumsAt(invocations: seq<Invocation>, i: nat, v: Invocation)
    requires i < |invocations|
    ensures SlotEvents(invocations[i := v]) + MemberEvents(invocations[i].members)
         == SlotEvents(invocations) + MemberEvents(v.members)
    ensures DuplicateSum(invocations[i := v]) + invocations[i].duplicateCount ==
            DuplicateSum(invocations) + v.duplicateCount
  {
    hide MemberEvents;
    var n, updated := |invocations| - 1, invocations[i := v];
    if i == n {
      assert updated[..n] == invocations[..n];
    } else {
      SumsAt(invocations[..n], i, v);
      assert updated[..n] == invocations[..n][i := v];
      var last, old', new' := MemberEvents(invocations[n].members), MemberEvents(invocations[i].members),
          MemberEvents(v.members);
      assert SlotEvents(updated) == SlotEvents(updated[..n]) + last;
      assert SlotEvents(updated) + old' == SlotEvents(updated[..n]) + old' + last;
      assert SlotEvents(invocations) + new' == SlotEvents(invocations[..n]) + new' + last;
    }
  }

  lemma SumsSnoc(invocations: seq<Invocation>, v: Invocation)
    ensures SlotEvents(invocations + [v]) == SlotEvents(invocations) + MemberEvents(v.members)
    ensures DuplicateSum(invocations + [v]) == DuplicateSum(invocations) + v.duplicateCount
  {
    assert (invocations + [v])[..|invocations|] == invocations;
  }

  lemma SinglesSet(members: map<Text, Event>, role: Text, e: Event)
    ensures Singles(members[role := e]) == Singles(members)[role := multiset{e}]
    ensures Singles(members).Keys == members.Keys
  {
  }

  lemma MemberAdded(members: map<Text, Event>, role: Text, e: Event)
    requires role !in members
    ensures MemberEvents(members[role := e]) == MemberEvents(members) + multiset{e}
  {
    hide Sum, Singles;
    SinglesSet(members, role, e);
    SumInsert(Singles(members), role, multiset{e});
  }

  lemma StoreBalances(f: Flow, e: Event, r: Rule)
    ensures ByteSum(StoreEvent(f, e, r).events) == ByteSum(f.events) + e.doc.size
    ensures multiset(StoreEvent(f, e, r).events) == multiset(f.events) + multiset{e}
  {
    assert (f.events + [e])[..|f.events|] == f.events;
  }

  lemma PlainSnoc(plain: seq<PlainEntry>, p: PlainEntry)
    ensures PlainEvents(plain + [p]) == PlainEvents(plain) + multiset{p.event}
  {
    assert (plain + [p])[..|plain|] == plain;
  }

  // ---------- each branch of Apply keeps the books ----------

  lemma PlainBalances(f: Flow, e: Event, r: Rule)
    requires Balanced(f)
    ensures Balanced(AppendPlain(f, e, r))
  {
    hide SlotEvents, PlainEvents, ByteSum, DuplicateSum, Total;
    StoreBalances(f, e, r);
    PlainSnoc(f.plain, PlainEntry(e, f.nextOrder));
  }

  lemma PlainPositions(f: Flow, e: Event, r: Rule)
    requires Positioned(f)
    ensures Positioned(AppendPlain(f, e, r))
  {
  }

  lemma OpenedBalances(f: Flow, e: Event, r: Rule, slot: Slot)
    requires Balanced(f) && SlotOf(r, e.doc.body) == Some(slot)
    ensures Balanced(WithInvocation(f, e, r, slot))
  {
    hide SlotEvents, PlainEvents, ByteSum, DuplicateSum, Total, GroupOf, SlotOf, Find;
    var g := WithInvocation(f, e, r, slot);
    if Find(f.invocations, Identity(r, slot)) == |f.invocations| {
      var v := g.invocations[|f.invocations|];
      SumsSnoc(f.invocations, v);
      assert v.members == map[];
    }
  }

  lemma OpenedPositions(f: Flow, e: Event, r: Rule, slot: Slot)
    requires Positioned(f) && SlotOf(r, e.doc.body) == Some(slot)
    ensures Positioned(WithInvocation(f, e, r, slot))
  {
    hide GroupOf, SlotOf, Identity;
  }

  lemma StitchedPositions(f: Flow, e: Event, r: Rule, now: Time, slot: Slot, i: nat)
    requires Positioned(f)
    requires slot.index < |r.stitch| && i < |f.invocations|
    ensures Positioned(Stitched(f, e, r, now, slot, i))
  {
    hide RequiredRoles, Filled;
    var v := f.invocations[i];
    if slot.role in v.members && v.members[slot.role].doc.body != e.doc.body {
      var anomaly := CardinalityExceeded(r.stitch[slot.index].id, slot.role, now);
      PlainPositions(f.(anomalies := f.anomalies + [anomaly]), e, r);
    }
  }

  lemma StitchedBalances(f: Flow, e: Event, r: Rule, now: Time, slot: Slot, i: nat)
    requires Balanced(f)
    requires slot.index < |r.stitch| && i < |f.invocations|
    ensures Balanced(Stitched(f, e, r, now, slot, i))
  {
    hide RequiredRoles, Filled, SlotEvents, PlainEvents, ByteSum, DuplicateSum, Total, MemberEvents;
    var v := f.invocations[i];
    if slot.role !in v.members {
      var v' := Occupied(v, r.stitch[slot.index], slot.role, e);
      StoreBalances(f, e, r);
      SumsAt(f.invocations, i, v');
      MemberAdded(v.members, slot.role, e);
      Cancel(SlotEvents(f.invocations[i := v']), SlotEvents(f.invocations) + multiset{e}, MemberEvents(v.members));
    } else if v.members[slot.role].doc.body == e.doc.body {
      var v' := v.(duplicateCount := v.duplicateCount + 1);
      SumsAt(f.invocations, i, v');
      Cancel(SlotEvents(f.invocations[i := v']), SlotEvents(f.invocations), MemberEvents(v.members));
      TotalSet(f.duplicates, slot.typ, Count(f.duplicates, slot.typ) + 1);
    } else {
      var anomaly := CardinalityExceeded(r.stitch[slot.index].id, slot.role, now);
      PlainBalances(f.(anomalies := f.anomalies + [anomaly]), e, r);
    }
  }

  /** Apply keeps the books. */
  lemma MarkingKeepsBooks(f: Flow, terminalSeen: bool, now: Time)
    requires Balanced(f) && Positioned(f)
    ensures
      var f' := f.(terminalSeen := terminalSeen, updatedAt := now);
      Balanced(f') && Positioned(f')
  {
  }

  lemma ApplyKeepsBooks(f: Flow, e: Event, r: Rule, now: Time)
    requires Balanced(f) && Positioned(f)
    ensures Balanced(Applied(f, e, r, now)) && Positioned(Applied(f, e, r, now))
  {
    hide WithInvocation, Stitched, AppendPlain, Balanced, Positioned, SlotOf, MarksTerminal, Identity, Find;
    var f' := f.(terminalSeen := f.terminalSeen || MarksTerminal(r, e.doc.body), updatedAt := now);
    MarkingKeepsBooks(f, f'.terminalSeen, now);
    match SlotOf(r, e.doc.body)
    case None =>
      PlainBalances(f', e, r);
      PlainPositions(f', e, r);
    case Some(slot) =>
      OpenedBalances(f', e, r, slot);
      OpenedPositions(f', e, r, slot);
      var g, i := WithInvocation(f', e, r, slot), Find(f.invocations, Identity(r, slot));
      StitchedBalances(g, e, r, now, slot, i);
      StitchedPositions(g, e, r, now, slot, i);
  }

  /** Apply accounts for its event once: it is stored, or counted as a duplicate. */
  lemma ApplyCounts(f: Flow, e: Event, r: Rule, now: Time)
    ensures Applied(f, e, r, now).events == if IsDuplicate(f, e, r) then f.events else f.events + [e]
    ensures Applied(f, e, r, now).duplicateCount == f.duplicateCount + if IsDuplicate(f, e, r) then 1 else 0
  {
    hide SlotOf, Stitched, GroupOf, Identity, Find, Over, MarksTerminal;
    match SlotOf(r, e.doc.body)
    case None =>
    case Some(slot) =>
      var f' := f.(terminalSeen := f.terminalSeen || MarksTerminal(r, e.doc.body), updatedAt := now);
      StitchedCounts(WithInvocation(f', e, r, slot), e, r, now, slot, Find(f.invocations, Identity(r, slot)));
  }

  lemma StitchedCounts(f: Flow, e: Event, r: Rule, now: Time, slot: Slot, i: nat)
    requires slot.index < |r.stitch| && i < |f.invocations|
    ensures
      var v := f.invocations[i];
      var duplicate := slot.role in v.members && v.members[slot.role].doc.body == e.doc.body;
      && Stitched(f, e, r, now, slot, i).events == (if duplicate then f.events else f.events + [e])
      && Stitched(f, e, r, now, slot, i).duplicateCount == f.duplicateCount + if duplicate then 1 else 0
  {
    hide Occupied, Over;
  }

  // ---------- completeness is exact ----------

  lemma MemberKeepsExact(v: Invocation, r: Rule, slot: Slot, e: Event)
    requires SeparateStitches(r)
    requires SlotOf(r, e.doc.body) == Some(slot)
    requires v.identity == Identity(r, slot)
    requires slot.role !in v.members
    requires Exact(v, r) || Vacant(v, r, slot)
    ensures Describes(Occupied(v, r.stitch[slot.index], slot.role, e), r, slot.index, slot.values)
  {
    hide GroupOf, SlotOf, RequiredRoles;
    if Exact(v, r) {
      var k: nat, values :| Describes(v, r, k, values);
      InvocationKeyInjective(r.stitch[k].id, values, r.stitch[slot.index].id, slot.values);
      assert k == slot.index;
    }
  }

  lemma ApplyKeepsExact(f: Flow, e: Event, r: Rule, now: Time)
    requires SeparateStitches(r) && AllExact(f, r)
    ensures AllExact(Applied(f, e, r, now), r)
  {
    hide SlotOf, GroupOf, Stitched, Exact, Identity, Find, MarksTerminal, Over;
    match SlotOf(r, e.doc.body)
    case None =>
    case Some(slot) =>
      var f' := f.(terminalSeen := f.terminalSeen || MarksTerminal(r, e.doc.body), updatedAt := now);
      StitchedKeepsExact(WithInvocation(f', e, r, slot), e, r, now, slot, Find(f.invocations, Identity(r, slot)));
  }

  /** An invocation just created for the slot. */
  predicate Vacant(v: Invocation, r: Rule, slot: Slot)
    requires slot.index < |r.stitch| && |slot.values| == |r.stitch[slot.index].groupBy|
  {
    v.members == map[] && !v.complete && v.stitchId == r.stitch[slot.index].id && v.group ==
        GroupOf(r.stitch[slot.index], slot.values)
  }

  lemma StitchedKeepsExact(f: Flow, e: Event, r: Rule, now: Time, slot: Slot, i: nat)
    requires SeparateStitches(r) && SlotOf(r, e.doc.body) == Some(slot)
    requires i < |f.invocations| && f.invocations[i].identity == Identity(r, slot)
    requires forall j :: 0 <= j < |f.invocations| && j != i ==> Exact(f.invocations[j], r)
    requires Exact(f.invocations[i], r) || Vacant(f.invocations[i], r, slot)
    ensures AllExact(Stitched(f, e, r, now, slot, i), r)
  {
    hide SlotOf, GroupOf, Exact, Identity, Describes, Occupied, Over;
    var v := f.invocations[i];
    if slot.role !in v.members {
      MemberKeepsExact(v, r, slot, e);
      assert Exact(Occupied(v, r.stitch[slot.index], slot.role, e), r) by {
        DescribedIsExact(Occupied(v, r.stitch[slot.index], slot.role, e), r, slot.index, slot.values);
      }
    } else {
      DuplicateKeepsExact(v, r);
    }
  }

  lemma DescribedIsExact(v: Invocation, r: Rule, k: nat, values: seq<Text>)
    requires Describes(v, r, k, values)
    ensures Exact(v, r)
  {
    hide Describes;
  }

  lemma DuplicateKeepsExact(v: Invocation, r: Rule)
    requires Exact(v, r)
    ensures Exact(v.(duplicateCount := v.duplicateCount + 1), r)
  {
    hide GroupOf, SlotOf, RequiredRoles;
    var k: nat, values :| Describes(v, r, k, values);
    assert Describes(v.(duplicateCount := v.duplicateCount + 1), r, k, values);
  }

  // ---------- whole runs ----------

  datatype Input = Input(event: Event, now: Time)

  function ApplyAll(f: Flow, inputs: seq<Input>, r: Rule): Flow
  {
    if inputs == [] then f
    else
      var n := |inputs| - 1;
      Applied(ApplyAll(f, inputs[..n], r), inputs[n].event, r, inputs[n].now)
  }

  /** Accounting over every run of one rule from Open. */
  lemma {:induction false} RunIsAccounted(key: FlowKey, r: Rule, first: Event, inputs: seq<Input>)
    ensures
      var f := ApplyAll(Open(key, r, first), inputs, r);
      && Balanced(f) && Positioned(f)
      && |f.events| + f.duplicateCount == |inputs|
      && (SeparateStitches(r) ==> AllExact(f, r))
    decreases |inputs|
  {
    hide Applied, Balanced, Positioned;
    if inputs == [] {
      OpenIsAccounted(key, r, first);
    } else {
      var n := |inputs| - 1;
      RunIsAccounted(key, r, first, inputs[..n]);
      var f := ApplyAll(Open(key, r, first), inputs[..n], r);
      ApplyKeepsBooks(f, inputs[n].event, r, inputs[n].now);
      ApplyCounts(f, inputs[n].event, r, inputs[n].now);
      if SeparateStitches(r) {
        ApplyKeepsExact(f, inputs[n].event, r, inputs[n].now);
      }
    }
  }

  lemma OpenIsAccounted(key: FlowKey, r: Rule, first: Event)
    ensures Balanced(Open(key, r, first)) && Positioned(Open(key, r, first))
  {
  }
}
