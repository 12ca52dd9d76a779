/** The aggregate as the engine runs it: one object per flow, updated in place, whose invocation
    list and identity map name the same invocation objects. Every method is proved against the
    value-level functions of FlowModel. */
module FlowAggregate {
  import opened ByteText
  import opened PathLanguage
  import opened Rules
  import opened FlowModel
  import opened FlowOrder

  class LiveInvocation {
    var stitchId: Text
    var group: map<Text, Text>
    var members: map<Text, Event>
    var complete: bool
    var duplicateCount: nat
    var firstObservedAt: Time
    var order: nat

    constructor (stored: Invocation)
      ensures Value(stored.identity) == stored
    {
      stitchId, group, members := stored.stitchId, stored.group, stored.members;
      complete, duplicateCount := stored.complete, stored.duplicateCount;
      firstObservedAt, order := stored.firstObservedAt, stored.order;
    }

    function Value(identity: Text): Invocation
      reads this
    {
      Invocation(identity, stitchId, group, members, complete, duplicateCount, firstObservedAt, order)
    }
  }

  /** The durable form: a format byte and, JSON being lossless, the flow's value. */
  datatype Stored = Stored(format: int, body: Flow)

  const FORMAT_VERSION := 2

  // ---------- loops that only compute ----------

  method ResolveGroup(paths: seq<Path>, doc: Json) returns (values: Option<seq<Text>>)
    ensures values == GroupValues(paths, doc)
  {
    var out: seq<Text> := [];
    for i := 0 to |paths|
      invariant GroupValues(paths[..i], doc) == Some(out)
    {
      assert paths[..i + 1][..i] == paths[..i] && paths[..i + 1][i] == paths[i];
      var value := ResolvePath(paths[i], doc);
      if value == None {
        MissingGroupValue(paths, i + 1, doc);
        return None;
      }
      out := out + [value.value];
    }
    assert paths[..|paths|] == paths;
    return Some(out);
  }

  lemma {:induction false} MissingGroupValue(paths: seq<Path>, n: nat, doc: Json)
    requires n <= |paths| && GroupValues(paths[..n], doc) == None
    ensures GroupValues(paths, doc) == None
    decreases |paths| - n
  {
    if n == |paths| {
      assert paths[..n] == paths;
    } else {
      assert paths[..n + 1][..n] == paths[..n];
      MissingGroupValue(paths, n + 1, doc);
    }
  }

  method FindSlot(r: Rule, doc: Json) returns (slot: Option<Slot>)
    ensures slot == SlotOf(r, doc)
  {
    var typ := ResolvePath(r.eventType, doc);
    if typ == None {
      return None;
    }
    var claim := MatchingRole(r, typ.value);
    if claim == None {
      return None;
    }
    var values := ResolveGroup(r.stitch[claim.value.index].groupBy, doc);
    if values == None {
      return None;
    }
    return Some(Slot(claim.value.index, claim.value.role, typ.value, values.value));
  }

  /** The builder loop of invocationKey. */
  method BuildKey(stitchId: Text, values: seq<Text>) returns (key: Text)
    ensures key == InvocationKey(stitchId, values)
  {
    hide Prefixed;
    key := Prefixed(stitchId);
    for i := 0 to |values|
      invariant key == InvocationKey(stitchId, values[..i])
    {
      assert values[..i + 1][..i] == values[..i] && values[..i + 1][i] == values[i];
      key := key + (":" + Prefixed(values[i]));
    }
    assert values[..|values|] == values;
  }

  method KeyOf(r: Rule, slot: Slot) returns (key: Text)
    requires slot.index < |r.stitch|
    ensures key == Identity(r, slot)
  {
    key := BuildKey(r.stitch[slot.index].id, slot.values);
  }

  method BuildGroup(s: Stitch, values: seq<Text>) returns (group: map<Text, Text>)
    requires |values| == |s.groupBy|
    ensures group == GroupOf(s, values)
  {
    var fields := GroupFields(s.groupBy);
    group := map[];
    for i := 0 to |values|
      invariant group == Zip(fields[..i], values[..i])
    {
      assert fields[..i + 1][..i] == fields[..i] && values[..i + 1][..i] == values[..i];
      group := group[fields[i] := values[i]];
    }
    assert fields[..|values|] == fields && values[..|values|] == values;
  }

  /** The value of a list of invocation objects under their identities. */
  ghost function Values(objects: seq<LiveInvocation>, identities: seq<Text>): (values: seq<Invocation>)
    requires |objects| == |identities|
    reads objects
    ensures |values| == |objects|
    ensures forall i :: 0 <= i < |objects| ==> values[i] == objects[i].Value(identities[i])
  {
    seq(|objects|, i requires 0 <= i < |objects| reads objects => objects[i].Value(identities[i]))
  }

  class LiveFlow {
    var key: FlowKey
    var ruleVersion: Text
    var pinnedRule: Rule
    var events: seq<Event>
    var invocations: seq<LiveInvocation>
    var invocationByKey: map<Text, LiveInvocation>
    var plain: seq<PlainEntry>
    var firstObservedAt: Time
    var updatedAt: Time
    var timeoutAt: Time
    var expiresAt: Time
    var settleUntil: Time
    var duplicateCount: nat
    var duplicates: map<Text, nat>
    var anomalies: seq<Anomaly>
    var terminalSeen: bool
    var limitExceeded: bool
    var bytes: nat
    var nextOrder: nat
    ghost var identities: seq<Text>

    /** The list and the map hold the same objects, each under exactly one identity. */
    ghost predicate Valid()
      reads this
    {
      && |identities| == |invocations|
      && (forall i, j :: 0 <= i < j < |invocations| ==> invocations[i] != invocations[j])
      && (forall i, j :: 0 <= i < j < |identities| ==> identities[i] != identities[j])
      && (forall i :: 0 <= i < |identities| ==>
            identities[i] in invocationByKey && invocationByKey[identities[i]] == invocations[i])
      && (forall id :: id in invocationByKey ==> id in identities)
    }

    ghost function Value(): Flow
      requires Valid()
      reads this, invocations
    {
      Flow(key, ruleVersion, pinnedRule, events, Values(invocations, identities), plain, firstObservedAt, updatedAt,
           timeoutAt, expiresAt, settleUntil, duplicateCount, duplicates, anomalies, terminalSeen, limitExceeded,
           bytes, nextOrder)
    }

    constructor (key: FlowKey, r: Rule, first: Event)
      ensures Valid() && invocations == []
      ensures Value() == Open(key, r, first)
    {
      this.key, ruleVersion, pinnedRule := key, r.version, r;
      events, invocations, invocationByKey, plain, identities := [], [], map[], [], [];
      firstObservedAt, updatedAt := first.observedAt, first.observedAt;
      timeoutAt, expiresAt, settleUntil := first.observedAt + r.timeout, first.observedAt + r.timeout, ZERO_TIME;
      duplicateCount, duplicates, anomalies := 0, map[], [];
      terminalSeen, limitExceeded, bytes, nextOrder := false, false, 0, 0;
    }

    method Store(e: Event, r: Rule)
      requires Valid()
      modifies this`events, this`bytes, this`limitExceeded
      ensures Valid() && Value() == StoreEvent(old(Value()), e, r)
    {
      hide Values;
      events := events + [e];
      bytes := bytes + e.doc.size;
      if r.maxEventBytes > 0 && e.doc.size > r.maxEventBytes {
        limitExceeded := true;
      }
      if r.maxFlowBytes > 0 && bytes > r.maxFlowBytes {
        limitExceeded := true;
      }
      assert Values(invocations, identities) == old(Values(invocations, identities));
    }

    method StorePlain(e: Event, r: Rule)
      requires Valid()
      modifies this`events, this`bytes, this`limitExceeded, this`plain, this`nextOrder
      ensures Valid() && Value() == AppendPlain(old(Value()), e, r)
    {
      Store(e, r);
      plain := plain + [PlainEntry(e, nextOrder)];
      nextOrder := nextOrder + 1;
    }

    /** The map lookup finds the object at the position the identity has in the list. */
    lemma Located(identity: Text)
      requires Valid()
      ensures identity in invocationByKey <==> Find(Values(invocations, identities), identity) < |invocations|
      ensures identity in invocationByKey ==>
                invocationByKey[identity] == invocations[Find(Values(invocations, identities), identity)]
    {
      var values := Values(invocations, identities);
      var i := Find(values, identity);
      assert forall j :: 0 <= j < |values| ==> values[j].identity == identities[j];
      if i < |values| {
        assert identities[i] == identity;
      }
    }

    /** Adds a new invocation to the list and the map. */
    method Append(invocation: LiveInvocation, identity: Text)
      requires Valid() && identity !in invocationByKey && invocation !in invocations
      modifies this`invocations, this`invocationByKey, this`identities, this`nextOrder
      ensures Valid()
      ensures invocations == old(invocations) + [invocation]
      ensures Value() == old(Value()).(invocations := old(Value()).invocations + [invocation.Value(identity)],
                                       nextOrder := old(Value()).nextOrder + 1)
    {
      hide Values;
      ghost var before := Values(invocations, identities);
      assert identity !in identities;
      nextOrder := nextOrder + 1;
      invocationByKey := invocationByKey[identity := invocation];
      invocations := invocations + [invocation];
      identities := identities + [identity];
      assert Values(invocations, identities) == before + [invocation.Value(identity)];
    }

    lemma ValueAt(i: nat)
      requires Valid() && i < |invocations|
      ensures |Value().invocations| == |invocations|
      ensures Value().invocations[i] == invocations[i].Value(Value().invocations[i].identity)
    {
    }

    /** Looks the slot's invocation up, creating it when it is new. */
    method Locate(e: Event, r: Rule, slot: Slot) returns (invocation: LiveInvocation, ghost i: nat)
      requires Valid() && SlotOf(r, e.doc.body) == Some(slot)
      modifies this`invocations, this`invocationByKey, this`nextOrder, this`identities
      ensures Valid()
      ensures Value() == WithInvocation(old(Value()), e, r, slot)
      ensures i == Find(old(Value()).invocations, Identity(r, slot))
      ensures i < |invocations| && invocations[i] == invocation
      ensures forall o :: o in invocations ==> o in old(invocations) || fresh(o)
    {
      hide SlotOf, GroupOf, Identity, Find, Values;
      var s := r.stitch[slot.index];
      var identity := KeyOf(r, slot);
      Located(identity);
      i := Find(Values(invocations, identities), identity);
      if identity in invocationByKey {
        invocation := invocationByKey[identity];
      } else {
        var group := BuildGroup(s, slot.values);
        invocation := new LiveInvocation(Invocation(identity, s.id, group, map[], false, 0, e.observedAt, nextOrder));
        Append(invocation, identity);
      }
    }

    /** Fills one role in place and latches completeness. */
    method Fill(invocation: LiveInvocation, s: Stitch, role: Text, e: Event, ghost i: nat)
      requires Valid() && i < |invocations| && invocations[i] == invocation
      modifies invocation`members, invocation`complete
      ensures Valid()
      ensures
        var f := old(Value());
        Value() == f.(invocations := f.invocations[i := Occupied(f.invocations[i], s, role, e)])
    {
      hide RequiredRoles, Filled;
      ghost var before := Values(invocations, identities);
      invocation.members := invocation.members[role := e];
      if !invocation.complete {
        invocation.complete := Filled(invocation.members, RequiredRoles(s));
      }
      assert Values(invocations, identities) == before[i := Occupied(before[i], s, role, e)];
    }

    /** Counts a duplicate on its invocation. */
    method BumpInvocation(invocation: LiveInvocation, ghost i: nat)
      requires Valid() && i < |invocations| && invocations[i] == invocation
      modifies invocation`duplicateCount
      ensures Valid()
      ensures
        var f := old(Value());
        var v := f.invocations[i];
        Value() == f.(invocations := f.invocations[i := v.(duplicateCount := v.duplicateCount + 1)])
    {
      ghost var before := Values(invocations, identities);
      invocation.duplicateCount := invocation.duplicateCount + 1;
      assert Values(invocations, identities) == before[i := before[i].(duplicateCount := before[i].duplicateCount + 1)];
    }

    method BumpTallies(typ: Text)
      requires Valid()
      modifies this`duplicateCount, this`duplicates
      ensures Valid()
      ensures
        var f := old(Value());
        var tally := Count(f.duplicates, typ) + 1;
        Value() == f.(duplicateCount := f.duplicateCount + 1, duplicates := f.duplicates[typ := tally])
    {
      duplicateCount := duplicateCount + 1;
      duplicates := duplicates[typ := Count(duplicates, typ) + 1];
    }

    method Report(anomaly: Anomaly)
      requires Valid()
      modifies this`anomalies
      ensures Valid() && Value() == old(Value()).(anomalies := old(Value()).anomalies + [anomaly])
    {
      anomalies := anomalies + [anomaly];
    }

    /** Puts the event into its slot, counts it as a duplicate, or keeps it as a plain entry. */
    method Place(invocation: LiveInvocation, e: Event, r: Rule, now: Time, slot: Slot, ghost i: nat)
      returns (duplicate: bool)
      requires Valid() && slot.index < |r.stitch|
      requires i < |invocations| && invocations[i] == invocation
      modifies this`events, this`bytes, this`limitExceeded, this`plain, this`nextOrder
      modifies this`duplicateCount, this`duplicates, this`anomalies, invocation
      ensures Valid()
      ensures Value() == Stitched(old(Value()), e, r, now, slot, i)
      ensures
        var v := old(Value()).invocations[i];
        duplicate == (slot.role in v.members && v.members[slot.role].doc.body == e.doc.body)
    {
      hide StoreEvent, Occupied, AppendPlain, Value, Valid;
      var s := r.stitch[slot.index];
      ValueAt(i);
      StoreKeepsInvocations(Value(), e, r);
      if slot.role !in invocation.members {
        Store(e, r);
        Fill(invocation, s, slot.role, e, i);
        return false;
      }
      if invocation.members[slot.role].doc.body == e.doc.body {
        BumpTallies(slot.typ);
        BumpInvocation(invocation, i);
        return true;
      }
      Report(CardinalityExceeded(s.id, slot.role, now));
      StorePlain(e, r);
      return false;
    }

    method Mark(e: Event, r: Rule, now: Time)
      requires Valid()
      modifies this`terminalSeen, this`updatedAt
      ensures Valid()
      ensures
        var f := old(Value());
        Value() == f.(terminalSeen := f.terminalSeen || MarksTerminal(r, e.doc.body), updatedAt := now)
    {
      var typ := ResolvePath(r.eventType, e.doc.body);
      if typ.Some? && IsTerminal(r, typ.value) {
        terminalSeen := true;
      }
      updatedAt := now;
    }

    method Apply(e: Event, r: Rule, now: Time) returns (duplicate: bool)
      requires Valid()
      modifies this, invocations
      ensures Valid()
      ensures Value() == Applied(old(Value()), e, r, now)
      ensures duplicate == IsDuplicate(old(Value()), e, r)
      ensures forall o :: o in invocations ==> o in old(invocations) || fresh(o)
    {
      hide SlotOf, AppendPlain, Stitched, WithInvocation, MarksTerminal, Identity, Find, Value, Valid;
      Mark(e, r, now);
      var slot := FindSlot(r, e.doc.body);
      if slot == None {
        StorePlain(e, r);
        return false;
      }
      LocatedDuplicate(Value(), e, r, slot.value);
      var invocation, i := Locate(e, r, slot.value);
      assert invocation in invocations;
      duplicate := Place(invocation, e, r, now, slot.value, i);
    }

    method CountInvocations() returns (complete: nat, incomplete: nat)
      requires Valid()
      ensures complete > 0 && incomplete == 0 <==> AllComplete(Value().invocations)
      ensures complete + incomplete == |invocations|
    {
      complete, incomplete := 0, 0;
      ghost var values := Values(invocations, identities);
      for k := 0 to |invocations|
        invariant complete + incomplete == k
        invariant incomplete == 0 <==> forall i :: 0 <= i < k ==> values[i].complete
      {
        if invocations[k].complete {
          complete := complete + 1;
        } else {
          assert !values[k].complete;
          incomplete := incomplete + 1;
        }
      }
    }

    method ShouldClose(r: Rule, now: Time) returns (reason: Option<Reason>)
      requires Valid()
      modifies this`settleUntil, this`expiresAt
      ensures Valid()
      ensures Value() == Considered(old(Value()), r, now)
      ensures reason == CloseReason(old(Value()), r, now)
    {
      hide Values, AllComplete;
      if terminalSeen {
        return Some(TerminalEvent);
      }
      if limitExceeded || (r.maxEvents > 0 && |events| >= r.maxEvents) {
        return Some(LimitExceeded);
      }
      var complete, incomplete := CountInvocations();
      if !(r.closeWhenComplete && complete > 0 && incomplete == 0) {
        if settleUntil != ZERO_TIME {
          settleUntil := ZERO_TIME;
          expiresAt := timeoutAt;
        }
        return None;
      }
      if r.settle <= 0 {
        return Some(InvocationsComplete);
      }
      if settleUntil == ZERO_TIME {
        settleUntil := now + r.settle;
        expiresAt := MinTime(timeoutAt, settleUntil);
        return None;
      }
      if now < settleUntil {
        return None;
      }
      return Some(InvocationsComplete);
    }

    /** Encode inverts the identity map to label each object of the list. */
    method Encode() returns (raw: Stored)
      requires Valid()
      ensures raw == Stored(FORMAT_VERSION, Value())
      ensures DistinctIdentities(raw.body.invocations)
    {
      var identityOf: map<LiveInvocation, Text> := map[];
      var todo := invocationByKey.Keys;
      while todo != {}
        invariant todo <= invocationByKey.Keys
        invariant forall id :: id in invocationByKey && id !in todo ==>
                    invocationByKey[id] in identityOf && identityOf[invocationByKey[id]] == id
        decreases todo
      {
        var id :| id in todo;
        assert forall other :: other in invocationByKey && other != id ==>
            invocationByKey[other] != invocationByKey[id] by {
          SameObjectSameIdentity();
        }
        identityOf := identityOf[invocationByKey[id] := id];
        todo := todo - {id};
      }
      var encoded: seq<Invocation> := [];
      for k := 0 to |invocations|
        invariant encoded == Values(invocations, identities)[..k]
      {
        assert identities[k] in invocationByKey;
        encoded := encoded + [invocations[k].Value(identityOf[invocations[k]])];
      }
      var body := Flow(key, ruleVersion, pinnedRule, events, encoded, plain, firstObservedAt, updatedAt,
                       timeoutAt, expiresAt, settleUntil, duplicateCount, duplicates, anomalies, terminalSeen,
                       limitExceeded, bytes, nextOrder);
      raw := Stored(FORMAT_VERSION, body);
    }

    lemma SameObjectSameIdentity()
      requires Valid()
      ensures forall a, b :: a in invocationByKey && b in invocationByKey && a != b ==>
              invocationByKey[a] != invocationByKey[b]
    {
      forall a, b | a in invocationByKey && b in invocationByKey && a != b
        ensures invocationByKey[a] != invocationByKey[b]
      {
        var i :| 0 <= i < |identities| && identities[i] == a;
        var j :| 0 <= j < |identities| && identities[j] == b;
      }
    }

    /** Rebuilds the flow from its durable form. */
    constructor Restore(body: Flow)
      ensures fresh(invocations)
      ensures DistinctIdentities(body.invocations) ==> Valid() && Value() == body
    {
      key, ruleVersion, pinnedRule := body.key, body.ruleVersion, body.pinnedRule;
      events, plain := body.events, body.plain;
      firstObservedAt, updatedAt := body.firstObservedAt, body.updatedAt;
      timeoutAt, expiresAt, settleUntil := body.timeoutAt, body.expiresAt, body.settleUntil;
      duplicateCount, duplicates, anomalies := body.duplicateCount, body.duplicates, body.anomalies;
      terminalSeen, limitExceeded, bytes, nextOrder :=
          body.terminalSeen, body.limitExceeded, body.bytes, body.nextOrder;
      var objects, byKey := RestoreInvocations(body.invocations);
      invocations, invocationByKey := objects, byKey;
      ghost var ids := seq(|objects|, i requires 0 <= i < |objects| => body.invocations[i].identity);
      identities := ids;
      new;
      hide Values;
      assert Values(invocations, identities) == body.invocations;
    }
  }

  /** Rebuilds list and map together, one object for each stored invocation. */
  method RestoreInvocations(stored: seq<Invocation>)
    returns (objects: seq<LiveInvocation>, byKey: map<Text, LiveInvocation>)
    ensures |objects| == |stored| && fresh(objects)
    ensures forall i, j :: 0 <= i < j < |objects| ==> objects[i] != objects[j]
    ensures forall i :: 0 <= i < |stored| ==> objects[i].Value(stored[i].identity) == stored[i]
    ensures forall id :: id in byKey ==> exists i :: 0 <= i < |stored| && stored[i].identity == id
    ensures DistinctIdentities(stored) ==>
              forall i :: 0 <= i < |stored| ==> stored[i].identity in byKey && byKey[stored[i].identity] == objects[i]
  {
    objects, byKey := [], map[];
    for k := 0 to |stored|
      invariant |objects| == k && fresh(objects)
      invariant forall i, j :: 0 <= i < j < k ==> objects[i] != objects[j]
      invariant forall i :: 0 <= i < k ==> objects[i].Value(stored[i].identity) == stored[i]
      invariant forall id :: id in byKey ==> exists i :: 0 <= i < k && stored[i].identity == id
      invariant DistinctIdentities(stored) ==>
                  forall i :: 0 <= i < k ==> stored[i].identity in byKey && byKey[stored[i].identity] == objects[i]
    {
      var invocation := new LiveInvocation(stored[k]);
      objects := objects + [invocation];
      byKey := byKey[stored[k].identity := invocation];
    }
  }

  lemma StoreKeepsInvocations(f: Flow, e: Event, r: Rule)
    ensures StoreEvent(f, e, r).invocations == f.invocations
  {
  }

  /** What Locate leaves at the slot decides the duplicate verdict. */
  predicate DuplicateAt(f: Flow, g: Flow, e: Event, r: Rule, slot: Slot, i: nat)
  {
    i < |g.invocations| &&
    (IsDuplicate(f, e, r) <==>
       slot.role in g.invocations[i].members && g.invocations[i].members[slot.role].doc.body == e.doc.body)
  }

  lemma LocatedDuplicate(f: Flow, e: Event, r: Rule, slot: Slot)
    requires SlotOf(r, e.doc.body) == Some(slot)
    ensures DuplicateAt(f, WithInvocation(f, e, r, slot), e, r, slot, Find(f.invocations, Identity(r, slot)))
  {
    hide SlotOf, GroupOf, Identity;
  }

  /** Decode fails closed on an unknown format. */
  method Decode(raw: Stored) returns (f: LiveFlow?)
    ensures raw.format != FORMAT_VERSION ==> f == null
    ensures raw.format == FORMAT_VERSION ==> f != null && fresh(f) && fresh(f.invocations)
    ensures f != null && DistinctIdentities(raw.body.invocations) ==> f.Valid() && f.Value() == raw.body
  {
    if raw.format != FORMAT_VERSION {
      return null;
    }
    f := new LiveFlow.Restore(raw.body);
  }

  /** Encode then Decode: an independent copy with the same value, list and map again in step. */
  method Clone(source: LiveFlow) returns (copy: LiveFlow)
    requires source.Valid()
    ensures fresh(copy) && fresh(copy.invocations) && copy.Valid()
    ensures copy.Value() == source.Value()
  {
    var raw := source.Encode();
    copy := Decode(raw);
  }
}
