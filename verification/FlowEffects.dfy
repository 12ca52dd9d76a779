/** What one event does to a flow besides its books: latches, byte limits, anomalies, tallies and entry times,
    with the conditions written out; and the limits every open flow is within. */
module FlowEffects {
  import opened ByteText
  import opened PathLanguage
  import opened Rules
  import opened FlowModel
  import opened FlowAccounting
  import opened FlowDeadline

  // ---------- where the event goes ----------

  /** The invocation of the event's slot, if the flow has it. */
  predicate Meets(f: Flow, e: Event, r: Rule, slot: Slot)
  {
    SlotOf(r, e.doc.body) == Some(slot) && Find(f.invocations, Identity(r, slot)) < |f.invocations|
  }

  /** Someone else sits in the event's role. */
  predicate Conflicts(f: Flow, e: Event, r: Rule)
  {
    var slot := SlotOf(r, e.doc.body);
    && slot.Some? && Meets(f, e, r, slot.value)
    && var members := f.invocations[Find(f.invocations, Identity(r, slot.value))].members;
    slot.value.role in members && members[slot.value.role].doc.body != e.doc.body
  }

  /** The event alone is too large, or makes the flow too large. */
  predicate Exceeds(f: Flow, e: Event, r: Rule)
  {
    0 < r.maxEventBytes < e.doc.size || 0 < r.maxFlowBytes < f.bytes + e.doc.size
  }

  /** An event has a slot exactly when its type is claimed by a role and every group value is there. */
  lemma SlotExactly(r: Rule, doc: Json)
    ensures
      var typ, slot := Resolve(r.eventType, doc), SlotOf(r, doc);
      && (slot.Some? ==>
            && typ == Some(slot.value.typ) && slot.value.index < |r.stitch|
            && Claim(slot.value.index, slot.value.role, slot.value.typ) in Claims(r)
            && Gathers(r.stitch[slot.value.index].groupBy, doc, slot.value.values))
      && (slot.None? && typ.Some? ==>
            forall c :: c in Claims(r) && FirstClaim(Claims(r), typ.value) == Some(c) ==>
              Misses(r.stitch[c.index].groupBy, doc))
      && (typ.Some? && slot.None? && FirstClaim(Claims(r), typ.value).None? ==>
            forall c :: c in Claims(r) ==> c.typ != typ.value)
  {
    hide Resolve, ClaimsFrom;
    var typ := Resolve(r.eventType, doc);
    if typ.Some? {
      var c := FirstClaim(Claims(r), typ.value);
      if c.Some? {
        GroupsExactly(r.stitch[c.value.index].groupBy, doc);
      }
    }
  }

  /** The values are those of the paths, each there. */
  predicate Gathers(paths: seq<Path>, doc: Json, values: seq<Text>)
  {
    |values| == |paths| && forall i :: 0 <= i < |paths| ==> Resolve(paths[i], doc) == Some(values[i])
  }

  predicate Misses(paths: seq<Path>, doc: Json)
  {
    exists i :: 0 <= i < |paths| && Resolve(paths[i], doc) == None
  }

  lemma {:induction false} GroupsExactly(paths: seq<Path>, doc: Json)
    ensures GroupValues(paths, doc).Some? ==> Gathers(paths, doc, GroupValues(paths, doc).value)
    ensures GroupValues(paths, doc).None? ==> Misses(paths, doc)
    decreases |paths|
  {
    hide Resolve;
    if paths != [] {
      var n := |paths| - 1;
      GroupsExactly(paths[..n], doc);
      assert forall i :: 0 <= i < n ==> paths[..n][i] == paths[i];
    }
  }

  // ---------- one event ----------

  lemma StitchedEffects(f: Flow, e: Event, r: Rule, now: Time, slot: Slot, i: nat)
    requires slot.index < |r.stitch| && i < |f.invocations|
    ensures
      var g, members := Stitched(f, e, r, now, slot, i), f.invocations[i].members;
      var stored := slot.role !in members || members[slot.role].doc.body != e.doc.body;
      var conflict := slot.role in members && members[slot.role].doc.body != e.doc.body;
      && (g.limitExceeded <==> f.limitExceeded || (stored && Exceeds(f, e, r)))
      && g.bytes == f.bytes + (if stored then e.doc.size else 0)
      && g.anomalies
         == f.anomalies + (if conflict then [CardinalityExceeded(r.stitch[slot.index].id, slot.role, now)] else [])
      && g.plain == f.plain + (if conflict then [PlainEntry(e, f.nextOrder)] else [])
      && g.duplicates == (if stored then f.duplicates else f.duplicates[slot.typ := Count(f.duplicates, slot.typ) + 1])
      && g.terminalSeen == f.terminalSeen && g.updatedAt == f.updatedAt
  {
    hide Occupied;
  }

  /** Latches and limits: the flow is over its limits exactly when it was, or a stored event is too large or
      makes it too large; it has seen its end exactly when it had, or the event's type is a terminal one. */
  lemma ApplyLatches(f: Flow, e: Event, r: Rule, now: Time)
    ensures
      var g := Applied(f, e, r, now);
      && (g.limitExceeded <==>
            f.limitExceeded || (!IsDuplicate(f, e, r)
                                && (0 < r.maxEventBytes < e.doc.size || 0 < r.maxFlowBytes < f.bytes + e.doc.size)))
      && g.bytes == f.bytes + (if IsDuplicate(f, e, r) then 0 else e.doc.size)
      && (g.terminalSeen <==>
            f.terminalSeen || (Resolve(r.eventType, e.doc.body).Some?
                               && Resolve(r.eventType, e.doc.body).value in r.terminalEvents))
      && g.updatedAt == now
  {
    hide SlotOf, Stitched, GroupOf, Identity, Find, Resolve;
    match SlotOf(r, e.doc.body)
    case None =>
    case Some(slot) =>
      var f' := f.(terminalSeen := f.terminalSeen || MarksTerminal(r, e.doc.body), updatedAt := now);
      StitchedEffects(WithInvocation(f', e, r, slot), e, r, now, slot, Find(f.invocations, Identity(r, slot)));
  }

  /** An anomaly is recorded exactly for a second, different event in an occupied role, which is then kept as a
      plain entry; so is an event without a slot. */
  lemma ApplyRecordsConflicts(f: Flow, e: Event, r: Rule, now: Time)
    ensures
      var g, slot := Applied(f, e, r, now), SlotOf(r, e.doc.body);
      && (Conflicts(f, e, r) ==>
            g.anomalies == f.anomalies + [CardinalityExceeded(r.stitch[slot.value.index].id, slot.value.role, now)])
      && (!Conflicts(f, e, r) ==> g.anomalies == f.anomalies)
      && g.plain == f.plain + (if slot.None? || Conflicts(f, e, r) then [PlainEntry(e, f.nextOrder)] else [])
  {
    hide SlotOf, Stitched, GroupOf, Identity, MarksTerminal, Over;
    match SlotOf(r, e.doc.body)
    case None =>
    case Some(slot) =>
      var f' := f.(terminalSeen := f.terminalSeen || MarksTerminal(r, e.doc.body), updatedAt := now);
      StitchedEffects(WithInvocation(f', e, r, slot), e, r, now, slot, Find(f.invocations, Identity(r, slot)));
  }

  /** A duplicate is tallied under its own event type, and under no other. */
  lemma ApplyTallies(f: Flow, e: Event, r: Rule, now: Time, typ: Text)
    ensures
      var own := IsDuplicate(f, e, r) && Resolve(r.eventType, e.doc.body) == Some(typ);
      Count(Applied(f, e, r, now).duplicates, typ) == Count(f.duplicates, typ) + if own then 1 else 0
  {
    hide SlotOf, Stitched, GroupOf, Identity, MarksTerminal, Over, Resolve;
    match SlotOf(r, e.doc.body)
    case None =>
    case Some(slot) =>
      SlotHasType(r, e.doc.body);
      var f' := f.(terminalSeen := f.terminalSeen || MarksTerminal(r, e.doc.body), updatedAt := now);
      StitchedEffects(WithInvocation(f', e, r, slot), e, r, now, slot, Find(f.invocations, Identity(r, slot)));
  }

  lemma SlotHasType(r: Rule, doc: Json)
    ensures SlotOf(r, doc).Some? ==> Resolve(r.eventType, doc) == Some(SlotOf(r, doc).value.typ)
  {
    hide Resolve, FirstClaim, Claims, GroupValues;
  }

  lemma StitchedKeepsTimes(f: Flow, e: Event, r: Rule, now: Time, slot: Slot, i: nat, k: nat)
    requires slot.index < |r.stitch| && i < |f.invocations| && k < |f.invocations|
    ensures
      var g := Stitched(f, e, r, now, slot, i);
      && |g.invocations| == |f.invocations|
      && g.invocations[k].firstObservedAt == f.invocations[k].firstObservedAt
      && g.invocations[k].order == f.invocations[k].order
      && g.invocations[k].identity == f.invocations[k].identity
  {
    hide Over, Filled, RequiredRoles;
  }

  /** An invocation keeps the time and the position of its first event; a new one takes those of its event. */
  lemma ApplyKeepsEntryTimes(f: Flow, e: Event, r: Rule, now: Time, k: nat)
    requires k < |Applied(f, e, r, now).invocations|
    ensures
      var g := Applied(f, e, r, now);
      if k < |f.invocations| then
        && g.invocations[k].firstObservedAt == f.invocations[k].firstObservedAt
        && g.invocations[k].order == f.invocations[k].order && g.invocations[k].identity == f.invocations[k].identity
      else
        && k == |f.invocations| && g.invocations[k].order == f.nextOrder
        && g.invocations[k].firstObservedAt == e.observedAt
  {
    hide SlotOf, Stitched, GroupOf, Identity, Find, MarksTerminal, Over;
    match SlotOf(r, e.doc.body)
    case None =>
    case Some(slot) =>
      var f' := f.(terminalSeen := f.terminalSeen || MarksTerminal(r, e.doc.body), updatedAt := now);
      var g := WithInvocation(f', e, r, slot);
      var i := Find(f.invocations, Identity(r, slot));
      StitchedKeepsTimes(g, e, r, now, slot, i, i);
      StitchedKeepsTimes(g, e, r, now, slot, i, k);
  }

  /** Which roles make an invocation complete: the required ones when any are named, else all declared ones. */
  lemma CompleteMeans(v: Invocation, r: Rule, k: nat, values: seq<Text>)
    requires Describes(v, r, k, values)
    ensures v.complete <==>
            forall name :: (if r.stitch[k].required != [] then name in r.stitch[k].required
                            else exists i :: 0 <= i < |r.stitch[k].roles| && r.stitch[k].roles[i].name == name)
                           ==> name in v.members
  {
    hide SlotOf, InvocationKey, GroupOf;
    var s := r.stitch[k];
    if s.required == [] {
      forall name ensures name in RequiredRoles(s) <==> exists i :: 0 <= i < |s.roles| && s.roles[i].name == name {
        if name in RequiredRoles(s) {
          var role :| role in s.roles && role.name == name;
        }
      }
    }
  }

  lemma OccupiedStays(f: Flow, e: Event, r: Rule, now: Time, slot: Slot, i: nat)
    requires slot.index < |r.stitch| && i < |f.invocations|
    requires slot.role in f.invocations[i].members ==> f.invocations[i].members[slot.role].doc.body == e.doc.body
    ensures
      var g := Stitched(f, e, r, now, slot, i);
      && |g.invocations| == |f.invocations| && slot.role in g.invocations[i].members
      && g.invocations[i].members[slot.role].doc.body == e.doc.body
      && forall k :: 0 <= k < |f.invocations| ==> g.invocations[k].identity == f.invocations[k].identity
  {
    hide Over, Filled, RequiredRoles;
  }

  lemma {:induction false} SameIdentitiesSameFind(a: seq<Invocation>, b: seq<Invocation>, identity: Text)
    requires |a| == |b| && forall k :: 0 <= k < |a| ==> a[k].identity == b[k].identity
    ensures Find(a, identity) == Find(b, identity)
    decreases |a|
  {
    if a != [] {
      SameIdentitiesSameFind(a[1..], b[1..], identity);
    }
  }

  /** Deduplication: once an event has taken its slot, any event with the same body is a duplicate. */
  lemma RepeatIsDuplicate(f: Flow, e: Event, r: Rule, now: Time, again: Event)
    requires SlotOf(r, e.doc.body).Some? && !Conflicts(f, e, r) && again.doc.body == e.doc.body
    ensures IsDuplicate(Applied(f, e, r, now), again, r)
  {
    hide SlotOf, Stitched, GroupOf, Identity, MarksTerminal, Over, Find;
    var slot := SlotOf(r, e.doc.body).value;
    var f' := f.(terminalSeen := f.terminalSeen || MarksTerminal(r, e.doc.body), updatedAt := now);
    var g, i := WithInvocation(f', e, r, slot), Find(f.invocations, Identity(r, slot));
    OccupiedStays(g, e, r, now, slot, i);
    SameIdentitiesSameFind(g.invocations, Stitched(g, e, r, now, slot, i).invocations, Identity(r, slot));
  }

  /** An event without a slot is never a duplicate, nor is one that finds its role free or taken by another. */
  lemma OnlyRepeatsAreDuplicates(f: Flow, e: Event, r: Rule)
    requires SlotOf(r, e.doc.body).None? || Conflicts(f, e, r) || !Meets(f, e, r, SlotOf(r, e.doc.body).value)
    ensures !IsDuplicate(f, e, r)
  {
    hide SlotOf, Identity, Find;
  }

  /** A flow is due at its timeout, or at the end of its settle window when that comes first. */
  lemma DeadlineIsEarlier(f: Flow, r: Rule)
    requires Saved(f, r)
    ensures f.timeoutAt == f.firstObservedAt + r.timeout && f.expiresAt <= f.timeoutAt
    ensures f.settleUntil == ZERO_TIME ==> f.expiresAt == f.timeoutAt
    ensures f.settleUntil != ZERO_TIME ==> f.expiresAt <= f.settleUntil && f.expiresAt in {f.timeoutAt, f.settleUntil}
  {
    hide CloseCondition, AtLimit;
  }

  // ---------- why an accepted event closes the flow ----------

  /** The event ends, overfills or leaves open a saved flow: the verdict, condition by condition. */
  lemma VerdictExact(f: Flow, e: Event, r: Rule, now: Time)
    requires Saved(f, r)
    ensures
      var typ := Resolve(r.eventType, e.doc.body);
      var count := |f.events| + if IsDuplicate(f, e, r) then 0 else 1;
      var v, g := Verdict(f, e, r, now), Applied(f, e, r, now);
      var full := !IsDuplicate(f, e, r)
                  && (0 < r.maxEventBytes < e.doc.size || 0 < r.maxFlowBytes < f.bytes + e.doc.size
                      || 0 < r.maxEvents <= count);
      && (v == Some(TerminalEvent) <==> typ.Some? && typ.value in r.terminalEvents)
      && (v == Some(LimitExceeded) <==> full && !(typ.Some? && typ.value in r.terminalEvents))
      && (v == Some(InvocationsComplete) <==>
            && !full && !(typ.Some? && typ.value in r.terminalEvents) && r.closeWhenComplete
            && g.invocations != [] && (forall i :: 0 <= i < |g.invocations| ==> g.invocations[i].complete)
            && (r.settle <= 0 || (Settling(f) && f.settleUntil <= now)))
      && v != Some(Timeout) && v != Some(RuleUnavailable)
  {
    hide Applied, IsDuplicate, Resolve;
    ApplyLatches(f, e, r, now);
    ApplyCounts(f, e, r, now);
    ApplyLeavesDeadline(f, e, r, now);
  }

  // ---------- limits ----------

  /** No stored event is too large, nor are all of them together. */
  predicate WithinBytes(f: Flow, r: Rule)
  {
    && (0 < r.maxFlowBytes ==> f.bytes <= r.maxFlowBytes)
    && (0 < r.maxEventBytes ==> forall i :: 0 <= i < |f.events| ==> f.events[i].doc.size <= r.maxEventBytes)
  }

  predicate WithinLimits(f: Flow, r: Rule)
  {
    WithinBytes(f, r) && (0 < r.maxEvents ==> |f.events| < r.maxEvents)
  }

  /** The byte limits hold until the latch says otherwise. */
  predicate Latched(f: Flow, r: Rule)
  {
    !f.limitExceeded ==> WithinBytes(f, r)
  }

  lemma ApplyKeepsLatch(f: Flow, e: Event, r: Rule, now: Time)
    requires Latched(f, r)
    ensures Latched(Applied(f, e, r, now), r)
  {
    hide Applied, IsDuplicate, Resolve;
    ApplyLatches(f, e, r, now);
    ApplyCounts(f, e, r, now);
  }

  lemma SavedIsWithin(f: Flow, r: Rule)
    requires Saved(f, r) && Latched(f, r)
    ensures WithinLimits(f, r)
  {
  }

  lemma {:induction false} RunIsLatched(f: Flow, inputs: seq<Input>, r: Rule)
    requires Latched(f, r)
    ensures Latched(AcceptAll(f, inputs, r), r)
    decreases |inputs|
  {
    hide Applied, Latched, Considered;
    if inputs != [] {
      var n := |inputs| - 1;
      RunIsLatched(f, inputs[..n], r);
      var g := AcceptAll(f, inputs[..n], r);
      ApplyKeepsLatch(g, inputs[n].event, r, inputs[n].now);
      ConsideredKeepsLatch(Applied(g, inputs[n].event, r, inputs[n].now), r, inputs[n].now);
    }
  }

  lemma ConsideredKeepsLatch(f: Flow, r: Rule, now: Time)
    requires Latched(f, r)
    ensures Latched(Considered(f, r, now), r)
  {
    hide CloseCondition, AtLimit;
  }

  /** After every run that keeps a flow open, it is within all its limits. */
  lemma RunIsWithinLimits(key: FlowKey, r: Rule, first: Event, inputs: seq<Input>)
    requires inputs != [] && StaysOpen(Open(key, r, first), inputs, r)
    ensures WithinLimits(AcceptAll(Open(key, r, first), inputs, r), r)
  {
    hide Open, AcceptAll, StaysOpen, Saved, Latched, WithinLimits;
    OpenAgrees(key, r, first);
    RunDeadlineAgrees(Open(key, r, first), inputs, r);
    OpenIsLatched(key, r, first);
    RunIsLatched(Open(key, r, first), inputs, r);
    SavedIsWithin(AcceptAll(Open(key, r, first), inputs, r), r);
  }

  lemma OpenIsLatched(key: FlowKey, r: Rule, first: Event)
    ensures Latched(Open(key, r, first), r)
  {
  }
}
