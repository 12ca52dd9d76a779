/** The correlation aggregate of internal/domain/flow/flow.go as a value: what Open, Apply and
    ShouldClose make of it. FlowAggregate holds the object that is updated in place. */
module FlowModel {
  import opened ByteText
  import opened Decimal
  import opened PathLanguage
  import opened Rules

  /** A producer document with the length of its JSON encoding. */
  datatype Document = Document(body: Json, size: nat)

  datatype Event = Event(doc: Document, observedAt: Time)

  datatype FlowKey = FlowKey(ruleId: Text, correlationKey: Text)

  /** Evidence of a second, different event for an occupied role. */
  datatype Anomaly = CardinalityExceeded(stitchId: Text, role: Text, at: Time)

  datatype Invocation = Invocation(
    identity: Text,
    stitchId: Text,
    group: map<Text, Text>,
    members: map<Text, Event>,
    complete: bool,
    duplicateCount: nat,
    firstObservedAt: Time,
    order: nat)

  datatype PlainEntry = PlainEntry(event: Event, order: nat)

  datatype Flow = Flow(
    key: FlowKey,
    ruleVersion: Text,
    pinnedRule: Rule,
    events: seq<Event>,
    invocations: seq<Invocation>,
    plain: seq<PlainEntry>,
    firstObservedAt: Time,
    updatedAt: Time,
    timeoutAt: Time,
    expiresAt: Time,
    settleUntil: Time,
    duplicateCount: nat,
    duplicates: map<Text, nat>,
    anomalies: seq<Anomaly>,
    terminalSeen: bool,
    limitExceeded: bool,
    bytes: nat,
    nextOrder: nat)

  datatype Reason = TerminalEvent | LimitExceeded | InvocationsComplete | Timeout | RuleUnavailable

  function Open(key: FlowKey, r: Rule, first: Event): Flow
  {
    var timeoutAt := first.observedAt + r.timeout;
    Flow(key, r.version, r, [], [], [], first.observedAt, first.observedAt, timeoutAt, timeoutAt, ZERO_TIME,
         0, map[], [], false, false, 0, 0)
  }

  // ---------- slots ----------

  /** Where a document belongs: role `role` of the invocation of stitch `index` with these group values. */
  datatype Slot = Slot(index: nat, role: Text, typ: Text, values: seq<Text>)

  function GroupValues(paths: seq<Path>, doc: Json): (values: Option<seq<Text>>)
    ensures values.Some? ==> |values.value| == |paths|
  {
    if paths == [] then Some([])
    else match GroupValues(paths[..|paths| - 1], doc)
      case None => None
      case Some(before) =>
        match Resolve(paths[|paths| - 1], doc)
        case None => None
        case Some(value) => Some(before + [value])
  }

  function SlotOf(r: Rule, doc: Json): (slot: Option<Slot>)
    ensures slot.Some? ==> slot.value.index < |r.stitch|
    ensures slot.Some? ==> |slot.value.values| == |r.stitch[slot.value.index].groupBy|
  {
    match Resolve(r.eventType, doc)
    case None => None
    case Some(typ) =>
      match FirstClaim(Claims(r), typ)
      case None => None
      case Some(claim) =>
        match GroupValues(r.stitch[claim.index].groupBy, doc)
        case None => None
        case Some(values) => Some(Slot(claim.index, claim.role, typ, values))
  }

  function Prefixed(value: Text): Text
  {
    Digits(|value|) + ":" + value
  }

  /** The length-prefixed identity of an invocation. */
  function InvocationKey(stitchId: Text, values: seq<Text>): Text
  {
    if values == [] then Prefixed(stitchId)
    else InvocationKey(stitchId, values[..|values| - 1]) + (":" + Prefixed(values[|values| - 1]))
  }

  function Identity(r: Rule, slot: Slot): Text
    requires slot.index < |r.stitch|
  {
    InvocationKey(r.stitch[slot.index].id, slot.values)
  }

  /** The group shown in the output: field name to value. */
  function GroupOf(s: Stitch, values: seq<Text>): map<Text, Text>
    requires |values| == |s.groupBy|
  {
    Zip(FieldNames(s.groupBy), values)
  }

  function Zip(names: seq<Text>, values: seq<Text>): map<Text, Text>
    requires |names| == |values|
  {
    if names == [] then map[]
    else
      var n := |names| - 1;
      Zip(names[..n], values[..n])[names[n] := values[n]]
  }

  // ---------- Apply ----------

  predicate Over(limit: int, amount: int)
  {
    limit > 0 && amount > limit
  }

  function StoreEvent(f: Flow, e: Event, r: Rule): Flow
  {
    f.(events := f.events + [e],
       bytes := f.bytes + e.doc.size,
       limitExceeded := f.limitExceeded || Over(r.maxEventBytes, e.doc.size)
                        || Over(r.maxFlowBytes, f.bytes + e.doc.size))
  }

  function AppendPlain(f: Flow, e: Event, r: Rule): Flow
  {
    var g := StoreEvent(f, e, r);
    g.(plain := g.plain + [PlainEntry(e, g.nextOrder)], nextOrder := g.nextOrder + 1)
  }

  /** Position of the invocation with this identity, or the length when there is none. */
  function Find(invocations: seq<Invocation>, identity: Text): (i: nat)
    ensures i <= |invocations|
    ensures i < |invocations| ==> invocations[i].identity == identity
    ensures forall j :: 0 <= j < i ==> invocations[j].identity != identity
  {
    if invocations == [] then 0
    else if invocations[0].identity == identity then 0
    else 1 + Find(invocations[1..], identity)
  }

  function Count(counts: map<Text, nat>, key: Text): nat
  {
    if key in counts then counts[key] else 0
  }

  /** The flow with the slot's invocation present. */
  function WithInvocation(f: Flow, e: Event, r: Rule, slot: Slot): (g: Flow)
    requires SlotOf(r, e.doc.body) == Some(slot)
    ensures Find(g.invocations, Identity(r, slot)) == Find(f.invocations, Identity(r, slot)) < |g.invocations|
  {
    var identity := Identity(r, slot);
    var i := Find(f.invocations, identity);
    if i < |f.invocations| then f
    else
      var s := r.stitch[slot.index];
      var created := Invocation(identity, s.id, GroupOf(s, slot.values), map[], false, 0, e.observedAt, f.nextOrder);
      var g := f.(invocations := f.invocations + [created], nextOrder := f.nextOrder + 1);
      assert Find(g.invocations, identity) == i by { FindAppended(f.invocations, created); }
      g
  }

  lemma {:induction false} FindAppended(invocations: seq<Invocation>, created: Invocation)
    requires Find(invocations, created.identity) == |invocations|
    ensures Find(invocations + [created], created.identity) == |invocations|
  {
    var all := invocations + [created];
    var i := Find(all, created.identity);
    assert all[|invocations|] == created;
    assert forall j :: 0 <= j < |invocations| ==> all[j] == invocations[j];
  }

  predicate Filled(members: map<Text, Event>, required: set<Text>)
  {
    forall role :: role in required ==> role in members
  }

  function Occupied(invocation: Invocation, s: Stitch, role: Text, e: Event): Invocation
  {
    var members := invocation.members[role := e];
    invocation.(members := members, complete := invocation.complete || Filled(members, RequiredRoles(s)))
  }

  /** One event assigned to the slot `slot`, whose invocation is already present at `i`. */
  function Stitched(f: Flow, e: Event, r: Rule, now: Time, slot: Slot, i: nat): Flow
    requires slot.index < |r.stitch| && i < |f.invocations|
  {
    var s, invocation := r.stitch[slot.index], f.invocations[i];
    if slot.role !in invocation.members then
      StoreEvent(f, e, r).(invocations := f.invocations[i := Occupied(invocation, s, slot.role, e)])
    else if invocation.members[slot.role].doc.body == e.doc.body then
      f.(duplicateCount := f.duplicateCount + 1,
         duplicates := f.duplicates[slot.typ := Count(f.duplicates, slot.typ) + 1],
         invocations := f.invocations[i := invocation.(duplicateCount := invocation.duplicateCount + 1)])
    else
      AppendPlain(f.(anomalies := f.anomalies + [CardinalityExceeded(s.id, slot.role, now)]), e, r)
  }

  predicate MarksTerminal(r: Rule, doc: Json)
  {
    var typ := Resolve(r.eventType, doc);
    typ.Some? && IsTerminal(r, typ.value)
  }

  function Applied(f: Flow, e: Event, r: Rule, now: Time): Flow
  {
    var f' := f.(terminalSeen := f.terminalSeen || MarksTerminal(r, e.doc.body), updatedAt := now);
    match SlotOf(r, e.doc.body)
    case None => AppendPlain(f', e, r)
    case Some(slot) =>
      Stitched(WithInvocation(f', e, r, slot), e, r, now, slot, Find(f.invocations, Identity(r, slot)))
  }

  /** Whether Apply reports the event as a duplicate. */
  predicate IsDuplicate(f: Flow, e: Event, r: Rule)
  {
    match SlotOf(r, e.doc.body)
    case None => false
    case Some(slot) =>
      var i := Find(f.invocations, Identity(r, slot));
      && i < |f.invocations| && slot.role in f.invocations[i].members
      && f.invocations[i].members[slot.role].doc.body == e.doc.body
  }

  // ---------- ShouldClose ----------

  /** At least one complete invocation and none incomplete. */
  predicate AllComplete(invocations: seq<Invocation>)
  {
    invocations != [] && forall i :: 0 <= i < |invocations| ==> invocations[i].complete
  }

  predicate CloseCondition(f: Flow, r: Rule)
  {
    r.closeWhenComplete && AllComplete(f.invocations)
  }

  predicate AtLimit(f: Flow, r: Rule)
  {
    f.limitExceeded || (r.maxEvents > 0 && |f.events| >= r.maxEvents)
  }

  predicate Settling(f: Flow)
  {
    f.settleUntil != ZERO_TIME
  }

  function MinTime(a: Time, b: Time): Time
  {
    if a < b then a else b
  }

  function CloseReason(f: Flow, r: Rule, now: Time): Option<Reason>
  {
    if f.terminalSeen then Some(TerminalEvent)
    else if AtLimit(f, r) then Some(LimitExceeded)
    else if !CloseCondition(f, r) then None
    else if r.settle <= 0 then Some(InvocationsComplete)
    else if !Settling(f) || now < f.settleUntil then None
    else Some(InvocationsComplete)
  }

  /** The flow after ShouldClose looked at it: it may start or cancel the settle window. */
  function Considered(f: Flow, r: Rule, now: Time): Flow
  {
    if f.terminalSeen || AtLimit(f, r) then f
    else if !CloseCondition(f, r) then
      if Settling(f) then f.(settleUntil := ZERO_TIME, expiresAt := f.timeoutAt) else f
    else if r.settle <= 0 || Settling(f) then f
    else f.(settleUntil := now + r.settle, expiresAt := MinTime(f.timeoutAt, now + r.settle))
  }

  // ---------- identities are injective ----------

  lemma SplitAtColon(a: Text, u: Text, b: Text, v: Text)
    requires ':' !in a && ':' !in b
    requires a + ":" + u == b + ":" + v
    ensures a == b && u == v
  {
    var s := a + ":" + u;
    assert s[|a|] == ':' && s[|b|] == ':';
    assert forall i :: 0 <= i < |a| ==> s[i] == a[i];
    assert forall i :: 0 <= i < |b| ==> s[i] == b[i];
    assert |a| == |b|;
    assert s[..|a|] == a && s[..|b|] == b && s[|a| + 1..] == u && s[|b| + 1..] == v;
  }

  lemma PrefixedHead(a: Text, u: Text, b: Text, v: Text)
    requires Prefixed(a) + u == Prefixed(b) + v
    ensures a == b && u == v
  {
    hide Digits;
    assert Prefixed(a) + u == Digits(|a|) + ":" + (a + u);
    assert Prefixed(b) + v == Digits(|b|) + ":" + (b + v);
    SplitAtColon(Digits(|a|), a + u, Digits(|b|), b + v);
    DigitsInjective(|a|, |b|);
    assert (a + u)[..|a|] == a && (b + v)[..|b|] == b;
    assert (a + u)[|a|..] == u && (b + v)[|b|..] == v;
  }

  /** The same identity read front to back. */
  function KeyTail(values: seq<Text>): Text
  {
    if values == [] then "" else ":" + Prefixed(values[0]) + KeyTail(values[1..])
  }

  lemma {:induction false} KeyTailSnoc(values: seq<Text>, last: Text)
    ensures KeyTail(values + [last]) == KeyTail(values) + (":" + Prefixed(last))
    decreases |values|
  {
    hide Prefixed;
    var all := values + [last];
    if values == [] {
      assert all[1..] == [];
      assert KeyTail([]) == "";
    } else {
      assert all[0] == values[0] && all[1..] == values[1..] + [last];
      KeyTailSnoc(values[1..], last);
    }
  }

  lemma {:induction false} KeyFrontToBack(stitchId: Text, values: seq<Text>)
    ensures InvocationKey(stitchId, values) == Prefixed(stitchId) + KeyTail(values)
    decreases |values|
  {
    hide Prefixed;
    if values != [] {
      var n := |values| - 1;
      KeyFrontToBack(stitchId, values[..n]);
      assert values == values[..n] + [values[n]];
      KeyTailSnoc(values[..n], values[n]);
    }
  }

  lemma {:induction false} KeyTailInjective(vs: seq<Text>, ws: seq<Text>)
    requires KeyTail(vs) == KeyTail(ws)
    ensures vs == ws
    decreases |vs|
  {
    hide Prefixed;
    if vs != [] && ws != [] {
      var u, v := KeyTail(vs[1..]), KeyTail(ws[1..]);
      assert KeyTail(vs)[1..] == Prefixed(vs[0]) + u;
      assert KeyTail(ws)[1..] == Prefixed(ws[0]) + v;
      PrefixedHead(vs[0], u, ws[0], v);
      KeyTailInjective(vs[1..], ws[1..]);
      assert vs == [vs[0]] + vs[1..] && ws == [ws[0]] + ws[1..];
    }
  }

  /** Different stitch names or group values never share an invocation, whatever bytes they hold. */
  lemma InvocationKeyInjective(a: Text, vs: seq<Text>, b: Text, ws: seq<Text>)
    requires InvocationKey(a, vs) == InvocationKey(b, ws)
    ensures a == b && vs == ws
  {
    hide InvocationKey, Prefixed, KeyTail;
    KeyFrontToBack(a, vs);
    KeyFrontToBack(b, ws);
    PrefixedHead(a, KeyTail(vs), b, KeyTail(ws));
    KeyTailInjective(vs, ws);
  }

  /** No group value is lost in the output: the names are distinct. */
  lemma GroupKeepsValues(s: Stitch, values: seq<Text>, i: nat)
    requires |values| == |s.groupBy| && i < |values|
    ensures FieldNames(s.groupBy)[i] in GroupOf(s, values)
    ensures GroupOf(s, values)[FieldNames(s.groupBy)[i]] == values[i]
  {
    ZipKeeps(FieldNames(s.groupBy), values, i);
  }

  lemma {:induction false} ZipKeeps(names: seq<Text>, values: seq<Text>, i: nat)
    requires |names| == |values| && i < |names|
    requires forall j, k :: 0 <= j < k < |names| ==> names[j] != names[k]
    ensures names[i] in Zip(names, values) && Zip(names, values)[names[i]] == values[i]
    decreases |names|
  {
    var n := |names| - 1;
    if i < n {
      ZipKeeps(names[..n], values[..n], i);
    }
  }
}
