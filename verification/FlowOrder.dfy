/** Stitching is order-independent: the correlated content of a flow depends only on which
    documents were applied, as long as documents contending for one slot are equal. */
module FlowOrder {
  import opened ByteText
  import opened Rules
  import opened FlowModel
  import opened FlowAccounting

  /** One invocation without its arrival times and timeline position. */
  datatype Group = Group(stitchId: Text, group: map<Text, Text>, docs: map<Text, Document>, complete: bool,
      duplicateCount: nat)

  /** What a flow correlated, forgetting the order of arrival. */
  datatype View = View(
    groups: map<Text, Group>,
    plain: multiset<Document>,
    stored: multiset<Document>,
    duplicateCount: nat,
    duplicates: map<Text, nat>,
    bytes: nat,
    terminalSeen: bool,
    limitExceeded: bool)

  function GroupView(v: Invocation): Group
  {
    Group(v.stitchId, v.group, map role | role in v.members :: v.members[role].doc, v.complete, v.duplicateCount)
  }

  function GroupViews(invocations: seq<Invocation>): map<Text, Group>
  {
    if invocations == [] then map[]
    else
      var last := invocations[|invocations| - 1];
      GroupViews(invocations[..|invocations| - 1])[last.identity := GroupView(last)]
  }

  function EventDocs(events: seq<Event>): multiset<Document>
  {
    if events == [] then multiset{} else EventDocs(events[..|events| - 1]) + multiset{events[|events| - 1].doc}
  }

  function PlainDocs(plain: seq<PlainEntry>): multiset<Document>
  {
    if plain == [] then multiset{} else PlainDocs(plain[..|plain| - 1]) + multiset{plain[|plain| - 1].event.doc}
  }

  function ViewOf(f: Flow): View
  {
    View(GroupViews(f.invocations), PlainDocs(f.plain), EventDocs(f.events),
         f.duplicateCount, f.duplicates, f.bytes, f.terminalSeen, f.limitExceeded)
  }

  // ---------- Apply on views ----------

  predicate SlotTaken(groups: map<Text, Group>, r: Rule, slot: Slot)
    requires slot.index < |r.stitch|
  {
    Identity(r, slot) in groups && slot.role in groups[Identity(r, slot)].docs
  }

  function GroupFor(groups: map<Text, Group>, r: Rule, slot: Slot): Group
    requires slot.index < |r.stitch| && |slot.values| == |r.stitch[slot.index].groupBy|
  {
    var s, identity := r.stitch[slot.index], Identity(r, slot);
    if identity in groups then groups[identity] else Group(s.id, GroupOf(s, slot.values), map[], false, 0)
  }

  predicate FilledDocs(docs: map<Text, Document>, required: set<Text>)
  {
    forall role :: role in required ==> role in docs
  }

  function Fill(g: Group, s: Stitch, role: Text, d: Document): Group
  {
    var docs := g.docs[role := d];
    g.(docs := docs, complete := g.complete || FilledDocs(docs, RequiredRoles(s)))
  }

  function Store(v: View, d: Document, r: Rule): View
  {
    v.(stored := v.stored + multiset{d},
       bytes := v.bytes + d.size,
       limitExceeded := v.limitExceeded || Over(r.maxEventBytes, d.size) || Over(r.maxFlowBytes, v.bytes + d.size))
  }

  function Mark(v: View, d: Document, r: Rule): View
  {
    v.(terminalSeen := v.terminalSeen || MarksTerminal(r, d.body))
  }

  function SeenInSlot(v: View, d: Document, r: Rule, slot: Slot): View
    requires slot.index < |r.stitch| && |slot.values| == |r.stitch[slot.index].groupBy|
  {
    var identity, g := Identity(r, slot), GroupFor(v.groups, r, slot);
    if slot.role !in g.docs then
      Store(v, d, r).(groups := v.groups[identity := Fill(g, r.stitch[slot.index], slot.role, d)])
    else if g.docs[slot.role] == d then
      v.(duplicateCount := v.duplicateCount + 1,
         duplicates := v.duplicates[slot.typ := Count(v.duplicates, slot.typ) + 1],
         groups := v.groups[identity := g.(duplicateCount := g.duplicateCount + 1)])
    else
      Store(v, d, r).(plain := v.plain + multiset{d})
  }

  function Seen(v: View, d: Document, r: Rule): View
  {
    match SlotOf(r, d.body)
    case None => Store(Mark(v, d, r), d, r).(plain := v.plain + multiset{d})
    case Some(slot) => SeenInSlot(Mark(v, d, r), d, r, slot)
  }

  // ---------- views follow Apply ----------

  predicate DistinctIdentities(invocations: seq<Invocation>)
  {
    forall i, j :: 0 <= i < j < |invocations| ==> invocations[i].identity != invocations[j].identity
  }

  lemma {:induction false} GroupViewsLookup(invocations: seq<Invocation>, identity: Text)
    requires DistinctIdentities(invocations)
    ensures identity in GroupViews(invocations) <==> Find(invocations, identity) < |invocations|
    ensures identity in GroupViews(invocations) ==>
              GroupViews(invocations)[identity] == GroupView(invocations[Find(invocations, identity)])
    decreases |invocations|
  {
    hide GroupView;
    if invocations != [] {
      var n := |invocations| - 1;
      GroupViewsLookup(invocations[..n], identity);
      var i := Find(invocations, identity);
      assert forall j :: 0 <= j < n ==> invocations[..n][j] == invocations[j];
      if invocations[n].identity == identity {
        assert i == n;
      }
    }
  }

  lemma {:induction false} GroupViewsUpdate(invocations: seq<Invocation>, i: nat, v: Invocation)
    requires DistinctIdentities(invocations) && i < |invocations| && v.identity == invocations[i].identity
    ensures GroupViews(invocations[i := v]) == GroupViews(invocations)[v.identity := GroupView(v)]
    decreases |invocations|
  {
    hide GroupView;
    var n, updated := |invocations| - 1, invocations[i := v];
    if i == n {
      assert updated[..n] == invocations[..n];
    } else {
      GroupViewsUpdate(invocations[..n], i, v);
      assert updated[..n] == invocations[..n][i := v];
      assert invocations[n].identity != v.identity;
    }
  }

  lemma GroupViewsSnoc(invocations: seq<Invocation>, v: Invocation)
    ensures GroupViews(invocations + [v]) == GroupViews(invocations)[v.identity := GroupView(v)]
  {
    assert (invocations + [v])[..|invocations|] == invocations;
  }

  lemma StoreFollows(f: Flow, e: Event, r: Rule)
    ensures ViewOf(StoreEvent(f, e, r)) == Store(ViewOf(f), e.doc, r)
  {
    assert (f.events + [e])[..|f.events|] == f.events;
  }

  lemma PlainFollows(f: Flow, e: Event, r: Rule)
    ensures ViewOf(AppendPlain(f, e, r)) == Store(ViewOf(f), e.doc, r).(plain := PlainDocs(f.plain) + multiset{e.doc})
  {
    hide EventDocs, GroupViews, Over;
    StoreFollows(f, e, r);
    var p := PlainEntry(e, f.nextOrder);
    assert (f.plain + [p])[..|f.plain|] == f.plain;
  }

  /** The invocation a slot names, in the flow and in its view. */
  lemma SlotFollows(f: Flow, e: Event, r: Rule, slot: Slot)
    requires DistinctIdentities(f.invocations) && SlotOf(r, e.doc.body) == Some(slot)
    ensures
      var g, i := WithInvocation(f, e, r, slot), Find(f.invocations, Identity(r, slot));
      && DistinctIdentities(g.invocations) && i < |g.invocations| && g.invocations[i].identity == Identity(r, slot)
      && GroupView(g.invocations[i]) == GroupFor(GroupViews(f.invocations), r, slot)
      && GroupViews(g.invocations) == GroupViews(f.invocations)[Identity(r, slot) := GroupView(g.invocations[i])]
  {
    hide SlotOf, GroupOf, GroupViews, Identity;
    var identity := Identity(r, slot);
    var g, i := WithInvocation(f, e, r, slot), Find(f.invocations, identity);
    GroupViewsLookup(f.invocations, identity);
    if i == |f.invocations| {
      GroupViewsSnoc(f.invocations, g.invocations[i]);
    } else {
      assert GroupViews(f.invocations)[identity := GroupView(g.invocations[i])] == GroupViews(f.invocations);
    }
  }

  lemma OccupiedFollows(v: Invocation, s: Stitch, role: Text, e: Event)
    ensures GroupView(Occupied(v, s, role, e)) == Fill(GroupView(v), s, role, e.doc)
  {
    hide RequiredRoles;
    var members := v.members[role := e];
    assert (map x | x in members :: members[x].doc) == (map x | x in v.members :: v.members[x].doc)[role := e.doc];
  }

  /** No anomaly occurs: whoever sits in the event's slot carries the same document. */
  predicate Agrees(groups: map<Text, Group>, d: Document, r: Rule)
  {
    var slot := SlotOf(r, d.body);
    slot.Some? && SlotTaken(groups, r, slot.value) ==> groups[Identity(r, slot.value)].docs[slot.value.role] == d
  }

  /** `g` is `f` with the slot's invocation present at `i`. */
  predicate Prepared(f: Flow, g: Flow, r: Rule, slot: Slot, i: nat)
    requires slot.index < |r.stitch| && |slot.values| == |r.stitch[slot.index].groupBy|
  {
    && DistinctIdentities(g.invocations) && i < |g.invocations| && g.invocations[i].identity == Identity(r, slot)
    && GroupView(g.invocations[i]) == GroupFor(GroupViews(f.invocations), r, slot)
    && GroupViews(g.invocations) == GroupViews(f.invocations)[Identity(r, slot) := GroupView(g.invocations[i])]
    && ViewOf(g) == ViewOf(f).(groups := GroupViews(g.invocations))
  }

  lemma FillFollows(f: Flow, g: Flow, e: Event, r: Rule, now: Time, slot: Slot, i: nat)
    requires slot.index < |r.stitch| && |slot.values| == |r.stitch[slot.index].groupBy|
    requires Prepared(f, g, r, slot, i) && slot.role !in g.invocations[i].members
    ensures ViewOf(Stitched(g, e, r, now, slot, i)) == SeenInSlot(ViewOf(f), e.doc, r, slot)
  {
    hide GroupViews, GroupFor, Identity, EventDocs, PlainDocs, Over, Fill, Occupied, Filled;
    var v := g.invocations[i];
    var v' := Occupied(v, r.stitch[slot.index], slot.role, e);
    StoreFollows(g, e, r);
    OccupiedFollows(v, r.stitch[slot.index], slot.role, e);
    OccupiedKeepsIdentity(v, r.stitch[slot.index], slot.role, e);
    GroupViewsUpdate(g.invocations, i, v');
  }

  lemma DuplicateFollows(f: Flow, g: Flow, e: Event, r: Rule, now: Time, slot: Slot, i: nat)
    requires slot.index < |r.stitch| && |slot.values| == |r.stitch[slot.index].groupBy|
    requires Prepared(f, g, r, slot, i)
    requires slot.role in g.invocations[i].members && g.invocations[i].members[slot.role].doc == e.doc
    ensures ViewOf(Stitched(g, e, r, now, slot, i)) == SeenInSlot(ViewOf(f), e.doc, r, slot)
  {
    hide GroupViews, GroupFor, Identity, EventDocs, PlainDocs, Store, StoreEvent, AppendPlain, Fill, Occupied;
    var v := g.invocations[i];
    var v' := v.(duplicateCount := v.duplicateCount + 1);
    GroupViewsUpdate(g.invocations, i, v');
    assert GroupView(v') == GroupView(v).(duplicateCount := v.duplicateCount + 1);
  }

  lemma OccupiedKeepsIdentity(v: Invocation, s: Stitch, role: Text, e: Event)
    ensures Occupied(v, s, role, e).identity == v.identity
  {
  }

  /** Applying an event and viewing is viewing and seeing its document. */
  lemma ApplyFollows(f: Flow, e: Event, r: Rule, now: Time)
    requires DistinctIdentities(f.invocations)
    requires Agrees(GroupViews(f.invocations), e.doc, r)
    ensures ViewOf(Applied(f, e, r, now)) == Seen(ViewOf(f), e.doc, r)
  {
    hide SlotOf, Stitched, SeenInSlot, AppendPlain, Store, GroupViews, Identity, MarksTerminal, EventDocs, PlainDocs;
    var f' := f.(terminalSeen := f.terminalSeen || MarksTerminal(r, e.doc.body), updatedAt := now);
    assert ViewOf(f') == Mark(ViewOf(f), e.doc, r);
    match SlotOf(r, e.doc.body)
    case None => PlainFollows(f', e, r);
    case Some(slot) =>
      SlotFollows(f', e, r, slot);
      var g, i := WithInvocation(f', e, r, slot), Find(f.invocations, Identity(r, slot));
      OnlyInvocationsDiffer(f', e, r, slot);
      assert Prepared(f', g, r, slot, i);
      if slot.role in g.invocations[i].members {
        DuplicateFollows(f', g, e, r, now, slot, i);
      } else {
        FillFollows(f', g, e, r, now, slot, i);
      }
  }

  lemma OnlyInvocationsDiffer(f: Flow, e: Event, r: Rule, slot: Slot)
    requires SlotOf(r, e.doc.body) == Some(slot)
    ensures ViewOf(WithInvocation(f, e, r, slot)) ==
            ViewOf(f).(groups := GroupViews(WithInvocation(f, e, r, slot).invocations))
  {
    hide SlotOf, GroupOf, GroupViews, EventDocs, PlainDocs, Find, Identity;
  }

  // ---------- seeing two documents commutes ----------

  /** Documents of `docs` that contend for a slot are equal. */
  predicate NoContention(docs: set<Document>, r: Rule)
  {
    forall a, b :: a in docs && b in docs && SameSlot(r, a, b) ==> a == b
  }

  predicate SameSlot(r: Rule, a: Document, b: Document)
  {
    var s, t := SlotOf(r, a.body), SlotOf(r, b.body);
    s.Some? && t.Some? && Identity(r, s.value) == Identity(r, t.value) && s.value.role == t.value.role
  }

  /** Every slot is filled by a document of `docs` that belongs there. */
  predicate FilledFrom(groups: map<Text, Group>, docs: set<Document>, r: Rule)
  {
    forall identity, role :: identity in groups && role in groups[identity].docs ==>
      SitsIn(groups[identity].docs[role], docs, r, identity, role)
  }

  predicate SitsIn(d: Document, docs: set<Document>, r: Rule, identity: Text, role: Text)
  {
    var slot := SlotOf(r, d.body);
    d in docs && slot.Some? && Identity(r, slot.value) == identity && slot.value.role == role
  }

  lemma NeverDisagrees(groups: map<Text, Group>, docs: set<Document>, r: Rule, d: Document)
    requires NoContention(docs, r) && FilledFrom(groups, docs, r) && d in docs
    ensures Agrees(groups, d, r)
  {
    hide SlotOf, Identity;
    var slot := SlotOf(r, d.body);
    if slot.Some? && SlotTaken(groups, r, slot.value) {
      var sitting := groups[Identity(r, slot.value)].docs[slot.value.role];
      assert SitsIn(sitting, docs, r, Identity(r, slot.value), slot.value.role);
      assert SameSlot(r, sitting, d);
    }
  }

  /** Two slots of one invocation belong to stitches of one name, with the same group values. */
  lemma SameInvocation(r: Rule, s: Slot, t: Slot)
    requires s.index < |r.stitch| && t.index < |r.stitch| && Identity(r, s) == Identity(r, t)
    ensures r.stitch[s.index].id == r.stitch[t.index].id && s.values == t.values
  {
    InvocationKeyInjective(r.stitch[s.index].id, s.values, r.stitch[t.index].id, t.values);
  }

  predicate IsSlot(r: Rule, s: Slot)
  {
    s.index < |r.stitch| && |s.values| == |r.stitch[s.index].groupBy|
  }

  /** Filling role `p` for stitch `s` and role `q` for stitch `t` latches completeness alike in both
      orders: when `t` needs `p`, whatever completes `t` with both roles completes `s` too, and conversely. */
  predicate Interchange(s: Stitch, p: Text, t: Stitch, q: Text)
  {
    var a, b := RequiredRoles(s), RequiredRoles(t);
    (p in b ==> a <= b + {p, q}) && (q in a ==> b <= a + {p, q})
  }

  /** Slots of one invocation show the same group and fill interchangeably. */
  predicate Compatible(r: Rule, s: Slot, t: Slot)
    requires IsSlot(r, s) && IsSlot(r, t)
  {
    Identity(r, s) == Identity(r, t) && s.role != t.role ==>
      && GroupOf(r.stitch[s.index], s.values) == GroupOf(r.stitch[t.index], t.values)
      && Interchange(r.stitch[s.index], s.role, r.stitch[t.index], t.role)
  }

  predicate CompatibleDocs(r: Rule, a: Document, b: Document)
  {
    var s, t := SlotOf(r, a.body), SlotOf(r, b.body);
    s.Some? && t.Some? ==> Compatible(r, s.value, t.value)
  }

  predicate Harmonious(docs: set<Document>, r: Rule)
  {
    forall a, b :: a in docs && b in docs ==> CompatibleDocs(r, a, b)
  }

  /** Stitches that share no invocation are always in harmony. */
  lemma SeparateIsHarmonious(docs: set<Document>, r: Rule)
    requires SeparateStitches(r)
    ensures Harmonious(docs, r)
  {
    hide SlotOf, GroupOf, RequiredRoles;
    forall a, b | a in docs && b in docs ensures CompatibleDocs(r, a, b) {
      var s, t := SlotOf(r, a.body), SlotOf(r, b.body);
      if s.Some? && t.Some? && Identity(r, s.value) == Identity(r, t.value) {
        SameInvocation(r, s.value, t.value);
      }
    }
  }

  /** The groups after a document that agrees with its slot. */
  function GroupsAfter(groups: map<Text, Group>, d: Document, r: Rule, slot: Slot): map<Text, Group>
    requires slot.index < |r.stitch| && |slot.values| == |r.stitch[slot.index].groupBy|
  {
    var g := GroupFor(groups, r, slot);
    groups[Identity(r, slot) := Seat(g, r.stitch[slot.index], slot.role, d)]
  }

  /** A document takes its role, or is counted as a duplicate of the one that has it. */
  function Seat(g: Group, s: Stitch, role: Text, d: Document): Group
  {
    if role in g.docs then g.(duplicateCount := g.duplicateCount + 1) else Fill(g, s, role, d)
  }

  predicate SeatsAgree(g: Group, s: Stitch, p: Text, a: Document, t: Stitch, q: Text, b: Document)
  {
    Seat(Seat(g, s, p, a), t, q, b) == Seat(Seat(g, t, q, b), s, p, a)
  }

  lemma FilledIsSubset(docs: map<Text, Document>, required: set<Text>)
    ensures FilledDocs(docs, required) <==> required <= docs.Keys
  {
  }

  /** The two orders differ in the completeness latch at most. */
  lemma FillsAgree(g: Group, s: Stitch, p: Text, a: Document, t: Stitch, q: Text, b: Document)
    requires p != q && p !in g.docs && q !in g.docs
    ensures
      var x, y, d := RequiredRoles(s), RequiredRoles(t), g.docs.Keys;
      SeatsAgree(g, s, p, a, t, q, b) <==>
        (g.complete || x <= d + {p} || y <= d + {p, q} <==> g.complete || y <= d + {q} || x <= d + {p, q})
  {
    hide RequiredRoles, FilledDocs;
    var d := g.docs.Keys;
    FilledIsSubset(g.docs[p := a], RequiredRoles(s));
    FilledIsSubset(g.docs[p := a][q := b], RequiredRoles(t));
    FilledIsSubset(g.docs[q := b], RequiredRoles(t));
    FilledIsSubset(g.docs[q := b][p := a], RequiredRoles(s));
    assert g.docs[p := a][q := b] == g.docs[q := b][p := a];
    assert g.docs[p := a].Keys == d + {p} && g.docs[q := b].Keys == d + {q} && g.docs[p := a][q := b].Keys ==
        d + {p, q};
  }

  lemma SeatsCommute(g: Group, s: Stitch, p: Text, a: Document, t: Stitch, q: Text, b: Document)
    requires p != q && Interchange(s, p, t, q)
    ensures SeatsAgree(g, s, p, a, t, q, b)
    ensures q in Seat(g, s, p, a).docs <==> q in g.docs
  {
    hide RequiredRoles, FilledDocs;
    if p !in g.docs && q !in g.docs {
      FillsAgree(g, s, p, a, t, q, b);
    }
  }

  /** A group in which only `t`'s other required roles are filled. */
  function AlmostFilled(t: Stitch, p: Text, q: Text, d: Document): Group
  {
    Group("", map[], map role | role in RequiredRoles(t) && role != p && role != q :: d, false, 0)
  }

  lemma BrokenInterchange(s: Stitch, p: Text, a: Document, t: Stitch, q: Text, b: Document)
    requires p != q && p in RequiredRoles(t) && !(RequiredRoles(s) <= RequiredRoles(t) + {p, q})
    ensures
      var g := AlmostFilled(t, p, q, a);
      p !in g.docs && q !in g.docs && !SeatsAgree(g, s, p, a, t, q, b) && !SeatsAgree(g, t, q, b, s, p, a)
  {
    hide RequiredRoles, FilledDocs, Seat;
    var g := AlmostFilled(t, p, q, a);
    assert g.docs.Keys == RequiredRoles(t) - {p, q};
    FillsAgree(g, s, p, a, t, q, b);
  }

  ghost predicate AlwaysAgree(s: Stitch, p: Text, a: Document, t: Stitch, q: Text, b: Document)
  {
    forall g: Group :: p !in g.docs && q !in g.docs ==> SeatsAgree(g, s, p, a, t, q, b)
  }

  /** Exactly when two empty seats of one invocation can be taken in either order. */
  lemma SeatsCommuteIff(s: Stitch, p: Text, a: Document, t: Stitch, q: Text, b: Document)
    requires p != q
    ensures AlwaysAgree(s, p, a, t, q, b) <==> Interchange(s, p, t, q)
  {
    hide RequiredRoles, SeatsAgree;
    if Interchange(s, p, t, q) {
      forall g: Group | p !in g.docs && q !in g.docs ensures SeatsAgree(g, s, p, a, t, q, b) {
        SeatsCommute(g, s, p, a, t, q, b);
      }
    } else if p in RequiredRoles(t) && !(RequiredRoles(s) <= RequiredRoles(t) + {p, q}) {
      BrokenInterchange(s, p, a, t, q, b);
    } else {
      BrokenInterchange(t, q, b, s, p, a);
    }
  }

  lemma GroupsCommute(groups: map<Text, Group>, r: Rule, a: Document, s: Slot, b: Document, t: Slot)
    requires IsSlot(r, s) && IsSlot(r, t) && Compatible(r, s, t)
    requires Identity(r, s) != Identity(r, t) || s.role != t.role
    ensures GroupsAfter(GroupsAfter(groups, a, r, s), b, r, t) == GroupsAfter(GroupsAfter(groups, b, r, t), a, r, s)
    ensures SlotTaken(GroupsAfter(groups, a, r, s), r, t) == SlotTaken(groups, r, t)
  {
    hide Identity, GroupOf, FilledDocs, Seat;
    if Identity(r, s) == Identity(r, t) {
      SameInvocation(r, s, t);
      SeatsCommute(GroupFor(groups, r, s), r.stitch[s.index], s.role, a, r.stitch[t.index], t.role, b);
    } else {
      var p, q := Identity(r, s), Identity(r, t);
      var x, y := Seat(GroupFor(groups, r, s), r.stitch[s.index], s.role, a),
          Seat(GroupFor(groups, r, t), r.stitch[t.index], t.role, b);
      assert groups[p := x][q := y] == groups[q := y][p := x];
    }
  }

  /** Everything but the groups: counters, latches and the stored documents. */
  function Tally(v: View, d: Document, r: Rule, slot: Option<Slot>, taken: bool): View
  {
    var m := Mark(v, d, r);
    match slot
    case None => Store(m, d, r).(plain := m.plain + multiset{d})
    case Some(s) =>
      if !taken then Store(m, d, r)
      else m.(duplicateCount := m.duplicateCount + 1,
              duplicates := m.duplicates[s.typ := Count(m.duplicates, s.typ) + 1])
  }

  predicate Taken(groups: map<Text, Group>, d: Document, r: Rule)
  {
    var slot := SlotOf(r, d.body);
    slot.Some? && SlotTaken(groups, r, slot.value)
  }

  function GroupsSeen(groups: map<Text, Group>, d: Document, r: Rule): map<Text, Group>
  {
    match SlotOf(r, d.body)
    case None => groups
    case Some(slot) => GroupsAfter(groups, d, r, slot)
  }

  lemma SeenSplits(v: View, d: Document, r: Rule)
    requires Agrees(v.groups, d, r)
    ensures
      var tallied := Tally(v, d, r, SlotOf(r, d.body), Taken(v.groups, d, r));
      Seen(v, d, r) == tallied.(groups := GroupsSeen(v.groups, d, r))
  {
    hide SlotOf, Identity, GroupOf, Over, Fill, MarksTerminal;
  }

  predicate Stores(slot: Option<Slot>, taken: bool)
  {
    slot.None? || !taken
  }

  lemma TalliesCommute(v: View, r: Rule, a: Document, s: Option<Slot>, x: bool, b: Document, t: Option<Slot>, y: bool)
    ensures Tally(Tally(v, a, r, s, x), b, r, t, y) == Tally(Tally(v, b, r, t, y), a, r, s, x)
  {
    if Stores(s, x) && Stores(t, y) {
      StoringTalliesCommute(v, r, a, s, x, b, t, y);
    } else if Stores(s, x) {
      MixedTalliesCommute(v, r, a, s, x, b, t, y);
    } else if Stores(t, y) {
      MixedTalliesCommute(v, r, b, t, y, a, s, x);
    } else {
      hide MarksTerminal, Store;
      DuplicatesCommute(v.duplicates, s.value.typ, t.value.typ);
    }
  }

  function Put(v: View, plain: multiset<Document>, terminal: bool): View
  {
    v.(plain := v.plain + plain, terminalSeen := v.terminalSeen || terminal)
  }

  function PlainPart(slot: Option<Slot>, d: Document): multiset<Document>
  {
    if slot.None? then multiset{d} else multiset{}
  }

  lemma StoringTally(v: View, r: Rule, d: Document, slot: Option<Slot>, taken: bool)
    requires Stores(slot, taken)
    ensures Tally(v, d, r, slot, taken) == Put(Store(v, d, r), PlainPart(slot, d), MarksTerminal(r, d.body))
  {
    hide MarksTerminal, Over;
  }

  lemma StoringTalliesCommute(v: View, r: Rule, a: Document, s: Option<Slot>, x: bool, b: Document, t: Option<Slot>,
                              y: bool)
    requires Stores(s, x) && Stores(t, y)
    ensures Tally(Tally(v, a, r, s, x), b, r, t, y) == Tally(Tally(v, b, r, t, y), a, r, s, x)
  {
    hide Tally, Stores, MarksTerminal, PlainPart, Store;
    StoringTally(v, r, a, s, x);
    StoringTally(v, r, b, t, y);
    StoringTally(Tally(v, a, r, s, x), r, b, t, y);
    StoringTally(Tally(v, b, r, t, y), r, a, s, x);
    StorePut(Store(v, a, r), PlainPart(s, a), MarksTerminal(r, a.body), b, r);
    StorePut(Store(v, b, r), PlainPart(t, b), MarksTerminal(r, b.body), a, r);
    StoresCommute(v, a, b, r);
    PutsCommute(Store(Store(v, a, r), b, r), PlainPart(s, a), MarksTerminal(r, a.body), PlainPart(t, b),
        MarksTerminal(r, b.body));
  }

  lemma StorePut(v: View, plain: multiset<Document>, terminal: bool, d: Document, r: Rule)
    ensures Store(Put(v, plain, terminal), d, r) == Put(Store(v, d, r), plain, terminal)
  {
    hide Over;
  }

  lemma PutsCommute(v: View, p: multiset<Document>, x: bool, q: multiset<Document>, y: bool)
    ensures Put(Put(v, p, x), q, y) == Put(Put(v, q, y), p, x)
  {
    assert v.plain + p + q == v.plain + q + p;
  }

  lemma MixedTalliesCommute(v: View, r: Rule, a: Document, s: Option<Slot>, x: bool, b: Document, t: Option<Slot>,
                            y: bool)
    requires Stores(s, x) && !Stores(t, y)
    ensures Tally(Tally(v, a, r, s, x), b, r, t, y) == Tally(Tally(v, b, r, t, y), a, r, s, x)
  {
    hide Tally, MarksTerminal, PlainPart, Store, Put, Bump;
    var typ := t.value.typ;
    StoringTally(v, r, a, s, x);
    DuplicateTally(v, r, b, t, y);
    DuplicateTally(Tally(v, a, r, s, x), r, b, t, y);
    StoringTally(Tally(v, b, r, t, y), r, a, s, x);
    BumpsCommute(v, a, r, PlainPart(s, a), MarksTerminal(r, a.body), typ, MarksTerminal(r, b.body));
  }

  function Bump(v: View, typ: Text, terminal: bool): View
  {
    v.(duplicateCount := v.duplicateCount + 1, duplicates := v.duplicates[typ := Count(v.duplicates, typ) + 1],
       terminalSeen := v.terminalSeen || terminal)
  }

  lemma DuplicateTally(v: View, r: Rule, d: Document, slot: Option<Slot>, taken: bool)
    requires !Stores(slot, taken)
    ensures Tally(v, d, r, slot, taken) == Bump(v, slot.value.typ, MarksTerminal(r, d.body))
  {
    hide MarksTerminal, Store;
  }

  lemma BumpsCommute(v: View, d: Document, r: Rule, plain: multiset<Document>, x: bool, typ: Text, y: bool)
    ensures Bump(Put(Store(v, d, r), plain, x), typ, y) == Put(Store(Bump(v, typ, y), d, r), plain, x)
  {
    hide Over;
  }

  lemma StoresCommute(v: View, a: Document, b: Document, r: Rule)
    ensures Store(Store(v, a, r), b, r) == Store(Store(v, b, r), a, r)
  {
    var x, y := Store(Store(v, a, r), b, r), Store(Store(v, b, r), a, r);
    assert x.stored == y.stored;
    assert x.limitExceeded == y.limitExceeded;
  }

  lemma DuplicatesCommute(m: map<Text, nat>, p: Text, q: Text)
    ensures
      var x := m[p := Count(m, p) + 1];
      var y := m[q := Count(m, q) + 1];
      x[q := Count(x, q) + 1] == y[p := Count(y, p) + 1]
  {
  }

  lemma SeenStaysFilled(v: View, docs: set<Document>, r: Rule, d: Document)
    requires NoContention(docs, r) && FilledFrom(v.groups, docs, r) && d in docs
    ensures FilledFrom(Seen(v, d, r).groups, docs, r)
  {
    hide SlotOf, Identity, GroupOf, Seen, Tally, FilledDocs;
    NeverDisagrees(v.groups, docs, r, d);
    SeenSplits(v, d, r);
    match SlotOf(r, d.body)
    case None =>
    case Some(slot) =>
      assert SitsIn(d, docs, r, Identity(r, slot), slot.role);
  }

  /** What one document does to the groups does not affect whether another finds its slot taken. */
  lemma GroupsSeenCommute(groups: map<Text, Group>, r: Rule, a: Document, b: Document)
    requires CompatibleDocs(r, a, b) && CompatibleDocs(r, b, a) && !SameSlot(r, a, b)
    ensures GroupsSeen(GroupsSeen(groups, a, r), b, r) == GroupsSeen(GroupsSeen(groups, b, r), a, r)
    ensures Taken(GroupsSeen(groups, a, r), b, r) == Taken(groups, b, r)
    ensures Taken(GroupsSeen(groups, b, r), a, r) == Taken(groups, a, r)
  {
    hide SlotOf, Identity, GroupsAfter, SlotTaken;
    var s, t := SlotOf(r, a.body), SlotOf(r, b.body);
    if s.Some? && t.Some? {
      GroupsCommute(groups, r, a, s.value, b, t.value);
      GroupsCommute(groups, r, b, t.value, a, s.value);
    }
  }

  lemma SeenCommutes(v: View, docs: set<Document>, r: Rule, a: Document, b: Document)
    requires Harmonious(docs, r) && NoContention(docs, r) && FilledFrom(v.groups, docs, r)
    requires a in docs && b in docs
    ensures Seen(Seen(v, a, r), b, r) == Seen(Seen(v, b, r), a, r)
  {
    hide Seen, SlotOf, FilledFrom, Agrees, SameSlot, CompatibleDocs;
    if !SameSlot(r, a, b) {
      NeverDisagrees(v.groups, docs, r, a);
      NeverDisagrees(v.groups, docs, r, b);
      SeenStaysFilled(v, docs, r, a);
      SeenStaysFilled(v, docs, r, b);
      NeverDisagrees(Seen(v, a, r).groups, docs, r, b);
      NeverDisagrees(Seen(v, b, r).groups, docs, r, a);
      AgreeingCommute(v, r, a, b);
    }
  }

  lemma AgreeingCommute(v: View, r: Rule, a: Document, b: Document)
    requires CompatibleDocs(r, a, b) && CompatibleDocs(r, b, a) && !SameSlot(r, a, b)
    requires Agrees(v.groups, a, r) && Agrees(v.groups, b, r)
    requires Agrees(Seen(v, a, r).groups, b, r) && Agrees(Seen(v, b, r).groups, a, r)
    ensures Seen(Seen(v, a, r), b, r) == Seen(Seen(v, b, r), a, r)
  {
    hide Seen, SlotOf, GroupsSeen, Agrees, Taken, SameSlot, Tally, CompatibleDocs;
    SeenSplits(v, a, r);
    SeenSplits(v, b, r);
    var va, vb := Seen(v, a, r), Seen(v, b, r);
    SeenSplits(va, b, r);
    SeenSplits(vb, a, r);
    GroupsSeenCommute(v.groups, r, a, b);
    var s, x := SlotOf(r, a.body), Taken(v.groups, a, r);
    var t, y := SlotOf(r, b.body), Taken(v.groups, b, r);
    TallyIgnoresGroups(Tally(v, a, r, s, x), va.groups, r, b, t, y);
    TallyIgnoresGroups(Tally(v, b, r, t, y), vb.groups, r, a, s, x);
    TalliesCommute(v, r, a, s, x, b, t, y);
  }

  // ---------- exactly when two documents commute ----------

  predicate CommuteAt(v: View, r: Rule, a: Document, b: Document)
  {
    Seen(Seen(v, a, r), b, r) == Seen(Seen(v, b, r), a, r)
  }

  /** In every view that has room for both documents, their order does not show. */
  ghost predicate AlwaysCommute(r: Rule, a: Document, b: Document)
  {
    forall v: View :: !Taken(v.groups, a, r) && !Taken(v.groups, b, r) ==> CommuteAt(v, r, a, b)
  }

  lemma FreeAgrees(groups: map<Text, Group>, r: Rule, d: Document)
    requires !Taken(groups, d, r)
    ensures Agrees(groups, d, r)
  {
    hide SlotOf;
  }

  lemma CompatibleEitherWay(r: Rule, a: Document, b: Document)
    requires CompatibleDocs(r, a, b)
    ensures CompatibleDocs(r, b, a)
  {
    hide SlotOf, Identity, GroupOf, RequiredRoles;
  }

  const NOTHING := View(map[], multiset{}, multiset{}, 0, map[], 0, false, false)

  /** Seeing two documents in free slots of one invocation seats both. */
  lemma SeenSeats(v: View, r: Rule, a: Document, s: Slot, b: Document, t: Slot)
    requires SlotOf(r, a.body) == Some(s) && SlotOf(r, b.body) == Some(t)
    requires Identity(r, s) == Identity(r, t) && s.role != t.role
    requires !Taken(v.groups, a, r) && !Taken(v.groups, b, r)
    ensures
      var groups := Seen(Seen(v, a, r), b, r).groups;
      && Identity(r, s) in groups
      && var first := Seat(GroupFor(v.groups, r, s), r.stitch[s.index], s.role, a);
      groups[Identity(r, s)] == Seat(first, r.stitch[t.index], t.role, b)
  {
    hide Seen, SlotOf, Identity, GroupOf, FilledDocs, Tally;
    FreeAgrees(v.groups, r, a);
    SeenSplits(v, a, r);
    var va := Seen(v, a, r);
    assert !Taken(va.groups, b, r);
    FreeAgrees(va.groups, r, b);
    SeenSplits(va, b, r);
  }

  lemma DifferentGroupsShow(r: Rule, a: Document, s: Slot, b: Document, t: Slot)
    requires SlotOf(r, a.body) == Some(s) && SlotOf(r, b.body) == Some(t)
    requires Identity(r, s) == Identity(r, t) && s.role != t.role
    requires GroupOf(r.stitch[s.index], s.values) != GroupOf(r.stitch[t.index], t.values)
    ensures !AlwaysCommute(r, a, b)
  {
    hide Seen, SlotOf, Identity, GroupOf, FilledDocs;
    assert !Taken(NOTHING.groups, a, r) && !Taken(NOTHING.groups, b, r);
    SeenSeats(NOTHING, r, a, s, b, t);
    SeenSeats(NOTHING, r, b, t, a, s);
    assert !CommuteAt(NOTHING, r, a, b);
  }

  lemma DifferentLatchesShow(r: Rule, a: Document, s: Slot, b: Document, t: Slot, g: Group)
    requires SlotOf(r, a.body) == Some(s) && SlotOf(r, b.body) == Some(t)
    requires Identity(r, s) == Identity(r, t) && s.role != t.role
    requires s.role !in g.docs && t.role !in g.docs
    requires !SeatsAgree(g, r.stitch[s.index], s.role, a, r.stitch[t.index], t.role, b)
    ensures !AlwaysCommute(r, a, b)
  {
    hide Seen, SlotOf, Identity, GroupOf, FilledDocs, Seat;
    var v := NOTHING.(groups := map[Identity(r, s) := g]);
    assert !Taken(v.groups, a, r) && !Taken(v.groups, b, r);
    SeenSeats(v, r, a, s, b, t);
    SeenSeats(v, r, b, t, a, s);
    assert !CommuteAt(v, r, a, b);
  }

  lemma CompatibleCommute(r: Rule, a: Document, b: Document)
    requires CompatibleDocs(r, a, b) && !SameSlot(r, a, b)
    ensures AlwaysCommute(r, a, b)
  {
    hide Seen, SlotOf, GroupsSeen, Agrees, Taken, SameSlot, Tally, CompatibleDocs;
    CompatibleEitherWay(r, a, b);
    forall v: View | !Taken(v.groups, a, r) && !Taken(v.groups, b, r) ensures CommuteAt(v, r, a, b) {
      FreeAgrees(v.groups, r, a);
      FreeAgrees(v.groups, r, b);
      SeenSplits(v, a, r);
      SeenSplits(v, b, r);
      GroupsSeenCommute(v.groups, r, a, b);
      FreeAgrees(Seen(v, a, r).groups, r, b);
      FreeAgrees(Seen(v, b, r).groups, r, a);
      AgreeingCommute(v, r, a, b);
    }
  }

  /** Two documents that do not contend for a slot commute in every view with room for both if and
      only if their slots are compatible, which distinct stitch names guarantee. */
  lemma SeenCommutesIff(r: Rule, a: Document, b: Document)
    requires !SameSlot(r, a, b)
    ensures AlwaysCommute(r, a, b) <==> CompatibleDocs(r, a, b)
  {
    hide SlotOf, Identity, GroupOf, AlwaysCommute, Interchange;
    if CompatibleDocs(r, a, b) {
      CompatibleCommute(r, a, b);
    } else {
      var s, t := SlotOf(r, a.body).value, SlotOf(r, b.body).value;
      if GroupOf(r.stitch[s.index], s.values) != GroupOf(r.stitch[t.index], t.values) {
        DifferentGroupsShow(r, a, s, b, t);
      } else {
        var g := SomeDisagreement(r.stitch[s.index], s.role, a, r.stitch[t.index], t.role, b);
        DifferentLatchesShow(r, a, s, b, t, g);
      }
    }
  }

  lemma SomeDisagreement(s: Stitch, p: Text, a: Document, t: Stitch, q: Text, b: Document) returns (g: Group)
    requires p != q && !Interchange(s, p, t, q)
    ensures p !in g.docs && q !in g.docs && !SeatsAgree(g, s, p, a, t, q, b)
  {
    hide SeatsAgree, Interchange;
    SeatsCommuteIff(s, p, a, t, q, b);
    g :| p !in g.docs && q !in g.docs && !SeatsAgree(g, s, p, a, t, q, b);
  }

  lemma TallyIgnoresGroups(v: View, groups: map<Text, Group>, r: Rule, d: Document, slot: Option<Slot>, taken: bool)
    ensures Tally(v.(groups := groups), d, r, slot, taken) == Tally(v, d, r, slot, taken).(groups := groups)
  {
    hide MarksTerminal, Over;
  }

  // ---------- permutations ----------

  function SeenAll(v: View, docs: seq<Document>, r: Rule): View
    decreases |docs|
  {
    if docs == [] then v else SeenAll(Seen(v, docs[0], r), docs[1..], r)
  }

  predicate From(s: seq<Document>, docs: set<Document>)
  {
    forall i :: 0 <= i < |s| ==> s[i] in docs
  }

  lemma {:induction false} MoveToFront(v: View, docs: set<Document>, r: Rule, before: seq<Document>, x: Document,
                                       after: seq<Document>)
    requires Harmonious(docs, r) && NoContention(docs, r) && FilledFrom(v.groups, docs, r)
    requires From(before, docs) && x in docs && From(after, docs)
    ensures SeenAll(v, before + [x] + after, r) == SeenAll(Seen(v, x, r), before + after, r)
    decreases |before|
  {
    hide Seen, NoContention, FilledFrom, Harmonious;
    if before == [] {
      assert before + [x] + after == [x] + after && ([x] + after)[1..] == after;
      assert before + after == after;
    } else {
      var y, rest := before[0], before[1..];
      assert (before + [x] + after)[1..] == rest + [x] + after;
      assert (before + after)[1..] == rest + after;
      SeenStaysFilled(v, docs, r, y);
      MoveToFront(Seen(v, y, r), docs, r, rest, x, after);
      SeenCommutes(v, docs, r, x, y);
    }
  }

  lemma {:induction false} SeenAllPermuted(v: View, docs: set<Document>, r: Rule, s: seq<Document>, t: seq<Document>)
    requires Harmonious(docs, r) && NoContention(docs, r) && FilledFrom(v.groups, docs, r)
    requires From(s, docs) && From(t, docs) && multiset(s) == multiset(t)
    ensures SeenAll(v, s, r) == SeenAll(v, t, r)
    decreases |s|
  {
    hide Seen, NoContention, FilledFrom, Harmonious;
    assert |multiset(s)| == |multiset(t)|;
    if s != [] {
      var x := s[0];
      assert x in multiset(t);
      var i :| 0 <= i < |t| && t[i] == x;
      var before, after := t[..i], t[i + 1..];
      assert t == before + [x] + after;
      MoveToFront(v, docs, r, before, x, after);
      assert s == [x] + s[1..];
      assert multiset(s[1..]) == multiset(s) - multiset{x};
      assert multiset(before + after) == multiset(t) - multiset{x};
      SeenStaysFilled(v, docs, r, x);
      SeenAllPermuted(Seen(v, x, r), docs, r, s[1..], before + after);
    }
  }

  lemma {:induction false} SeenAllSnoc(v: View, docs: seq<Document>, d: Document, r: Rule)
    ensures SeenAll(v, docs + [d], r) == Seen(SeenAll(v, docs, r), d, r)
    decreases |docs|
  {
    hide Seen;
    var all := docs + [d];
    if docs == [] {
      assert all[1..] == [];
      assert SeenAll(Seen(v, d, r), [], r) == Seen(v, d, r);
    } else {
      assert all[0] == docs[0] && all[1..] == docs[1..] + [d];
      SeenAllSnoc(Seen(v, docs[0], r), docs[1..], d, r);
    }
  }

  function Docs(inputs: seq<Input>): seq<Document>
  {
    seq(|inputs|, i requires 0 <= i < |inputs| => inputs[i].event.doc)
  }

  lemma {:induction false} RunFollows(key: FlowKey, r: Rule, first: Event, inputs: seq<Input>, docs: set<Document>)
    requires NoContention(docs, r) && From(Docs(inputs), docs)
    ensures
      var f := ApplyAll(Open(key, r, first), inputs, r);
      && ViewOf(f) == SeenAll(ViewOf(Open(key, r, first)), Docs(inputs), r)
      && FilledFrom(GroupViews(f.invocations), docs, r)
    decreases |inputs|
  {
    hide Applied, Seen, NoContention, FilledFrom, GroupViews, EventDocs, PlainDocs, Balanced;
    if inputs == [] {
      OpenIsEmpty(key, r, first, docs);
    } else {
      var n := |inputs| - 1;
      var before, d := inputs[..n], inputs[n].event.doc;
      assert Docs(inputs) == Docs(before) + [d];
      assert d == Docs(inputs)[n] && forall i :: 0 <= i < n ==> Docs(before)[i] == Docs(inputs)[i];
      RunFollows(key, r, first, before, docs);
      RunIsAccounted(key, r, first, before);
      var f := ApplyAll(Open(key, r, first), before, r);
      NeverDisagrees(GroupViews(f.invocations), docs, r, d);
      ApplyFollows(f, inputs[n].event, r, inputs[n].now);
      SeenStaysFilled(ViewOf(f), docs, r, d);
      SeenAllSnoc(ViewOf(Open(key, r, first)), Docs(before), d, r);
    }
  }

  lemma OpenIsEmpty(key: FlowKey, r: Rule, first: Event, docs: set<Document>)
    ensures FilledFrom(GroupViews(Open(key, r, first).invocations), docs, r)
    ensures ViewOf(Open(key, r, first)) == View(map[], multiset{}, multiset{}, 0, map[], 0, false, false)
  {
  }

  /** Any arrival order of the same documents correlates to the same content: invocations with their
      members and completeness, plain entries, duplicates, bytes, and the latched close flags. */
  lemma OrderIndependent(k1: FlowKey, first1: Event, p: seq<Input>, k2: FlowKey, first2: Event, q: seq<Input>, r: Rule)
    requires Harmonious((set d | d in Docs(p)), r)
    requires multiset(Docs(p)) == multiset(Docs(q))
    requires NoContention((set d | d in Docs(p)), r)
    ensures ViewOf(ApplyAll(Open(k1, r, first1), p, r)) == ViewOf(ApplyAll(Open(k2, r, first2), q, r))
  {
    hide NoContention, Harmonious, ApplyAll, ViewOf, SeenAll, Docs;
    var docs := set d | d in Docs(p);
    forall i | 0 <= i < |Docs(q)| ensures Docs(q)[i] in docs {
      assert Docs(q)[i] in multiset(Docs(p));
    }
    RunFollows(k1, r, first1, p, docs);
    RunFollows(k2, r, first2, q, docs);
    OpenIsEmpty(k1, r, first1, docs);
    OpenIsEmpty(k2, r, first2, docs);
    var v := ViewOf(Open(k1, r, first1));
    assert FilledFrom(v.groups, docs, r);
    SeenAllPermuted(v, docs, r, Docs(p), Docs(q));
  }
}
