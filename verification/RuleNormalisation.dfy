/** The version of a rule is a hash of its normal form (ContentVersion): role types, roles,
    required roles and terminal events are sorted away. Two spellings with one normal form
    correlate alike, whatever the run. */
module RuleNormalisation {
  import opened ByteText
  import opened PathLanguage
  import opened Rules
  import opened FlowModel
  import opened FlowAccounting
  import opened FlowDeadline
  import opened Ordering

  // ---------- the normal form ----------

  predicate TextLess(a: Text, b: Text)
  {
    Less(a, b)
  }

  predicate RoleLess(a: Role, b: Role)
  {
    Less(a.name, b.name)
  }

  predicate PromotionLess(a: Promotion, b: Promotion)
  {
    Less(a.name, b.name)
  }

  function NormalRole(role: Role): Role
  {
    role.(types := Sort(TextLess, role.types))
  }

  function NormalStitch(s: Stitch): Stitch
  {
    s.(roles := Sort(RoleLess, seq(|s.roles|, i requires 0 <= i < |s.roles| => NormalRole(s.roles[i]))),
       required := Sort(TextLess, s.required))
  }

  /** What ContentVersion hashes. */
  function Normalised(r: Rule): Rule
  {
    r.(version := "",
       stitch := seq(|r.stitch|, i requires 0 <= i < |r.stitch| => NormalStitch(r.stitch[i])),
       terminalEvents := Sort(TextLess, r.terminalEvents),
       promote := Sort(PromotionLess, r.promote))
  }

  // ---------- what the normal form keeps ----------

  ghost predicate Declares(roles: seq<Role>, name: Text, typ: Text)
  {
    exists role :: role in roles && role.name == name && typ in role.types
  }

  ghost predicate SameStitch(s: Stitch, t: Stitch)
  {
    && s.id == t.id && s.groupBy == t.groupBy
    && (forall name, typ :: Declares(s.roles, name, typ) <==> Declares(t.roles, name, typ))
    && RequiredRoles(s) == RequiredRoles(t)
  }

  /** The same rule up to the order of its unordered collections. */
  ghost predicate SameCorrelation(a: Rule, b: Rule)
  {
    && a.id == b.id && a.eventType == b.eventType && a.key == b.key
    && a.timeout == b.timeout && a.closeWhenComplete == b.closeWhenComplete && a.settle == b.settle
    && a.maxEvents == b.maxEvents && a.maxEventBytes == b.maxEventBytes && a.maxFlowBytes == b.maxFlowBytes
    && a.index == b.index
    && |a.stitch| == |b.stitch|
    && (forall i :: 0 <= i < |a.stitch| ==> SameStitch(a.stitch[i], b.stitch[i]))
    && (forall typ :: typ in a.terminalEvents <==> typ in b.terminalEvents)
  }

  lemma {:induction false} NormalRolesDeclare(s: Stitch, name: Text, typ: Text)
    ensures Declares(NormalStitch(s).roles, name, typ) <==> Declares(s.roles, name, typ)
  {
    hide Sort;
    var normal := seq(|s.roles|, i requires 0 <= i < |s.roles| => NormalRole(s.roles[i]));
    var sorted := Sort(RoleLess, normal);
    if Declares(sorted, name, typ) {
      var role :| role in sorted && role.name == name && typ in role.types;
      SortKeepsMembers(RoleLess, normal, role);
      var i :| 0 <= i < |normal| && normal[i] == role;
      SortKeepsMembers(TextLess, s.roles[i].types, typ);
      assert s.roles[i] in s.roles;
    }
    if Declares(s.roles, name, typ) {
      var role :| role in s.roles && role.name == name && typ in role.types;
      var i :| 0 <= i < |s.roles| && s.roles[i] == role;
      SortKeepsMembers(TextLess, role.types, typ);
      assert normal[i] in normal;
      SortKeepsMembers(RoleLess, normal, normal[i]);
    }
  }

  lemma NormalRoleNames(s: Stitch)
    ensures RoleNames(NormalStitch(s).roles) == RoleNames(s.roles)
  {
    hide Sort;
    var normal := seq(|s.roles|, i requires 0 <= i < |s.roles| => NormalRole(s.roles[i]));
    forall name ensures name in RoleNames(NormalStitch(s).roles) <==> name in RoleNames(s.roles) {
      if name in RoleNames(NormalStitch(s).roles) {
        var role :| role in NormalStitch(s).roles && role.name == name;
        SortKeepsMembers(RoleLess, normal, role);
        var i :| 0 <= i < |normal| && normal[i] == role;
        assert s.roles[i] in s.roles;
      }
      if name in RoleNames(s.roles) {
        var role :| role in s.roles && role.name == name;
        var i :| 0 <= i < |s.roles| && s.roles[i] == role;
        assert normal[i] in normal;
        SortKeepsMembers(RoleLess, normal, normal[i]);
      }
    }
  }

  lemma NormalStitchSame(s: Stitch)
    ensures SameStitch(s, NormalStitch(s))
  {
    hide Sort, RoleNames;
    var n := NormalStitch(s);
    forall name, typ ensures Declares(s.roles, name, typ) <==> Declares(n.roles, name, typ) {
      NormalRolesDeclare(s, name, typ);
    }
    NormalRoleNames(s);
    SortPermutes(TextLess, s.required);
    forall name ensures name in n.required <==> name in s.required {
      SortKeepsMembers(TextLess, s.required, name);
    }
    assert n.required == [] <==> s.required == [];
    assert RequiredRoles(n) == RequiredRoles(s);
  }

  lemma NormalisedSame(r: Rule)
    ensures SameCorrelation(r, Normalised(r))
  {
    hide Sort, NormalStitch, SameStitch;
    var n := Normalised(r);
    forall i | 0 <= i < |r.stitch| ensures SameStitch(r.stitch[i], n.stitch[i]) {
      NormalStitchSame(r.stitch[i]);
    }
    forall typ ensures typ in r.terminalEvents <==> typ in n.terminalEvents {
      SortKeepsMembers(TextLess, r.terminalEvents, typ);
    }
  }

  /** Equal hashes, that is equal normal forms, mean the same correlation. */
  lemma SameNormalFormSameCorrelation(a: Rule, b: Rule)
    requires Normalised(a) == Normalised(b)
    ensures SameCorrelation(a, b)
  {
    hide Normalised, SameStitch;
    NormalisedSame(a);
    NormalisedSame(b);
    var n := Normalised(a);
    forall i | 0 <= i < |a.stitch| ensures SameStitch(a.stitch[i], b.stitch[i]) {
      assert SameStitch(a.stitch[i], n.stitch[i]) && SameStitch(b.stitch[i], n.stitch[i]);
      SameStitchTrans(a.stitch[i], n.stitch[i], b.stitch[i]);
    }
  }

  lemma SameStitchTrans(s: Stitch, n: Stitch, t: Stitch)
    requires SameStitch(s, n) && SameStitch(t, n)
    ensures SameStitch(s, t)
  {
    hide Declares, RequiredRoles;
  }

  // ---------- the same claims ----------

  lemma {:induction false} StitchClaimMember(index: nat, roles: seq<Role>, c: Claim)
    ensures c in StitchClaims(index, roles) <==> c.index == index && Declares(roles, c.role, c.typ)
    decreases |roles|
  {
    if roles != [] {
      var first := RoleClaims(index, roles[0].name, roles[0].types);
      StitchClaimMember(index, roles[1..], c);
      assert roles == [roles[0]] + roles[1..];
      assert c in first <==> c.index == index && c.role == roles[0].name && c.typ in roles[0].types by {
        if c.index == index && c.role == roles[0].name && c.typ in roles[0].types {
          var k :| 0 <= k < |roles[0].types| && roles[0].types[k] == c.typ;
          assert first[k] == c;
        }
      }
      assert Declares(roles, c.role, c.typ) <==>
             (roles[0].name == c.role && c.typ in roles[0].types) || Declares(roles[1..], c.role, c.typ);
    }
  }

  lemma {:induction false} ClaimMember(stitches: seq<Stitch>, index: nat, c: Claim)
    requires index <= |stitches|
    ensures c in ClaimsFrom(stitches, index) <==>
            index <= c.index < |stitches| && Declares(stitches[c.index].roles, c.role, c.typ)
    decreases |stitches| - index
  {
    hide StitchClaims, Declares;
    if index < |stitches| {
      StitchClaimMember(index, stitches[index].roles, c);
      ClaimMember(stitches, index + 1, c);
    }
  }

  lemma SameClaims(a: Rule, b: Rule, c: Claim)
    requires SameCorrelation(a, b)
    ensures c in Claims(a) <==> c in Claims(b)
  {
    hide Declares, RequiredRoles;
    ClaimMember(a.stitch, 0, c);
    ClaimMember(b.stitch, 0, c);
    if c.index < |a.stitch| {
      assert SameStitch(a.stitch[c.index], b.stitch[c.index]);
    }
  }

  lemma SameFirstClaim(a: Rule, b: Rule, typ: Text)
    requires SameCorrelation(a, b) && ValidRule(a) && ValidRule(b)
    ensures FirstClaim(Claims(a), typ) == FirstClaim(Claims(b), typ)
  {
    hide Claims, SameCorrelation, FirstClaim;
    var x, y := FirstClaim(Claims(a), typ), FirstClaim(Claims(b), typ);
    if x.Some? {
      SameClaims(a, b, x.value);
      ClaimIsUnique(Claims(b), x.value);
    } else if y.Some? {
      SameClaims(a, b, y.value);
      assert false;
    }
  }

  lemma SameSlots(a: Rule, b: Rule, doc: Json)
    requires SameCorrelation(a, b) && ValidRule(a) && ValidRule(b)
    ensures SlotOf(a, doc) == SlotOf(b, doc)
    ensures MarksTerminal(a, doc) == MarksTerminal(b, doc)
  {
    hide ClaimsFrom, FirstClaim, GroupValues, Resolve, ValidRule, Declares;
    var typ := Resolve(a.eventType, doc);
    if typ.Some? {
      SameFirstClaim(a, b, typ.value);
      var c := FirstClaim(Claims(a), typ.value);
      if c.Some? {
        assert SameStitch(a.stitch[c.value.index], b.stitch[c.value.index]);
      }
    }
  }

  // ---------- the same runs ----------

  lemma SameStore(a: Rule, b: Rule, f: Flow, e: Event)
    requires SameCorrelation(a, b)
    ensures StoreEvent(f, e, a) == StoreEvent(f, e, b) && AppendPlain(f, e, a) == AppendPlain(f, e, b)
  {
    hide SameStitch;
  }

  lemma SameOpened(a: Rule, b: Rule, f: Flow, e: Event, slot: Slot)
    requires SameCorrelation(a, b) && SlotOf(a, e.doc.body) == SlotOf(b, e.doc.body) == Some(slot)
    ensures Identity(a, slot) == Identity(b, slot)
    ensures WithInvocation(f, e, a, slot) == WithInvocation(f, e, b, slot)
  {
    hide SlotOf, GroupOf, Find, InvocationKey, Declares;
    assert SameStitch(a.stitch[slot.index], b.stitch[slot.index]);
    SameGroup(a.stitch[slot.index], b.stitch[slot.index], slot.values);
  }

  lemma SameStitched(a: Rule, b: Rule, f: Flow, e: Event, now: Time, slot: Slot, i: nat)
    requires SameCorrelation(a, b) && slot.index < |a.stitch| && i < |f.invocations|
    ensures Stitched(f, e, a, now, slot, i) == Stitched(f, e, b, now, slot, i)
  {
    hide Declares, Filled, RequiredRoles, StoreEvent, AppendPlain;
    assert SameStitch(a.stitch[slot.index], b.stitch[slot.index]);
    SameStore(a, b, f, e);
    SameStore(a, b, f.(anomalies := f.anomalies + [CardinalityExceeded(a.stitch[slot.index].id, slot.role, now)]), e);
  }

  /** Apply, its duplicate report and ShouldClose do not see the spelling of a valid rule. */
  lemma SameApply(a: Rule, b: Rule, f: Flow, e: Event, now: Time)
    requires SameCorrelation(a, b) && ValidRule(a) && ValidRule(b)
    ensures Applied(f, e, a, now) == Applied(f, e, b, now)
    ensures IsDuplicate(f, e, a) == IsDuplicate(f, e, b)
  {
    hide SlotOf, MarksTerminal, ValidRule, SameStitch, WithInvocation, Stitched, AppendPlain, Identity, Find;
    SameSlots(a, b, e.doc.body);
    var f' := f.(terminalSeen := f.terminalSeen || MarksTerminal(a, e.doc.body), updatedAt := now);
    match SlotOf(a, e.doc.body)
    case None => SameStore(a, b, f', e);
    case Some(slot) =>
      SameOpened(a, b, f', e, slot);
      SameStitched(a, b, WithInvocation(f', e, a, slot), e, now, slot, Find(f.invocations, Identity(a, slot)));
  }

  lemma SameGroup(s: Stitch, t: Stitch, values: seq<Text>)
    requires SameStitch(s, t) && |values| == |s.groupBy|
    ensures GroupOf(s, values) == GroupOf(t, values)
  {
  }

  lemma SameClose(a: Rule, b: Rule, f: Flow, now: Time)
    requires SameCorrelation(a, b)
    ensures CloseReason(f, a, now) == CloseReason(f, b, now)
    ensures Considered(f, a, now) == Considered(f, b, now)
  {
    hide SameStitch;
  }

  /** Every run of accepted events is the same under two spellings of one rule version. */
  lemma {:induction false} SameRuns(a: Rule, b: Rule, f: Flow, inputs: seq<Input>)
    requires SameCorrelation(a, b) && ValidRule(a) && ValidRule(b)
    ensures ApplyAll(f, inputs, a) == ApplyAll(f, inputs, b)
    ensures AcceptAll(f, inputs, a) == AcceptAll(f, inputs, b)
    decreases |inputs|
  {
    hide SameCorrelation, ValidRule, Applied, Considered;
    if inputs != [] {
      var n := |inputs| - 1;
      SameRuns(a, b, f, inputs[..n]);
      var g, h := ApplyAll(f, inputs[..n], a), AcceptAll(f, inputs[..n], a);
      SameApply(a, b, g, inputs[n].event, inputs[n].now);
      SameApply(a, b, h, inputs[n].event, inputs[n].now);
      SameClose(a, b, Applied(h, inputs[n].event, a, inputs[n].now), inputs[n].now);
    }
  }
}
