/** Reordering what a rule leaves unordered — roles, their event types, required roles, terminal events and
    promotions — keeps a valid rule valid and correlates alike. */
module RulePermutations {
  import opened ByteText
  import opened Rules
  import opened FlowModel
  import opened FlowAccounting
  import opened FlowDeadline
  import opened Ordering
  import opened RuleNormalisation
  import DeadLetterPaging

  // ---------- permuted rules ----------

  predicate Retyped(a: seq<Role>, b: seq<Role>)
  {
    |a| == |b| && forall i :: 0 <= i < |a| ==> a[i].name == b[i].name && multiset(a[i].types) == multiset(b[i].types)
  }

  /** `b` lists the roles of `a` in some order, each with its event types in some order. */
  ghost predicate RolesPermuted(a: seq<Role>, b: seq<Role>)
  {
    exists mid :: Retyped(a, mid) && multiset(mid) == multiset(b)
  }

  ghost predicate StitchPermuted(s: Stitch, t: Stitch)
  {
    s.id == t.id && s.groupBy == t.groupBy && multiset(s.required) ==
        multiset(t.required) && RolesPermuted(s.roles, t.roles)
  }

  ghost predicate AllPermuted(a: seq<Stitch>, b: seq<Stitch>)
  {
    |a| == |b| && forall i :: 0 <= i < |a| ==> StitchPermuted(a[i], b[i])
  }

  ghost predicate Permuted(a: Rule, b: Rule)
  {
    && b == a.(version := b.version, stitch := b.stitch, terminalEvents := b.terminalEvents, promote := b.promote)
    && AllPermuted(a.stitch, b.stitch)
    && multiset(a.terminalEvents) == multiset(b.terminalEvents) && multiset(a.promote) == multiset(b.promote)
  }

  lemma SameMultisetSameMembers<T>(a: seq<T>, b: seq<T>, x: T)
    requires multiset(a) == multiset(b)
    ensures x in a <==> x in b
  {
    assert x in a <==> x in multiset(a);
    assert x in b <==> x in multiset(b);
  }

  // ---------- the same declarations ----------

  lemma DeclaredOnward(a: seq<Role>, mid: seq<Role>, b: seq<Role>, name: Text, typ: Text)
    requires Retyped(a, mid) && multiset(mid) == multiset(b) && Declares(a, name, typ)
    ensures Declares(b, name, typ)
  {
    var role :| role in a && role.name == name && typ in role.types;
    var i :| 0 <= i < |a| && a[i] == role;
    SameMultisetSameMembers(a[i].types, mid[i].types, typ);
    SameMultisetSameMembers(mid, b, mid[i]);
  }

  lemma DeclaredBack(a: seq<Role>, mid: seq<Role>, b: seq<Role>, name: Text, typ: Text)
    requires Retyped(a, mid) && multiset(mid) == multiset(b) && Declares(b, name, typ)
    ensures Declares(a, name, typ)
  {
    var role :| role in b && role.name == name && typ in role.types;
    SameMultisetSameMembers(mid, b, role);
    var i :| 0 <= i < |mid| && mid[i] == role;
    SameMultisetSameMembers(a[i].types, mid[i].types, typ);
    assert a[i] in a;
  }

  lemma NamesPermuted(a: seq<Role>, mid: seq<Role>, b: seq<Role>)
    requires Retyped(a, mid) && multiset(mid) == multiset(b)
    ensures RoleNames(a) == RoleNames(b)
  {
    forall name ensures name in RoleNames(a) <==> name in RoleNames(b) {
      if name in RoleNames(a) {
        var role :| role in a && role.name == name;
        var i :| 0 <= i < |a| && a[i] == role;
        SameMultisetSameMembers(mid, b, mid[i]);
      }
      if name in RoleNames(b) {
        var role :| role in b && role.name == name;
        SameMultisetSameMembers(mid, b, role);
        var i :| 0 <= i < |mid| && mid[i] == role;
        assert a[i] in a;
      }
    }
  }

  lemma PermutedStitchSame(s: Stitch, t: Stitch)
    requires StitchPermuted(s, t)
    ensures SameStitch(s, t) && RoleNames(s.roles) == RoleNames(t.roles)
    ensures RequiresDeclared(s) ==> RequiresDeclared(t)
  {
    hide Declares, RoleNames;
    var mid :| Retyped(s.roles, mid) && multiset(mid) == multiset(t.roles);
    NamesPermuted(s.roles, mid, t.roles);
    forall name, typ ensures Declares(s.roles, name, typ) <==> Declares(t.roles, name, typ) {
      if Declares(s.roles, name, typ) {
        DeclaredOnward(s.roles, mid, t.roles, name, typ);
      }
      if Declares(t.roles, name, typ) {
        DeclaredBack(s.roles, mid, t.roles, name, typ);
      }
    }
    forall name ensures name in s.required <==> name in t.required {
      SameMultisetSameMembers(s.required, t.required, name);
    }
    assert |multiset(s.required)| == |multiset(t.required)|;
  }

  lemma PermutedSame(a: Rule, b: Rule)
    requires Permuted(a, b)
    ensures SameCorrelation(a, b)
  {
    hide SameStitch, StitchPermuted;
    forall i | 0 <= i < |a.stitch| ensures SameStitch(a.stitch[i], b.stitch[i]) {
      PermutedStitchSame(a.stitch[i], b.stitch[i]);
    }
    forall typ ensures typ in a.terminalEvents <==> typ in b.terminalEvents {
      SameMultisetSameMembers(a.terminalEvents, b.terminalEvents, typ);
    }
  }

  // ---------- no type is claimed twice in either ----------

  function TypesOf(claims: seq<Claim>): (types: seq<Text>)
    ensures |types| == |claims|
  {
    seq(|claims|, i requires 0 <= i < |claims| => claims[i].typ)
  }

  ghost predicate Single(bag: multiset<Text>)
  {
    forall typ :: bag[typ] <= 1
  }

  lemma {:induction false} SingleIffDistinct(types: seq<Text>)
    ensures Single(multiset(types)) <==> forall i, j :: 0 <= i < j < |types| ==> types[i] != types[j]
    decreases |types|
  {
    if types != [] {
      var n := |types| - 1;
      var rest, last := types[..n], types[n];
      SingleIffDistinct(rest);
      assert types == rest + [last];
      assert multiset(types) == multiset(rest) + multiset{last};
      assert forall i :: 0 <= i < n ==> rest[i] == types[i];
      if last in rest {
        var i :| 0 <= i < n && rest[i] == last;
        assert types[i] == types[n];
        assert multiset(types)[last] > 1;
      } else {
        assert forall typ :: multiset(types)[typ] == multiset(rest)[typ] + if typ == last then 1 else 0;
      }
    }
  }

  lemma UnambiguousIsSingle(claims: seq<Claim>)
    ensures Unambiguous(claims) <==> Single(multiset(TypesOf(claims)))
  {
    hide Single;
    var types := TypesOf(claims);
    SingleIffDistinct(types);
    assert forall i :: 0 <= i < |claims| ==> types[i] == claims[i].typ;
    if Unambiguous(claims) {
      forall i, j | 0 <= i < j < |types| ensures types[i] != types[j] {
        assert claims[i].typ != claims[j].typ;
      }
    } else {
      var i, j :| 0 <= i < j < |claims| && claims[i].typ == claims[j].typ;
      assert types[i] == types[j];
    }
  }

  lemma TypesOfConcat(a: seq<Claim>, b: seq<Claim>)
    ensures multiset(TypesOf(a + b)) == multiset(TypesOf(a)) + multiset(TypesOf(b))
  {
    assert TypesOf(a + b) == TypesOf(a) + TypesOf(b);
  }

  /** All event types of the roles, with multiplicity. */
  function RoleBag(roles: seq<Role>): multiset<Text>
  {
    if roles == [] then multiset{} else multiset(roles[0].types) + RoleBag(roles[1..])
  }

  lemma {:induction false} StitchTypes(index: nat, roles: seq<Role>)
    ensures multiset(TypesOf(StitchClaims(index, roles))) == RoleBag(roles)
    decreases |roles|
  {
    if roles != [] {
      var first := RoleClaims(index, roles[0].name, roles[0].types);
      StitchTypes(index, roles[1..]);
      TypesOfConcat(first, StitchClaims(index, roles[1..]));
      assert TypesOf(first) == roles[0].types;
    } else {
      assert TypesOf([]) == [];
    }
  }

  lemma {:induction false} BagWithoutOne(roles: seq<Role>, k: nat)
    requires k < |roles|
    ensures RoleBag(roles) == RoleBag(roles[..k] + roles[k + 1..]) + multiset(roles[k].types)
    decreases k
  {
    var rest := roles[..k] + roles[k + 1..];
    if k == 0 {
      assert rest == roles[1..];
    } else {
      assert rest[0] == roles[0] && rest[1..] == roles[1..][..k - 1] + roles[1..][k..];
      BagWithoutOne(roles[1..], k - 1);
      assert roles[1..][k - 1] == roles[k];
    }
  }

  lemma {:induction false} BagPermutes(a: seq<Role>, b: seq<Role>)
    requires multiset(a) == multiset(b)
    ensures RoleBag(a) == RoleBag(b)
    decreases |a|
  {
    hide RoleBag;
    assert |multiset(a)| == |multiset(b)|;
    if a == [] {
      assert a == b;
    } else {
      var k := TakeSame(a, b);
      assert a[..0] + a[1..] == a[1..];
      BagWithoutOne(a, 0);
      BagWithoutOne(b, k);
      BagPermutes(a[1..], b[..k] + b[k + 1..]);
    }
  }

  lemma {:induction false} BagRetyped(a: seq<Role>, b: seq<Role>)
    requires Retyped(a, b)
    ensures RoleBag(a) == RoleBag(b)
    decreases |a|
  {
    if a != [] {
      BagRetyped(a[1..], b[1..]);
    }
  }

  lemma StitchBags(s: Stitch, t: Stitch)
    requires StitchPermuted(s, t)
    ensures RoleBag(s.roles) == RoleBag(t.roles)
  {
    var mid :| Retyped(s.roles, mid) && multiset(mid) == multiset(t.roles);
    BagRetyped(s.roles, mid);
    BagPermutes(mid, t.roles);
  }

  lemma {:induction false} ClaimBags(a: seq<Stitch>, b: seq<Stitch>, index: nat)
    requires AllPermuted(a, b) && index <= |a|
    ensures multiset(TypesOf(ClaimsFrom(a, index))) == multiset(TypesOf(ClaimsFrom(b, index)))
    decreases |a| - index
  {
    hide StitchPermuted, StitchClaims, TypesOf;
    if index < |a| {
      StitchBags(a[index], b[index]);
      ClaimBags(a, b, index + 1);
      StitchTypes(index, a[index].roles);
      StitchTypes(index, b[index].roles);
      TypesOfConcat(StitchClaims(index, a[index].roles), ClaimsFrom(a, index + 1));
      TypesOfConcat(StitchClaims(index, b[index].roles), ClaimsFrom(b, index + 1));
    }
  }

  // ---------- valid either way ----------

  lemma PermutedRequires(a: Rule, b: Rule)
    requires Permuted(a, b) && forall s :: s in a.stitch ==> RequiresDeclared(s)
    ensures forall t :: t in b.stitch ==> RequiresDeclared(t)
  {
    hide StitchPermuted, RequiresDeclared;
    forall t | t in b.stitch ensures RequiresDeclared(t) {
      var i :| 0 <= i < |b.stitch| && b.stitch[i] == t;
      assert a.stitch[i] in a.stitch;
      PermutedStitchSame(a.stitch[i], b.stitch[i]);
    }
  }

  lemma {:induction false} RolesDeclaredAlike(a: seq<Stitch>, b: seq<Stitch>)
    requires AllPermuted(a, b)
    ensures DeclaredRoles(a) == DeclaredRoles(b)
  {
    hide StitchPermuted, RoleNames;
    forall name ensures name in DeclaredRoles(a) <==> name in DeclaredRoles(b) {
      forall i | 0 <= i < |a| ensures RoleNames(a[i].roles) == RoleNames(b[i].roles) {
        PermutedStitchSame(a[i], b[i]);
      }
    }
  }

  lemma PermutedPromotions(a: Rule, b: Rule)
    requires Permuted(a, b) && PromotionsDeclared(a)
    ensures PromotionsDeclared(b)
  {
    hide AllPermuted, DeclaredRoles;
    RolesDeclaredAlike(a.stitch, b.stitch);
    forall p | p in b.promote ensures PromotionDeclared(b, p) {
      SameMultisetSameMembers(a.promote, b.promote, p);
    }
  }

  /** A permutation of a valid rule is valid and correlates alike. */
  lemma PermutationIsValid(a: Rule, b: Rule)
    requires Permuted(a, b) && ValidRule(a)
    ensures ValidRule(b) && SameCorrelation(a, b)
  {
    hide AllPermuted, SameCorrelation, Unambiguous, RequiresDeclared, PromotionsDeclared, TypesOf, Single;
    PermutedSame(a, b);
    ClaimBags(a.stitch, b.stitch, 0);
    UnambiguousIsSingle(Claims(a));
    UnambiguousIsSingle(Claims(b));
    PermutedRequires(a, b);
    PermutedPromotions(a, b);
  }

  /** What a version hash sorts away changes no flow of any run, no duplicate report and no verdict. */
  lemma PermutationChangesNothing(a: Rule, b: Rule, f: Flow, inputs: seq<Input>, e: Event, now: Time)
    requires Permuted(a, b) && ValidRule(a)
    ensures ApplyAll(f, inputs, a) == ApplyAll(f, inputs, b) && AcceptAll(f, inputs, a) == AcceptAll(f, inputs, b)
    ensures IsDuplicate(f, e, a) == IsDuplicate(f, e, b)
    ensures CloseReason(f, a, now) == CloseReason(f, b, now) && Considered(f, a, now) == Considered(f, b, now)
  {
    hide Permuted, ValidRule, SameCorrelation, ApplyAll, AcceptAll, IsDuplicate, CloseReason, Considered;
    PermutationIsValid(a, b);
    SameRuns(a, b, f, inputs);
    SameApply(a, b, f, e, now);
    SameClose(a, b, f, now);
  }

  // ---------- the same hash ----------

  lemma TextOrder()
    ensures Sortable(TextLess) && Decisive(TextLess)
  {
    hide Less;
    DeadLetterPaging.LessIsOrder();
  }

  lemma RoleOrder()
    ensures Sortable(RoleLess) && Sortable(PromotionLess)
  {
    hide Less;
    DeadLetterPaging.LessIsOrder();
  }

  lemma SortedTexts(a: seq<Text>, b: seq<Text>)
    requires multiset(a) == multiset(b)
    ensures Sort(TextLess, a) == Sort(TextLess, b)
  {
    hide Sort, TextLess;
    TextOrder();
    SortOrders(TextLess, a);
    SortOrders(TextLess, b);
    SortPermutes(TextLess, a);
    SortPermutes(TextLess, b);
    OrderedUnique(TextLess, Sort(TextLess, a), Sort(TextLess, b));
  }

  predicate RolesApart(roles: seq<Role>)
  {
    forall i, j :: 0 <= i < j < |roles| ==> roles[i].name != roles[j].name
  }

  predicate PromotionsApart(promote: seq<Promotion>)
  {
    forall i, j :: 0 <= i < j < |promote| ==> promote[i].name != promote[j].name
  }

  lemma ApartIsRanked(roles: seq<Role>, sorted: seq<Role>)
    requires RolesApart(roles) && multiset(sorted) == multiset(roles)
    ensures Ranked(RoleLess, sorted)
  {
    hide Less;
    forall a, b | a in sorted && b in sorted && a != b ensures RoleLess(a, b) || RoleLess(b, a) {
      SameMultisetSameMembers(sorted, roles, a);
      SameMultisetSameMembers(sorted, roles, b);
      var i :| 0 <= i < |roles| && roles[i] == a;
      var j :| 0 <= j < |roles| && roles[j] == b;
      LessTotal(a.name, b.name);
    }
  }

  lemma SortedRoles(a: seq<Role>, b: seq<Role>)
    requires multiset(a) == multiset(b) && RolesApart(a)
    ensures Sort(RoleLess, a) == Sort(RoleLess, b)
  {
    hide Sort, RoleLess;
    RoleOrder();
    SortOrders(RoleLess, a);
    SortOrders(RoleLess, b);
    SortPermutes(RoleLess, a);
    SortPermutes(RoleLess, b);
    ApartIsRanked(a, Sort(RoleLess, a));
    RankedUnique(RoleLess, Sort(RoleLess, a), Sort(RoleLess, b));
  }

  lemma PromotionsRanked(promote: seq<Promotion>, sorted: seq<Promotion>)
    requires PromotionsApart(promote) && multiset(sorted) == multiset(promote)
    ensures Ranked(PromotionLess, sorted)
  {
    hide Less;
    forall a, b | a in sorted && b in sorted && a != b ensures PromotionLess(a, b) || PromotionLess(b, a) {
      SameMultisetSameMembers(sorted, promote, a);
      SameMultisetSameMembers(sorted, promote, b);
      var i :| 0 <= i < |promote| && promote[i] == a;
      var j :| 0 <= j < |promote| && promote[j] == b;
      LessTotal(a.name, b.name);
    }
  }

  lemma SortedPromotions(a: seq<Promotion>, b: seq<Promotion>)
    requires multiset(a) == multiset(b) && PromotionsApart(a)
    ensures Sort(PromotionLess, a) == Sort(PromotionLess, b)
  {
    hide Sort, PromotionLess;
    RoleOrder();
    SortOrders(PromotionLess, a);
    SortOrders(PromotionLess, b);
    SortPermutes(PromotionLess, a);
    SortPermutes(PromotionLess, b);
    PromotionsRanked(a, Sort(PromotionLess, a));
    RankedUnique(PromotionLess, Sort(PromotionLess, a), Sort(PromotionLess, b));
  }

  lemma NormalRolesAlike(a: seq<Role>, mid: seq<Role>)
    requires Retyped(a, mid)
    ensures MapSeq(NormalRole, a) == MapSeq(NormalRole, mid)
  {
    hide Sort;
    forall i | 0 <= i < |a| ensures NormalRole(a[i]) == NormalRole(mid[i]) {
      SortedTexts(a[i].types, mid[i].types);
    }
  }

  lemma NormalStitchesAlike(s: Stitch, t: Stitch)
    requires StitchPermuted(s, t) && RolesApart(s.roles)
    ensures NormalStitch(s) == NormalStitch(t)
  {
    hide Sort;
    var mid :| Retyped(s.roles, mid) && multiset(mid) == multiset(t.roles);
    var x, y := MapSeq(NormalRole, s.roles), MapSeq(NormalRole, t.roles);
    NormalRolesAlike(s.roles, mid);
    MapPermutes(NormalRole, mid, t.roles);
    assert RolesApart(x);
    SortedRoles(x, y);
    SortedTexts(s.required, t.required);
    assert x == seq(|s.roles|, i requires 0 <= i < |s.roles| => NormalRole(s.roles[i]));
    assert y == seq(|t.roles|, i requires 0 <= i < |t.roles| => NormalRole(t.roles[i]));
  }

  /** What is hashed does not see the reordering, so that the rule keeps its version, when no two roles of a
      stitch and no two promotions share a name. */
  lemma PermutationKeepsHash(a: Rule, b: Rule)
    requires Permuted(a, b) && PromotionsApart(a.promote)
    requires forall i :: 0 <= i < |a.stitch| ==> RolesApart(a.stitch[i].roles)
    ensures Normalised(a) == Normalised(b)
  {
    hide Sort, NormalStitch, StitchPermuted;
    forall i | 0 <= i < |a.stitch| ensures NormalStitch(a.stitch[i]) == NormalStitch(b.stitch[i]) {
      NormalStitchesAlike(a.stitch[i], b.stitch[i]);
    }
    SortedTexts(a.terminalEvents, b.terminalEvents);
    SortedPromotions(a.promote, b.promote);
  }
}
