/** Correlation rules (internal/domain/rule/rule.go): the definition, its validation, and the
    claims by which an event type finds the stitch role it fills. */
module Rules {
  import opened ByteText
  import opened Decimal
  import opened PathLanguage

  /** Nanoseconds since the Unix epoch. */
  type Time = int
  type Duration = int

  /** Go's zero time, midnight of 1 January of year 1. */
  const ZERO_TIME: Time := -62_135_596_800_000_000_000

  type Path = seq<Segment>

  datatype Role = Role(name: Text, types: seq<Text>)

  datatype Stitch = Stitch(id: Text, groupBy: seq<Path>, roles: seq<Role>, required: seq<Text>)

  /** A value lifted into the output: from which role, or the first or last event, and as which type. */
  datatype Promotion = Promotion(name: Text, from: Text, typ: Text)

  datatype Rule = Rule(
    id: Text,
    version: Text,
    enabled: bool,
    eventType: Path,
    key: Path,
    stitch: seq<Stitch>,
    timeout: Duration,
    closeWhenComplete: bool,
    settle: Duration,
    terminalEvents: seq<Text>,
    maxEvents: int,
    maxEventBytes: int,
    maxFlowBytes: int,
    index: Text,
    promote: seq<Promotion>)

  /** Identifies one immutable rule definition. */
  datatype Reference = Reference(id: Text, version: Text)

  function ReferenceOf(r: Rule): Reference
  {
    Reference(r.id, r.version)
  }

  // ---------- claims ----------

  /** Event type `typ` fills role `role` of the stitch at `index`. */
  datatype Claim = Claim(index: nat, role: Text, typ: Text)

  function RoleClaims(index: nat, role: Text, types: seq<Text>): (claims: seq<Claim>)
    ensures |claims| == |types|
    ensures forall k :: 0 <= k < |types| ==> claims[k] == Claim(index, role, types[k])
  {
    seq(|types|, k requires 0 <= k < |types| => Claim(index, role, types[k]))
  }

  function StitchClaims(index: nat, roles: seq<Role>): (claims: seq<Claim>)
    ensures forall c :: c in claims ==> c.index == index
  {
    if roles == [] then [] else RoleClaims(index, roles[0].name, roles[0].types) + StitchClaims(index, roles[1..])
  }

  /** All claims of the stitches from position `index` on, in configuration order. */
  function ClaimsFrom(stitches: seq<Stitch>, index: nat): (claims: seq<Claim>)
    requires index <= |stitches|
    ensures forall c :: c in claims ==> index <= c.index < |stitches|
    decreases |stitches| - index
  {
    if index == |stitches| then []
    else StitchClaims(index, stitches[index].roles) + ClaimsFrom(stitches, index + 1)
  }

  function Claims(r: Rule): seq<Claim>
  {
    ClaimsFrom(r.stitch, 0)
  }

  function FirstClaim(claims: seq<Claim>, typ: Text): (c: Option<Claim>)
    ensures c.Some? ==> c.value in claims && c.value.typ == typ
    ensures c.None? ==> forall d :: d in claims ==> d.typ != typ
  {
    if claims == [] then None
    else if claims[0].typ == typ then Some(claims[0])
    else FirstClaim(claims[1..], typ)
  }

  lemma {:induction false} FirstClaimOfConcat(a: seq<Claim>, b: seq<Claim>, typ: Text)
    ensures FirstClaim(a + b, typ) == if FirstClaim(a, typ).Some? then FirstClaim(a, typ) else FirstClaim(b, typ)
    decreases |a|
  {
    if a == [] {
      assert a + b == b;
    } else {
      assert (a + b)[1..] == a[1..] + b;
      FirstClaimOfConcat(a[1..], b, typ);
    }
  }

  /** The three nested loops of matchingRole. */
  method MatchingRole(r: Rule, typ: Text) returns (c: Option<Claim>)
    ensures c == FirstClaim(Claims(r), typ)
  {
    hide FirstClaim, StitchClaims;
    for i := 0 to |r.stitch|
      invariant FirstClaim(Claims(r), typ) == FirstClaim(ClaimsFrom(r.stitch, i), typ)
    {
      c := MatchingInStitch(i, r.stitch[i].roles, typ);
      FirstClaimOfConcat(StitchClaims(i, r.stitch[i].roles), ClaimsFrom(r.stitch, i + 1), typ);
      if c.Some? {
        return;
      }
    }
    return None;
  }

  method MatchingInStitch(index: nat, roles: seq<Role>, typ: Text) returns (c: Option<Claim>)
    ensures c == FirstClaim(StitchClaims(index, roles), typ)
  {
    hide FirstClaim, RoleClaims;
    assert roles[0..] == roles;
    for j := 0 to |roles|
      invariant FirstClaim(StitchClaims(index, roles), typ) == FirstClaim(StitchClaims(index, roles[j..]), typ)
    {
      assert roles[j..][0] == roles[j] && roles[j..][1..] == roles[j + 1..];
      var k := RoleIndex(roles[j].types, typ);
      FirstClaimOfConcat(RoleClaims(index, roles[j].name, roles[j].types), StitchClaims(index, roles[j + 1..]), typ);
      FirstClaimOfRole(index, roles[j].name, roles[j].types, typ);
      if k < |roles[j].types| {
        return Some(Claim(index, roles[j].name, typ));
      }
    }
    return None;
  }

  method RoleIndex(types: seq<Text>, typ: Text) returns (k: nat)
    ensures k <= |types|
    ensures k < |types| ==> types[k] == typ
    ensures k == |types| ==> typ !in types
  {
    for i := 0 to |types|
      invariant typ !in types[..i]
    {
      if types[i] == typ {
        return i;
      }
    }
    return |types|;
  }

  lemma {:induction false} FirstClaimOfRole(index: nat, role: Text, types: seq<Text>, typ: Text)
    ensures FirstClaim(RoleClaims(index, role, types), typ) ==
            if typ in types then Some(Claim(index, role, typ)) else None
  {
    var claims := RoleClaims(index, role, types);
    assert forall k :: 0 <= k < |types| ==> claims[k] in claims;
  }

  predicate IsTerminal(r: Rule, typ: Text)
  {
    typ in r.terminalEvents
  }

  /** The roles an invocation needs: `requires` when given, else every role. */
  function RequiredRoles(s: Stitch): set<Text>
  {
    if s.required != [] then set n | n in s.required else RoleNames(s.roles)
  }

  function RoleNames(roles: seq<Role>): set<Text>
  {
    set role | role in roles :: role.name
  }

  // ---------- validation ----------

  /** No event type is claimed twice. */
  predicate Unambiguous(claims: seq<Claim>)
  {
    forall i, j :: 0 <= i < j < |claims| ==> claims[i].typ != claims[j].typ
  }

  predicate RequiresDeclared(s: Stitch)
  {
    forall n :: n in s.required ==> n in RoleNames(s.roles)
  }

  predicate ValidRule(r: Rule)
  {
    && r.id != "" && r.key != [] && r.timeout > 0 && r.index != ""
    && Unambiguous(Claims(r))
    && (forall s :: s in r.stitch ==> RequiresDeclared(s))
    && PromotionsDeclared(r)
  }

  /** Validity in full: what every field must be, and what must be declared. */
  lemma ValidRuleExactly(r: Rule)
    ensures ValidRule(r) <==>
      && r.id != "" && r.key != [] && r.timeout > 0 && r.index != ""
      && (forall i, j :: 0 <= i < j < |Claims(r)| ==> Claims(r)[i].typ != Claims(r)[j].typ)
      && (forall i, name :: 0 <= i < |r.stitch| && name in r.stitch[i].required ==> NamesRole(r.stitch[i].roles, name))
      && (forall i :: 0 <= i < |r.promote| ==>
            && r.promote[i].typ in ["long", "double", "keyword", "boolean", "date"]
            && (r.promote[i].from in ["", "first", "last"] || DeclaresRole(r, r.promote[i].from)))
  {
    hide Claims, RequiresDeclared, PromotionDeclared, NamesRole, DeclaresRole;
    forall i | 0 <= i < |r.stitch|
      ensures RequiresDeclared(r.stitch[i]) <==>
              forall name :: name in r.stitch[i].required ==> NamesRole(r.stitch[i].roles, name)
    {
      RequiresExactly(r.stitch[i]);
    }
    forall i | 0 <= i < |r.promote|
      ensures PromotionDeclared(r, r.promote[i]) <==>
        && r.promote[i].typ in ["long", "double", "keyword", "boolean", "date"]
        && (r.promote[i].from in ["", "first", "last"] || DeclaresRole(r, r.promote[i].from))
    {
      PromotionExactly(r, r.promote[i]);
    }
  }

  lemma RequiresExactly(s: Stitch)
    ensures RequiresDeclared(s) <==> forall name :: name in s.required ==> NamesRole(s.roles, name)
  {
    hide NamesRole, RoleNames;
    NamesAreRoles(s.roles);
  }

  lemma PromotionExactly(r: Rule, p: Promotion)
    ensures PromotionDeclared(r, p) <==>
      && p.typ in ["long", "double", "keyword", "boolean", "date"]
      && (p.from in ["", "first", "last"] || DeclaresRole(r, p.from))
  {
    hide NamesRole, RoleNames;
    forall i | 0 <= i < |r.stitch|
      ensures p.from in RoleNames(r.stitch[i].roles) <==> NamesRole(r.stitch[i].roles, p.from)
    {
      NamesAreRoles(r.stitch[i].roles);
    }
  }

  predicate NamesRole(roles: seq<Role>, name: Text)
  {
    exists k :: 0 <= k < |roles| && roles[k].name == name
  }

  predicate DeclaresRole(r: Rule, name: Text)
  {
    exists i :: 0 <= i < |r.stitch| && NamesRole(r.stitch[i].roles, name)
  }

  lemma NamesAreRoles(roles: seq<Role>)
    ensures forall name :: name in RoleNames(roles) <==> NamesRole(roles, name)
  {
    forall name | name in RoleNames(roles) ensures NamesRole(roles, name) {
      var role :| role in roles && role.name == name;
    }
  }

  const PROMOTION_TYPES: set<Text> := {"long", "double", "keyword", "boolean", "date"}

  /** Every role that some stitch declares. */
  function DeclaredRoles(stitches: seq<Stitch>): (names: set<Text>)
    ensures forall name :: name in names <==> exists i :: 0 <= i < |stitches| && name in RoleNames(stitches[i].roles)
  {
    if stitches == [] then {}
    else
      var n := |stitches| - 1;
      DeclaredRoles(stitches[..n]) + RoleNames(stitches[n].roles)
  }

  predicate PromotionDeclared(r: Rule, p: Promotion)
  {
    p.typ in PROMOTION_TYPES && (p.from in {"", "first", "last"} || p.from in DeclaredRoles(r.stitch))
  }

  predicate PromotionsDeclared(r: Rule)
  {
    forall p :: p in r.promote ==> PromotionDeclared(r, p)
  }

  /** No two stitches share both name and number of group values, so that they share no invocation.
      Validation does not ask for it. */
  predicate SeparateStitches(r: Rule)
  {
    forall i, j :: 0 <= i < j < |r.stitch| ==>
            r.stitch[i].id != r.stitch[j].id || |r.stitch[i].groupBy| != |r.stitch[j].groupBy|
  }

  predicate Fresh(claims: seq<Claim>, claimed: set<Text>)
  {
    forall i :: 0 <= i < |claims| ==> claims[i].typ !in claimed
  }

  /** The nested loops of Validate: `claimed` grows by every type and refuses the first repeat. */
  method Validate(r: Rule) returns (ok: bool)
    ensures ok <==> ValidRule(r)
  {
    hide StitchClaims, RoleNames, PromotionsDeclared, DeclaredRoles, Unambiguous, Fresh;
    NoClaims(Claims(r));
    if r.id == "" || r.key == [] || r.timeout <= 0 || r.index == "" {
      return false;
    }
    var claimed: set<Text> := {};
    var declared: set<Text> := {};
    assert DeclaredRoles(r.stitch[..0]) == {} by { DeclareNothing(); }
    for i := 0 to |r.stitch|
      invariant declared == DeclaredRoles(r.stitch[..i])
      invariant Unambiguous(Claims(r)) <==>
                Unambiguous(ClaimsFrom(r.stitch, i)) && Fresh(ClaimsFrom(r.stitch, i), claimed)
      invariant forall s :: s in r.stitch[..i] ==> RequiresDeclared(s)
    {
      var s := r.stitch[i];
      ghost var later := ClaimsFrom(r.stitch, i + 1);
      var clean;
      clean, claimed := ValidateRoles(i, s.roles, claimed, later);
      if !clean {
        return false;
      }
      if !(forall n <- s.required :: n in RoleNames(s.roles)) {
        assert s in r.stitch && !RequiresDeclared(s);
        return false;
      }
      assert r.stitch[..i + 1] == r.stitch[..i] + [s];
      DeclareNext(r.stitch, i);
      declared := declared + RoleNames(s.roles);
    }
    assert r.stitch[..|r.stitch|] == r.stitch;
    ok := ValidatePromotions(r, declared);
  }

  lemma NoClaims(claims: seq<Claim>)
    ensures Fresh(claims, {}) && Unambiguous([]) && forall claimed :: Fresh([], claimed)
  {
  }

  lemma DeclareNothing()
    ensures DeclaredRoles([]) == {}
  {
  }

  lemma DeclareNext(stitches: seq<Stitch>, i: nat)
    requires i < |stitches|
    ensures DeclaredRoles(stitches[..i + 1]) == DeclaredRoles(stitches[..i]) + RoleNames(stitches[i].roles)
  {
    hide RoleNames;
    assert stitches[..i + 1][..i] == stitches[..i] && stitches[..i + 1][i] == stitches[i];
  }

  method ValidatePromotions(r: Rule, declared: set<Text>) returns (ok: bool)
    requires declared == DeclaredRoles(r.stitch)
    ensures ok <==> PromotionsDeclared(r)
  {
    hide DeclaredRoles;
    for i := 0 to |r.promote|
      invariant forall p :: p in r.promote[..i] ==> PromotionDeclared(r, p)
    {
      var p := r.promote[i];
      assert p in r.promote && r.promote[..i + 1] == r.promote[..i] + [p];
      if p.typ !in PROMOTION_TYPES {
        return false;
      }
      if p.from == "" || p.from == "first" || p.from == "last" {
        continue;
      }
      if p.from !in declared {
        return false;
      }
    }
    assert r.promote[..|r.promote|] == r.promote;
    return true;
  }

  method ValidateRoles(index: nat, roles: seq<Role>, claimed: set<Text>, ghost later: seq<Claim>)
    returns (ok: bool, after: set<Text>)
    ensures
      var all := StitchClaims(index, roles) + later;
      && (ok ==> (Unambiguous(all) && Fresh(all, claimed) <==> Unambiguous(later) && Fresh(later, after)))
      && (!ok ==> !(Unambiguous(all) && Fresh(all, claimed)))
  {
    after := claimed;
    ghost var all := StitchClaims(index, roles) + later;
    assert roles[0..] == roles;
    for j := 0 to |roles|
      invariant Unambiguous(all) && Fresh(all, claimed) <==>
                && Unambiguous(StitchClaims(index, roles[j..]) + later)
                && Fresh(StitchClaims(index, roles[j..]) + later, after)
    {
      assert roles[j..][0] == roles[j] && roles[j..][1..] == roles[j + 1..];
      ghost var rest := StitchClaims(index, roles[j + 1..]) + later;
      assert StitchClaims(index, roles[j..]) + later == RoleClaims(index, roles[j].name, roles[j].types) + rest;
      ok, after := ValidateTypes(index, roles[j].name, roles[j].types, after, rest);
      if !ok {
        return;
      }
    }
    assert [] + later == later;
    ok := true;
  }

  method ValidateTypes(index: nat, role: Text, types: seq<Text>, claimed: set<Text>, ghost later: seq<Claim>)
    returns (ok: bool, after: set<Text>)
    ensures
      var all := RoleClaims(index, role, types) + later;
      && (ok ==> (Unambiguous(all) && Fresh(all, claimed) <==> Unambiguous(later) && Fresh(later, after)))
      && (!ok ==> !(Unambiguous(all) && Fresh(all, claimed)))
  {
    hide Unambiguous, Fresh;
    after := claimed;
    ghost var all := RoleClaims(index, role, types) + later;
    assert types[0..] == types;
    for k := 0 to |types|
      invariant Unambiguous(all) && Fresh(all, claimed) <==>
                && Unambiguous(RoleClaims(index, role, types[k..]) + later)
                && Fresh(RoleClaims(index, role, types[k..]) + later, after)
    {
      ghost var rest := RoleClaims(index, role, types[k + 1..]) + later;
      assert RoleClaims(index, role, types[k..]) + later == [Claim(index, role, types[k])] + rest;
      TakeClaim(Claim(index, role, types[k]), rest, after);
      if types[k] in after {
        return false, after;
      }
      after := after + {types[k]};
    }
    assert RoleClaims(index, role, types[|types|..]) + later == later;
    ok := true;
  }

  lemma TakeClaim(c: Claim, rest: seq<Claim>, claimed: set<Text>)
    ensures Unambiguous([c] + rest) && Fresh([c] + rest, claimed) <==>
            c.typ !in claimed && Unambiguous(rest) && Fresh(rest, claimed + {c.typ})
  {
    var all := [c] + rest;
    assert all[0] == c && all[1..] == rest;
    assert forall i :: 0 <= i < |rest| ==> rest[i] == all[i + 1];
    if Unambiguous(all) && Fresh(all, claimed) {
      forall i | 0 <= i < |rest| ensures rest[i].typ != c.typ {
        assert all[0].typ != all[i + 1].typ;
      }
    }
  }

  /** Under a valid rule at most one claim can match, so the search order is irrelevant. */
  lemma ClaimIsUnique(claims: seq<Claim>, c: Claim)
    requires Unambiguous(claims) && c in claims
    ensures FirstClaim(claims, c.typ) == Some(c)
  {
    var found := FirstClaim(claims, c.typ);
    var i :| 0 <= i < |claims| && claims[i] == c;
    assert found.Some?;
    var j :| 0 <= j < |claims| && claims[j] == found.value;
    assert i == j;
  }

  // ---------- output names of group_by paths ----------

  function LastSegment(p: Path): Text
  {
    if p == [] then ""
    else match p[|p| - 1]
      case Key(key) => key
      case Index(i) => Itoa(i)
  }

  lemma SuffixesDiffer(base: Text, j: nat, k: nat)
    requires j != k
    ensures base + Itoa(j) != base + Itoa(k) && base + Itoa(k) != base
  {
    if base + Itoa(j) == base + Itoa(k) {
      assert (base + Itoa(j))[|base|..] == Itoa(j) && (base + Itoa(k))[|base|..] == Itoa(k);
      DigitsInjective(j, k);
    }
    assert |base + Itoa(k)| > |base|;
  }

  /** base, else base2, base3, ...: the first not yet used. `tried` are the names found taken. */
  function FreshName(base: Text, used: set<Text>, name: Text, suffix: nat, ghost tried: set<Text>): (r: Text)
    requires suffix >= 2 && tried <= used && name !in tried
    requires forall k: nat :: k >= suffix ==> base + Itoa(k) !in tried + {name}
    ensures r !in used
    decreases used - tried
  {
    if name !in used then name
    else
      assert forall k: nat :: k >= suffix + 1 ==> base + Itoa(k) !in tried + {name} + {base + Itoa(suffix)} by {
        forall k: nat | k >= suffix + 1 ensures base + Itoa(k) !in tried + {name} + {base + Itoa(suffix)} {
          SuffixesDiffer(base, suffix, k);
        }
      }
      FreshName(base, used, base + Itoa(suffix), suffix + 1, tried + {name})
  }

  function FieldName(base: Text, used: set<Text>): (r: Text)
    ensures r !in used
  {
    assert forall k: nat :: k >= 2 ==> base + Itoa(k) !in {base} by {
      forall k: nat | k >= 2 ensures base + Itoa(k) !in {base} {
        SuffixesDiffer(base, 0, k);
      }
    }
    assert forall k: nat :: k >= 2 ==> base + Itoa(k) !in {} + {base};
    FreshName(base, used, base, 2, {})
  }

  lemma {:induction false} FreshNameIsFirst(base: Text, used: set<Text>, name: Text, suffix: nat, tried: set<Text>)
    requires suffix >= 2 && tried <= used && name !in tried && name in used
    requires forall k: nat :: k >= suffix ==> base + Itoa(k) !in tried + {name}
    ensures
      exists n: nat :: n >= suffix && FreshName(base, used, name, suffix, tried) == base + Itoa(n)
                       && forall k: nat :: suffix <= k < n ==> base + Itoa(k) in used
    decreases used - tried
  {
    forall k: nat | k >= suffix + 1 ensures base + Itoa(k) !in tried + {name} + {base + Itoa(suffix)} {
      SuffixesDiffer(base, suffix, k);
    }
    if base + Itoa(suffix) in used {
      FreshNameIsFirst(base, used, base + Itoa(suffix), suffix + 1, tried + {name});
      var found := FreshName(base, used, base + Itoa(suffix), suffix + 1, tried + {name});
      var n: nat :| n >= suffix + 1 && found == base + Itoa(n)
                    && forall k: nat :: suffix + 1 <= k < n ==> base + Itoa(k) in used;
      assert forall k: nat :: suffix <= k < n ==> base + Itoa(k) in used;
    } else {
      assert FreshName(base, used, name, suffix, tried) == base + Itoa(suffix);
    }
  }

  /** A name not yet used is kept; else the first free one of base2, base3, and so on. */
  lemma FieldNameIsFirst(base: Text, used: set<Text>)
    ensures base !in used ==> FieldName(base, used) == base
    ensures
      base in used ==>
        exists n: nat :: n >= 2 && FieldName(base, used) == base + Itoa(n)
                         && forall k: nat :: 2 <= k < n ==> base + Itoa(k) in used
  {
    if base in used {
      forall k: nat | k >= 2 ensures base + Itoa(k) !in {} + {base} {
        SuffixesDiffer(base, 0, k);
      }
      FreshNameIsFirst(base, used, base, 2, {});
    }
  }

  function FieldNames(paths: seq<Path>): (names: seq<Text>)
    ensures |names| == |paths|
    ensures forall i, j :: 0 <= i < j < |names| ==> names[i] != names[j]
  {
    if paths == [] then []
    else
      var before := FieldNames(paths[..|paths| - 1]);
      before + [FieldName(LastSegment(paths[|paths| - 1]), set n | n in before)]
  }

  /** The suffix loop: the base, then base2, base3, until one is not used. */
  method PickName(base: Text, used: set<Text>) returns (name: Text)
    ensures name == FieldName(base, used)
  {
    var suffix := 2;
    name := base;
    ghost var tried: set<Text> := {};
    forall k: nat | k >= 2 ensures base + Itoa(k) !in tried + {name} {
      SuffixesDiffer(base, 0, k);
    }
    while name in used
      invariant suffix >= 2 && tried <= used && name !in tried
      invariant forall k: nat :: k >= suffix ==> base + Itoa(k) !in tried + {name}
      invariant FieldName(base, used) == FreshName(base, used, name, suffix, tried)
      decreases used - tried
    {
      forall k: nat | k >= suffix + 1 ensures base + Itoa(k) !in tried + {name} + {base + Itoa(suffix)} {
        SuffixesDiffer(base, suffix, k);
      }
      tried := tried + {name};
      name := base + Itoa(suffix);
      suffix := suffix + 1;
    }
  }

  /** The loops of GroupFields. */
  method GroupFields(paths: seq<Path>) returns (fields: seq<Text>)
    ensures fields == FieldNames(paths)
  {
    hide FieldName;
    fields := [];
    for i := 0 to |paths|
      invariant fields == FieldNames(paths[..i])
    {
      var name := PickName(LastSegment(paths[i]), (set n | n in fields));
      assert paths[..i + 1][..i] == paths[..i] && paths[..i + 1][i] == paths[i];
      fields := fields + [name];
    }
    assert paths[..|paths|] == paths;
  }
}
