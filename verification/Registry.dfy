/** The versioned rule registry of internal/adapters/rules/registry.go: current rules, the versions
    still resolvable, and how many holders each version has. */
module Registry {
  import opened ByteText
  import opened PathLanguage
  import opened Rules

  /** `open` counts the holders of a version; a version without an entry has none. */
  datatype Registry = Registry(current: seq<Rule>, versions: map<Reference, Rule>, open: map<Reference, nat>)

  function Holders(g: Registry, ref: Reference): nat
  {
    if ref in g.open then g.open[ref] else 0
  }

  predicate IsCurrent(rules: seq<Rule>, ref: Reference)
  {
    exists i :: 0 <= i < |rules| && ReferenceOf(rules[i]) == ref
  }

  function VersionsOf(rules: seq<Rule>): (versions: map<Reference, Rule>)
    ensures forall ref :: ref in versions <==> IsCurrent(rules, ref)
    ensures forall ref :: ref in versions ==> versions[ref] in rules && ReferenceOf(versions[ref]) == ref
  {
    if rules == [] then map[]
    else
      var n := |rules| - 1;
      var before, last := VersionsOf(rules[..n]), rules[n];
      assert forall ref :: IsCurrent(rules, ref) <==> IsCurrent(rules[..n], ref) || ref == ReferenceOf(last) by {
        assert ReferenceOf(rules[n]) == ReferenceOf(last);
        assert forall i :: 0 <= i < n ==> rules[..n][i] == rules[i];
      }
      before[ReferenceOf(last) := last]
  }

  function Published(g: Registry, rules: seq<Rule>): Registry
  {
    g.(current := rules, versions := (map ref | ref in g.versions && Holders(g,
        ref) > 0 :: g.versions[ref]) + VersionsOf(rules))
  }

  predicate Matches(r: Rule, doc: Json)
  {
    r.enabled && match Resolve(r.key, doc) case None => false case Some(value) => value != ""
  }

  predicate FirstAt(rules: seq<Rule>, doc: Json, i: nat, r: Rule)
  {
    i < |rules| && rules[i] == r && forall j :: 0 <= j < i ==> !Matches(rules[j], doc)
  }

  /** The first enabled current rule whose correlation key resolves. */
  function FirstMatch(rules: seq<Rule>, doc: Json): (r: Option<Rule>)
    ensures r.Some? ==> r.value in rules && Matches(r.value, doc)
    ensures r.None? ==> forall x :: x in rules ==> !Matches(x, doc)
  {
    if rules == [] then None
    else if Matches(rules[0], doc) then Some(rules[0])
    else FirstMatch(rules[1..], doc)
  }

  /** The selected rule is enabled and its key resolves to a non-empty text; none is selected only when no
      enabled rule's key does. */
  lemma FirstMatchExact(rules: seq<Rule>, doc: Json)
    ensures
      var r := FirstMatch(rules, doc);
      && (r.Some? ==> r.value in rules && r.value.enabled && Resolve(r.value.key, doc).Some?
                      && Resolve(r.value.key, doc).value != "")
      && (r.None? ==> forall x :: x in rules && x.enabled ==> Resolve(x.key, doc) in {None, Some("")})
  {
    hide Resolve;
    if FirstMatch(rules, doc).None? {
      forall x | x in rules && x.enabled ensures Resolve(x.key, doc) in {None, Some("")} {
        assert !Matches(x, doc);
      }
    }
  }

  /** Rule order decides: no rule before the selected one matches. */
  lemma {:induction false} FirstMatchIsFirst(rules: seq<Rule>, doc: Json) returns (i: nat)
    requires FirstMatch(rules, doc).Some?
    ensures FirstAt(rules, doc, i, FirstMatch(rules, doc).value)
    decreases |rules|
  {
    hide Matches;
    if Matches(rules[0], doc) {
      i := 0;
    } else {
      var j := FirstMatchIsFirst(rules[1..], doc);
      i := j + 1;
      assert forall k :: 0 < k <= i ==> rules[k] == rules[1..][k - 1];
    }
  }

  function Retained(g: Registry, ref: Reference): Registry
  {
    g.(open := g.open[ref := Holders(g, ref) + 1])
  }

  function Released(g: Registry, ref: Reference): Registry
  {
    if Holders(g, ref) > 1 then g.(open := g.open[ref := Holders(g, ref) - 1])
    else
      g.(open := g.open - {ref},
         versions := if IsCurrent(g.current, ref) then g.versions else g.versions - {ref})
  }

  /** The registry after the listed releases, in order. */
  function ReleasedFrom(g: Registry, refs: seq<Reference>): Registry
    decreases |refs|
  {
    if refs == [] then g else ReleasedFrom(Released(g, refs[0]), refs[1..])
  }

  function Seeded(g: Registry, counts: map<Reference, nat>): Registry
  {
    g.(open := g.open + counts)
  }

  /** Every current rule resolves, under its own reference, and nothing else is kept without a holder. */
  ghost predicate Tidy(g: Registry)
  {
    && (forall ref :: IsCurrent(g.current, ref) ==> ref in g.versions)
    && (forall ref :: ref in g.versions ==> ReferenceOf(g.versions[ref]) == ref)
    && (forall ref :: ref in g.versions ==> IsCurrent(g.current, ref) || Holders(g, ref) > 0)
  }

  lemma PublishKeeps(g: Registry, rules: seq<Rule>)
    requires Tidy(g)
    ensures Tidy(Published(g, rules))
    ensures forall ref :: Holders(Published(g, rules), ref) == Holders(g, ref)
    ensures forall ref :: ref in g.versions && Holders(g, ref) > 0 ==> ref in Published(g, rules).versions
  {
    hide IsCurrent;
  }

  lemma RetainKeeps(g: Registry, ref: Reference)
    requires Tidy(g)
    ensures Tidy(Retained(g, ref))
  {
    hide IsCurrent;
  }

  /** Releasing one holder reclaims the version exactly when it was the last one and not current. */
  lemma ReleaseKeeps(g: Registry, ref: Reference)
    requires Tidy(g) && Holders(g, ref) > 0
    ensures Tidy(Released(g, ref))
    ensures forall x :: Holders(Released(g, ref), x) == Holders(g, x) - if x == ref then 1 else 0
    ensures forall x :: x in Released(g, ref).versions <==>
              x in g.versions && !(x == ref && Holders(g, ref) == 1 && !IsCurrent(g.current, ref))
  {
    hide IsCurrent;
  }

  /** The versions that still have holders, one map entry at a time. */
  method KeepHeld(g: Registry) returns (kept: map<Reference, Rule>)
    ensures kept == map ref | ref in g.versions && Holders(g, ref) > 0 :: g.versions[ref]
  {
    kept := map[];
    var todo := g.versions.Keys;
    while todo != {}
      invariant todo <= g.versions.Keys
      invariant forall ref :: ref in kept <==> ref in g.versions && ref !in todo && Holders(g, ref) > 0
      invariant forall ref :: ref in kept ==> kept[ref] == g.versions[ref]
      decreases todo
    {
      var ref :| ref in todo;
      if Holders(g, ref) > 0 {
        kept := kept[ref := g.versions[ref]];
      }
      todo := todo - {ref};
    }
  }

  lemma NoVersions()
    ensures VersionsOf([]) == map[]
  {
  }

  lemma VersionsStep(rules: seq<Rule>, i: nat)
    requires i < |rules|
    ensures VersionsOf(rules[..i + 1]) == VersionsOf(rules[..i])[ReferenceOf(rules[i]) := rules[i]]
  {
    hide IsCurrent;
    assert rules[..i + 1][..i] == rules[..i] && rules[..i + 1][i] == rules[i];
  }

  method AddCurrent(kept: map<Reference, Rule>, rules: seq<Rule>) returns (versions: map<Reference, Rule>)
    ensures versions == kept + VersionsOf(rules)
  {
    hide IsCurrent, VersionsOf;
    versions := kept;
    assert VersionsOf(rules[..0]) == map[] by { NoVersions(); }
    for i := 0 to |rules|
      invariant versions == kept + VersionsOf(rules[..i])
    {
      VersionsStep(rules, i);
      versions := versions[ReferenceOf(rules[i]) := rules[i]];
    }
    assert rules[..|rules|] == rules;
  }

  method FindMatch(rules: seq<Rule>, doc: Json) returns (r: Option<Rule>)
    ensures r == FirstMatch(rules, doc)
  {
    hide Resolve;
    assert rules[0..] == rules;
    for i := 0 to |rules|
      invariant FirstMatch(rules, doc) == FirstMatch(rules[i..], doc)
    {
      assert rules[i..][0] == rules[i] && rules[i..][1..] == rules[i + 1..];
      if !rules[i].enabled {
        continue;
      }
      var value := ResolvePath(rules[i].key, doc);
      if value.Some? && value.value != "" {
        return Some(rules[i]);
      }
    }
    return None;
  }

  /** The registry object, its fields replaced under one mutex. */
  class LiveRegistry {
    var current: seq<Rule>
    var versions: map<Reference, Rule>
    var open: map<Reference, nat>

    function State(): Registry
      reads this
    {
      Registry(current, versions, open)
    }

    constructor (rules: seq<Rule>)
      ensures State() == Published(Registry([], map[], map[]), rules)
    {
      current, versions, open := [], map[], map[];
      new;
      Publish(rules);
    }

    method Publish(rules: seq<Rule>)
      modifies this
      ensures State() == Published(old(State()), rules)
    {
      var kept := KeepHeld(State());
      var next := AddCurrent(kept, rules);
      current, versions := rules, next;
    }

    method MatchAndRetain(doc: Json) returns (r: Option<Rule>)
      modifies this
      ensures r == FirstMatch(old(current), doc)
      ensures State() == if r.Some? then Retained(old(State()), ReferenceOf(r.value)) else old(State())
    {
      r := FindMatch(current, doc);
      if r.Some? {
        var ref := ReferenceOf(r.value);
        open := open[ref := Holders(State(), ref) + 1];
      }
    }

    /** SeedOpenFlows: one count after the other. */
    method SeedOpenFlows(counts: map<Reference, nat>)
      modifies this`open
      ensures State() == Seeded(old(State()), counts)
    {
      var todo := counts.Keys;
      while todo != {}
        invariant todo <= counts.Keys && open == old(open) + (counts - todo)
        decreases todo
      {
        var ref :| ref in todo;
        open := open[ref := counts[ref]];
        todo := todo - {ref};
      }
      assert counts - todo == counts;
    }

    method Release(ref: Reference)
      modifies this
      ensures State() == Released(old(State()), ref)
    {
      if Holders(State(), ref) > 1 {
        open := open[ref := open[ref] - 1];
        return;
      }
      open := open - {ref};
      for i := 0 to |current|
        invariant State() == old(State()).(open := old(open) - {ref})
        invariant !IsCurrent(current[..i], ref)
      {
        if ReferenceOf(current[i]) == ref {
          return;
        }
      }
      assert current[..|current|] == current;
      versions := versions - {ref};
    }

    method Get(ref: Reference) returns (r: Option<Rule>)
      ensures r == if ref in versions then Some(versions[ref]) else None
    {
      r := if ref in versions then Some(versions[ref]) else None;
    }
  }
}
