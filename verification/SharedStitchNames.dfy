/** Validation accepts two stitches with one name; then the order of arrival shows. */
module SharedStitchNames {
  import opened ByteText
  import opened PathLanguage
  import opened Rules
  import opened FlowModel
  import opened FlowAccounting
  import opened FlowOrder

  const LEFT := Stitch("s", [], [Role("r", ["a"]), Role("q", ["x"])], ["q"])
  const RIGHT := Stitch("s", [], [Role("q", ["b"]), Role("p", ["y"])], ["p"])

  const SHARED := Rule("rule", "v1", true, [Key("t")], [Key("k")], [LEFT, RIGHT], 1, true, 0, [], 0, 0, 0, "flows", [])

  function Typed(t: Text): Document
  {
    Document(Obj(map["t" := Str(t)]), 1)
  }

  lemma TypeOf(t: Text)
    ensures Resolve(SHARED.eventType, Typed(t).body) == Some(t)
  {
    var body := Typed(t).body;
    assert SHARED.eventType[1..] == [];
    assert Select(body.fields["t"], []) == Some(Str(t));
    assert Select(body, SHARED.eventType) == Some(Str(t));
  }

  lemma SharedClaims()
    ensures Claims(SHARED) == [Claim(0, "r", "a"), Claim(0, "q", "x"), Claim(1, "q", "b"), Claim(1, "p", "y")]
  {
    assert StitchClaims(0, LEFT.roles[1..][1..]) == [];
    assert StitchClaims(0, LEFT.roles[1..]) == [Claim(0, "q", "x")];
    assert StitchClaims(0, LEFT.roles) == [Claim(0, "r", "a"), Claim(0, "q", "x")];
    assert StitchClaims(1, RIGHT.roles[1..][1..]) == [];
    assert StitchClaims(1, RIGHT.roles[1..]) == [Claim(1, "p", "y")];
    assert StitchClaims(1, RIGHT.roles) == [Claim(1, "q", "b"), Claim(1, "p", "y")];
    assert ClaimsFrom(SHARED.stitch, 2) == [];
    assert ClaimsFrom(SHARED.stitch, 1) == [Claim(1, "q", "b"), Claim(1, "p", "y")];
  }

  lemma SharedIsValid()
    ensures ValidRule(SHARED) && !SeparateStitches(SHARED)
  {
    hide Claims;
    SharedClaims();
    assert SHARED.stitch[0].id == SHARED.stitch[1].id;
    assert LEFT.roles[1].name in RoleNames(LEFT.roles) && RIGHT.roles[1].name in RoleNames(RIGHT.roles);
  }

  lemma SharedSlots()
    ensures SlotOf(SHARED, Typed("a").body) == Some(Slot(0, "r", "a", []))
    ensures SlotOf(SHARED, Typed("b").body) == Some(Slot(1, "q", "b", []))
  {
    hide Claims, Resolve;
    SharedClaims();
    TypeOf("a");
    TypeOf("b");
    assert FirstClaim(Claims(SHARED), "a") == Some(Claim(0, "r", "a"));
    SharedIsValid();
    assert Claims(SHARED)[2] == Claim(1, "q", "b");
    ClaimIsUnique(Claims(SHARED), Claim(1, "q", "b"));
  }

  /** The invocation both events join is complete only when the left stitch looks last. */
  lemma OrderShows()
    ensures ViewOf(Open(FlowKey("rule", "k"), SHARED, Event(Typed("a"), 0))).groups == map[]
    ensures
      var v := ViewOf(Open(FlowKey("rule", "k"), SHARED, Event(Typed("a"), 0)));
      var identity := InvocationKey("s", []);
      var ab := Seen(Seen(v, Typed("a"), SHARED), Typed("b"), SHARED);
      var ba := Seen(Seen(v, Typed("b"), SHARED), Typed("a"), SHARED);
      && identity in ab.groups && !ab.groups[identity].complete
      && identity in ba.groups && ba.groups[identity].complete
  {
    hide SlotOf, InvocationKey, MarksTerminal, Over, GroupOf;
    SharedSlots();
    assert RequiredRoles(LEFT) == {"q"} && RequiredRoles(RIGHT) == {"p"};
    var s, t := Slot(0, "r", "a", []), Slot(1, "q", "b", []);
    assert Identity(SHARED, s) == Identity(SHARED, t) == InvocationKey("s", []);
  }

  /** A valid rule whose two stitches share an invocation, and two events that contend for no slot
      but are not compatible: their two orders correlate differently. */
  lemma SharedNamesBreakOrder()
    ensures ValidRule(SHARED) && !SeparateStitches(SHARED)
    ensures NoContention({Typed("a"), Typed("b")}, SHARED) && !CompatibleDocs(SHARED, Typed("a"), Typed("b"))
    ensures
      var key, a, b := FlowKey("rule", "k"), Event(Typed("a"), 0), Event(Typed("b"), 0);
      var open := Open(key, SHARED, a);
      ViewOf(ApplyAll(open, [Input(a, 0), Input(b, 0)], SHARED)) !=
          ViewOf(ApplyAll(open, [Input(b, 0), Input(a, 0)], SHARED))
  {
    hide ViewOf, Open, Seen, ApplyAll, SlotOf;
    SharedIsValid();
    SharedSlots();
    var key, a, b := FlowKey("rule", "k"), Event(Typed("a"), 0), Event(Typed("b"), 0);
    var docs := {Typed("a"), Typed("b")};
    var p, q := [Input(a, 0), Input(b, 0)], [Input(b, 0), Input(a, 0)];
    RunFollows(key, SHARED, a, p, docs);
    RunFollows(key, SHARED, a, q, docs);
    var v := ViewOf(Open(key, SHARED, a));
    assert Docs(p) == [Typed("a")] + [Typed("b")] && Docs(q) == [Typed("b")] + [Typed("a")];
    SeenPair(v, Typed("a"), Typed("b"));
    SeenPair(v, Typed("b"), Typed("a"));
    OrderShows();
    assert !CompatibleDocs(SHARED, Typed("a"), Typed("b")) by { Incompatible(); }
  }

  lemma Incompatible()
    ensures !CompatibleDocs(SHARED, Typed("a"), Typed("b"))
  {
    hide SlotOf, InvocationKey, GroupOf;
    SharedSlots();
    var s, t := Slot(0, "r", "a", []), Slot(1, "q", "b", []);
    assert RequiredRoles(LEFT) == {"q"} && RequiredRoles(RIGHT) == {"p"};
    assert "p" in RequiredRoles(RIGHT) && "p" !in RequiredRoles(LEFT) + {"r", "q"};
    assert Identity(SHARED, s) == Identity(SHARED, t);
  }

  lemma SeenPair(v: View, a: Document, b: Document)
    ensures SeenAll(v, [a] + [b], SHARED) == Seen(Seen(v, a, SHARED), b, SHARED)
  {
    hide Seen;
    SeenAllSnoc(v, [a], b, SHARED);
    SeenAllSnoc(v, [], a, SHARED);
    assert [] + [a] == [a];
  }
}
