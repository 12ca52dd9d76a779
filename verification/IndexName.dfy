/** Output-index patterns (internal/domain/indexname/index.go): date placeholders, their resolution,
    and the wildcard under which an index template must cover every resolved name. */
module IndexName {
  import opened ByteText
  import opened Rules

  datatype Field = Year | Month | Day

  /** A pattern is literal characters and placeholders. */
  datatype Token = Literal(c: char) | Placeholder(field: Field)

  function NameOf(f: Field): Text
  {
    match f
    case Year => "yyyy"
    case Month => "MM"
    case Day => "dd"
  }

  function Mark(f: Field): Text
  {
    "{" + NameOf(f) + "}"
  }

  predicate IsBrace(c: char)
  {
    c == '{' || c == '}'
  }

  predicate NoBrace(s: Text)
  {
    '{' !in s && '}' !in s
  }

  predicate Plain(tokens: seq<Token>)
  {
    forall i :: 0 <= i < |tokens| && tokens[i].Literal? ==> !IsBrace(tokens[i].c)
  }

  function ShowToken(t: Token, values: map<Field, Text>): Text
  {
    match t
    case Literal(c) => [c]
    case Placeholder(f) => if f in values then values[f] else Mark(f)
  }

  /** The text of a pattern in which some placeholders are already replaced. */
  function Show(tokens: seq<Token>, values: map<Field, Text>): Text
  {
    if tokens == [] then "" else ShowToken(tokens[0], values) + Show(tokens[1..], values)
  }

  // ---------- searching ----------

  /** IndexByte from an offset; the length when there is none. */
  method IndexByte(s: Text, from: nat, c: char) returns (i: nat)
    requires from <= |s|
    ensures from <= i <= |s| && (i < |s| ==> s[i] == c)
    ensures forall k :: from <= k < i ==> s[k] != c
  {
    i := from;
    while i < |s| && s[i] != c
      invariant from <= i <= |s|
      invariant forall k :: from <= k < i ==> s[k] != c
    {
      i := i + 1;
    }
  }

  // ---------- Validate ----------

  function FieldAt(p: Text): (f: Option<Field>)
    ensures f.Some? ==> HasPrefix(p, Mark(f.value))
    ensures f.None? ==> forall x :: !HasPrefix(p, Mark(x))
  {
    if HasPrefix(p, "{yyyy}") then Some(Year)
    else if HasPrefix(p, "{MM}") then Some(Month)
    else if HasPrefix(p, "{dd}") then Some(Day)
    else None
  }

  /** Every opening brace starts a known placeholder. */
  predicate Opens(p: Text)
    decreases |p|
  {
    p == "" ||
    if p[0] != '{' then Opens(p[1..])
    else FieldAt(p).Some? && Opens(p[|Mark(FieldAt(p).value)|..])
  }

  /** What is left when placeholders are cut out from the left. */
  function Outside(p: Text): Text
    decreases |p|
  {
    if p == "" then ""
    else if p[0] != '{' then [p[0]] + Outside(p[1..])
    else if FieldAt(p).Some? then Outside(p[|Mark(FieldAt(p).value)|..])
    else p
  }

  /** The tokens a pattern consists of, when it is nothing but tokens. */
  function Tokens(p: Text): Option<seq<Token>>
    decreases |p|
  {
    if p == "" then Some([])
    else if p[0] == '}' then None
    else if p[0] != '{' then
      (match Tokens(p[1..]) case None => None case Some(ts) => Some([Literal(p[0])] + ts))
    else
      match FieldAt(p)
      case None => None
      case Some(f) => match Tokens(p[|Mark(f)|..]) case None => None case Some(ts) => Some([Placeholder(f)] + ts)
  }

  lemma PrefixSplits(p: Text, q: Text)
    requires HasPrefix(p, q)
    ensures p == q + p[|q|..]
  {
  }

  lemma {:induction false} TokensShow(p: Text)
    ensures Tokens(p).Some? ==> Plain(Tokens(p).value) && Show(Tokens(p).value, map[]) == p
    decreases |p|
  {
    if p != "" && Tokens(p).Some? {
      var ts := Tokens(p).value;
      if p[0] != '{' {
        TokensShow(p[1..]);
        assert ts[1..] == Tokens(p[1..]).value;
        assert p == [p[0]] + p[1..];
      } else {
        var f := FieldAt(p).value;
        TokensShow(p[|Mark(f)|..]);
        assert ts[1..] == Tokens(p[|Mark(f)|..]).value;
        PrefixSplits(p, Mark(f));
      }
    }
  }

  lemma FieldAtMark(f: Field, rest: Text)
    ensures FieldAt(Mark(f) + rest) == Some(f) && (Mark(f) + rest)[|Mark(f)|..] == rest
  {
    var p := Mark(f) + rest;
    assert p[..|Mark(f)|] == Mark(f);
    assert p[1] == NameOf(f)[0];
  }

  lemma {:induction false} ShownTokens(ts: seq<Token>)
    requires Plain(ts)
    ensures Tokens(Show(ts, map[])) == Some(ts)
    decreases |ts|
  {
    hide FieldAt;
    if ts != [] {
      var rest := Show(ts[1..], map[]);
      ShownTokens(ts[1..]);
      assert ts == [ts[0]] + ts[1..];
      match ts[0]
      case Literal(c) =>
        assert Show(ts, map[])[1..] == rest;
      case Placeholder(f) =>
        FieldAtMark(f, rest);
    }
  }

  lemma {:induction false} OpensThenTokens(p: Text)
    ensures Tokens(p).Some? <==> Opens(p) && '}' !in Outside(p)
    decreases |p|
  {
    if p != "" {
      if p[0] != '{' {
        OpensThenTokens(p[1..]);
      } else if FieldAt(p).Some? {
        OpensThenTokens(p[|Mark(FieldAt(p).value)|..]);
      }
    }
  }

  lemma SkipPlain(p: Text, n: nat)
    requires n <= |p| && forall k :: 0 <= k < n ==> p[k] != '{'
    ensures Opens(p) == Opens(p[n..]) && Outside(p) == p[..n] + Outside(p[n..])
  {
    assert p == p[..n] + p[n..];
    PassPlain(p[..n], p[n..]);
  }

  lemma {:induction false} PassPlain(a: Text, s: Text)
    requires '{' !in a
    ensures Opens(a + s) == Opens(s) && Outside(a + s) == a + Outside(s)
    decreases |a|
  {
    hide Opens, Outside;
    if a == "" {
      assert a + s == s;
    } else {
      assert a + s == [a[0]] + (a[1..] + s);
      PassOne(a[0], a[1..] + s);
      PassPlain(a[1..], s);
      assert [a[0]] + (a[1..] + Outside(s)) == a + Outside(s);
    }
  }

  lemma PassOne(c: char, s: Text)
    requires c != '{'
    ensures Opens([c] + s) == Opens(s) && Outside([c] + s) == [c] + Outside(s)
  {
    hide FieldAt;
    assert ([c] + s)[1..] == s;
  }

  /** A placeholder is what lies between the brace and the next closing one. */
  lemma NameDecides(p: Text, close: nat)
    requires p != "" && p[0] == '{' && 1 <= close < |p| && p[close] == '}' && forall k :: 1 <= k < close ==> p[k] != '}'
    ensures FieldAt(p).Some? <==> p[1..close] == "yyyy" || p[1..close] == "MM" || p[1..close] == "dd"
    ensures FieldAt(p).Some? ==> |Mark(FieldAt(p).value)| == close + 1
  {
    assert p[..close + 1] == "{" + p[1..close] + "}";
    if FieldAt(p).Some? {
      var m := Mark(FieldAt(p).value);
      assert p[..|m|] == m;
      assert forall k :: 0 <= k < |m| ==> p[k] == m[k];
      assert m[|m| - 1] == '}' && forall k :: 0 <= k < |m| - 1 ==> m[k] != '}';
      assert close == |m| - 1;
      assert p[1..close] == m[1..|m| - 1];
    } else {
      assert !HasPrefix(p, Mark(Year)) && !HasPrefix(p, Mark(Month)) && !HasPrefix(p, Mark(Day));
    }
  }

  lemma Unclosed(p: Text)
    requires p != "" && p[0] == '{' && forall k :: 1 <= k < |p| ==> p[k] != '}'
    ensures FieldAt(p).None?
  {
    forall x ensures !HasPrefix(p, Mark(x)) {
      var m := Mark(x);
      assert m[|m| - 1] == '}';
      if |m| <= |p| {
        assert p[..|m|][|m| - 1] == p[|m| - 1];
      }
    }
  }

  /** The first loop of Validate. */
  method CheckOpenings(pattern: Text) returns (ok: bool)
    ensures ok == Opens(pattern)
  {
    hide Opens, FieldAt, Outside;
    var offset := 0;
    assert pattern[0..] == pattern;
    while true
      invariant 0 <= offset <= |pattern|
      invariant Opens(pattern) == Opens(pattern[offset..])
      decreases |pattern| - offset
    {
      var start := IndexByte(pattern, offset, '{');
      SkipPlain(pattern[offset..], start - offset);
      assert pattern[offset..][start - offset..] == pattern[start..];
      if start == |pattern| {
        assert Opens("") by { OpensUnfold(""); }
        return true;
      }
      var p := pattern[start..];
      var end := IndexByte(pattern, start + 1, '}');
      OpensUnfold(p);
      if end == |pattern| {
        Unclosed(p);
        return false;
      }
      var name := pattern[start + 1..end];
      assert p[1..end - start] == name;
      NameDecides(p, end - start);
      if name != "yyyy" && name != "MM" && name != "dd" {
        return false;
      }
      offset := end + 1;
      assert p[end + 1 - start..] == pattern[offset..];
    }
  }

  lemma OpensUnfold(p: Text)
    ensures p == "" ==> Opens(p)
    ensures p != "" && p[0] == '{' ==>
              (Opens(p) <==> FieldAt(p).Some? && Opens(p[|Mark(FieldAt(p).value)|..]))
  {
  }

  /** The second loop, once every opening brace is known to start a placeholder. */
  method CutPlaceholders(pattern: Text) returns (remaining: Text)
    requires Opens(pattern)
    ensures remaining == Outside(pattern)
  {
    hide Opens, Outside, FieldAt;
    remaining := pattern;
    while true
      invariant Opens(remaining) && Outside(remaining) == Outside(pattern)
      decreases |remaining|
    {
      var start := IndexByte(remaining, 0, '{');
      SkipPlain(remaining, start);
      if start == |remaining| {
        assert remaining[start..] == "" && remaining[..start] == remaining;
        assert Outside("") == "" by { OutsideUnfold(""); }
        return;
      }
      var p := remaining[start..];
      var end := IndexByte(remaining, start + 1, '}');
      OpensUnfold(p);
      if end == |remaining| {
        Unclosed(p);
        assert false;
      }
      NameDecides(p, end - start);
      OutsideUnfold(p);
      var next := remaining[..start] + remaining[end + 1..];
      assert p[end + 1 - start..] == remaining[end + 1..];
      SkipPlain(next, start);
      assert next[start..] == remaining[end + 1..] && next[..start] == remaining[..start];
      remaining := next;
    }
  }

  lemma OutsideUnfold(p: Text)
    ensures p == "" ==> Outside(p) == ""
    ensures p != "" && p[0] == '{' && FieldAt(p).Some? ==> Outside(p) == Outside(p[|Mark(FieldAt(p).value)|..])
  {
  }

  lemma NoClosingOutside(p: Text)
    requires '}' !in p
    ensures '}' !in Outside(p)
    decreases |p|
  {
    if p != "" {
      if p[0] != '{' {
        NoClosingOutside(p[1..]);
      } else if FieldAt(p).Some? {
        NoClosingOutside(p[|Mark(FieldAt(p).value)|..]);
      }
    }
  }

  /** Validate accepts exactly the concatenations of brace-free characters and known placeholders. */
  method Validate(pattern: Text) returns (ok: bool)
    ensures ok <==> exists ts :: Plain(ts) && Show(ts, map[]) == pattern
    ensures ok == Tokens(pattern).Some?
  {
    hide Opens, Outside, Tokens, Show;
    OpensThenTokens(pattern);
    ValidMeansTokens(pattern);
    var opens := CheckOpenings(pattern);
    if !opens {
      return false;
    }
    if '}' in pattern {
      var remaining := CutPlaceholders(pattern);
      return '}' !in remaining;
    }
    NoClosingOutside(pattern);
    return true;
  }

  lemma ValidMeansTokens(pattern: Text)
    ensures Tokens(pattern).Some? <==> exists ts :: Plain(ts) && Show(ts, map[]) == pattern
  {
    hide Tokens, Show;
    TokensShow(pattern);
    if ts :| Plain(ts) && Show(ts, map[]) == pattern {
      ShownTokens(ts);
    }
  }

  // ---------- ReplaceAll ----------

  /** strings.ReplaceAll for a non-empty `what`. */
  function ReplaceAll(s: Text, what: Text, sub: Text): Text
    requires what != ""
    decreases |s|
  {
    if s == "" then ""
    else if HasPrefix(s, what) then sub + ReplaceAll(s[|what|..], what, sub)
    else [s[0]] + ReplaceAll(s[1..], what, sub)
  }

  /** Text without the first character of `what` is passed over. */
  lemma {:induction false} PassOver(a: Text, s: Text, what: Text, sub: Text)
    requires what != "" && what[0] !in a
    ensures ReplaceAll(a + s, what, sub) == a + ReplaceAll(s, what, sub)
    decreases |a|
  {
    if a == "" {
      assert a + s == s;
    } else {
      assert (a + s)[0] == a[0] && (a + s)[1..] == a[1..] + s;
      PassOver(a[1..], s, what, sub);
      assert !HasPrefix(a + s, what);
    }
  }

  lemma OtherMark(f: Field, g: Field, rest: Text)
    requires f != g
    ensures !HasPrefix(Mark(g) + rest, Mark(f))
  {
    var p := Mark(g) + rest;
    assert p[1] == NameOf(g)[0];
  }

  lemma ReplaceAtMark(f: Field, rest: Text, sub: Text)
    ensures ReplaceAll(Mark(f) + rest, Mark(f), sub) == sub + ReplaceAll(rest, Mark(f), sub)
  {
    var p := Mark(f) + rest;
    assert p[..|Mark(f)|] == Mark(f) && p[|Mark(f)|..] == rest;
  }

  lemma NameHasNoBrace(f: Field)
    ensures NoBrace(NameOf(f))
  {
  }

  lemma ReplaceBesideMark(f: Field, g: Field, rest: Text, sub: Text)
    requires f != g
    ensures ReplaceAll(Mark(g) + rest, Mark(f), sub) == Mark(g) + ReplaceAll(rest, Mark(f), sub)
  {
    hide NameOf;
    OtherMark(f, g, rest);
    NameHasNoBrace(g);
    var p := Mark(g) + rest;
    var tail := NameOf(g) + "}";
    assert p[0] == '{' && p[1..] == tail + rest;
    PassOver(tail, rest, Mark(f), sub);
    assert Mark(g) == "{" + tail;
  }

  predicate BraceFree(values: map<Field, Text>)
  {
    forall f :: f in values ==> NoBrace(values[f])
  }

  lemma ReplaceAtToken(t: Token, rest: Text, values: map<Field, Text>, f: Field, sub: Text)
    requires (t.Literal? ==> !IsBrace(t.c)) && BraceFree(values) && f !in values
    ensures ReplaceAll(ShowToken(t, values) + rest, Mark(f), sub) ==
            ShowToken(t, values[f := sub]) + ReplaceAll(rest, Mark(f), sub)
  {
    hide ReplaceAll;
    match t
    case Literal(c) => PassOver([c], rest, Mark(f), sub);
    case Placeholder(g) =>
      if g in values {
        PassOver(values[g], rest, Mark(f), sub);
      } else if g == f {
        ReplaceAtMark(f, rest, sub);
      } else {
        ReplaceBesideMark(f, g, rest, sub);
      }
  }

  /** Replacing one placeholder everywhere leaves the other tokens alone. */
  lemma {:induction false} ReplaceField(tokens: seq<Token>, values: map<Field, Text>, f: Field, sub: Text)
    requires Plain(tokens) && BraceFree(values) && f !in values
    ensures ReplaceAll(Show(tokens, values), Mark(f), sub) == Show(tokens, values[f := sub])
    decreases |tokens|
  {
    hide ShowToken, Mark;
    if tokens != [] {
      var rest := Show(tokens[1..], values);
      MarkIsText(f);
      ReplaceField(tokens[1..], values, f, sub);
      ReplaceAtToken(tokens[0], rest, values, f, sub);
    } else {
      MarkIsText(f);
    }
  }

  lemma MarkIsText(f: Field)
    ensures Mark(f) != ""
  {
  }

  // ---------- Resolve ----------

  const FIELDS: set<Field> := {Year, Month, Day}

  lemma EveryField(f: Field)
    ensures f in FIELDS && f in STARS && STARS[f] == "*"
  {
    match f
    case Year =>
    case Month =>
    case Day =>
  }

  predicate AllFields(values: map<Field, Text>)
  {
    values.Keys == FIELDS
  }

  predicate Prefix(part: map<Field, Text>, whole: map<Field, Text>)
  {
    forall f :: f in part ==> f in whole && part[f] == whole[f]
  }

  /** The placeholder loop, in whatever order the map is visited: the result is the same. */
  method Substitute(pattern: Text, values: map<Field, Text>, ghost tokens: seq<Token>) returns (resolved: Text)
    requires AllFields(values) && BraceFree(values) && Plain(tokens) && Show(tokens, map[]) == pattern
    ensures resolved == Show(tokens, values)
  {
    hide Show, ReplaceAll, Plain, NoBrace;
    resolved := pattern;
    ghost var done: map<Field, Text> := map[];
    var todo := FIELDS;
    while todo != {}
      invariant todo <= FIELDS && done.Keys == FIELDS - todo && Prefix(done, values)
      invariant resolved == Show(tokens, done)
      decreases todo
    {
      var f :| f in todo;
      ReplaceField(tokens, done, f, values[f]);
      MarkIsText(f);
      resolved := ReplaceAll(resolved, Mark(f), values[f]);
      done := done[f := values[f]];
      todo := todo - {f};
    }
    assert done == values;
  }

  lemma {:induction false} ShownWithoutBraces(tokens: seq<Token>, values: map<Field, Text>)
    requires Plain(tokens) && AllFields(values) && BraceFree(values)
    ensures NoBrace(Show(tokens, values))
    decreases |tokens|
  {
    if tokens != [] {
      ShownWithoutBraces(tokens[1..], values);
      match tokens[0]
      case Literal(c) =>
      case Placeholder(f) => EveryField(f);
    }
  }

  /** Resolve: `dateOf` formats a UTC time; its texts hold no brace. The date is the document's own, or that of
      finalization when the document has none. */
  method Resolve(pattern: Text, documentTime: Time, finalizedAt: Time, dateOf: Time -> map<Field, Text>,
                 ghost tokens: seq<Token>)
    returns (index: Text)
    requires forall at :: AllFields(dateOf(at)) && BraceFree(dateOf(at))
    requires Plain(tokens) && Show(tokens, map[]) == pattern
    ensures documentTime != ZERO_TIME ==> index == Show(tokens, dateOf(documentTime))
    ensures documentTime == ZERO_TIME ==> index == Show(tokens, dateOf(finalizedAt))
    ensures NoBrace(index)
  {
    hide Show, Plain, AllFields, BraceFree;
    var at := documentTime;
    if at == ZERO_TIME {
      at := finalizedAt;
    }
    index := Substitute(pattern, dateOf(at), tokens);
    ShownWithoutBraces(tokens, dateOf(at));
  }

  // ---------- WildcardPattern ----------

  /** What an index template matches: a star stands for any text, anything else for itself. */
  ghost predicate Globs(glob: Text, s: Text)
    decreases |glob|
  {
    if glob == "" then s == ""
    else if glob[0] == '*' then exists k :: 0 <= k <= |s| && Globs(glob[1..], s[k..])
    else s != "" && s[0] == glob[0] && Globs(glob[1..], s[1..])
  }

  lemma StarTakes(glob: Text, s: Text, k: nat)
    requires k <= |s| && Globs(glob, s[k..])
    ensures Globs("*" + glob, s)
  {
    assert ("*" + glob)[1..] == glob;
  }

  const STARS: map<Field, Text> := map[Year := "*", Month := "*", Day := "*"]

  /** With a star for each date part, the pattern matches every date. */
  lemma {:induction false} StarsMatch(tokens: seq<Token>, values: map<Field, Text>)
    requires AllFields(values)
    ensures Globs(Show(tokens, STARS), Show(tokens, values))
    decreases |tokens|
  {
    hide Globs;
    if tokens == [] {
      assert Globs("", "") by { EmptyGlob(); }
    } else {
      var glob, rest := Show(tokens[1..], STARS), Show(tokens[1..], values);
      StarsMatch(tokens[1..], values);
      match tokens[0]
      case Literal(c) => LiteralGlob(c, glob, rest);
      case Placeholder(f) =>
        EveryField(f);
        assert (values[f] + rest)[|values[f]|..] == rest;
        StarTakes(glob, values[f] + rest, |values[f]|);
    }
  }

  lemma EmptyGlob()
    ensures Globs("", "")
  {
  }

  lemma LiteralGlob(c: char, glob: Text, s: Text)
    requires Globs(glob, s)
    ensures Globs([c] + glob, [c] + s)
  {
    assert ([c] + glob)[1..] == glob && ([c] + s)[1..] == s;
    if c == '*' {
      assert Globs(([c] + glob)[1..], ([c] + s)[1..]);
    }
  }

  function Doubled(separator: char): Text
  {
    ['*', separator, '*']
  }

  lemma StarTail(glob: Text, s: Text) returns (k: nat)
    requires glob != "" && glob[0] == '*' && Globs(glob, s)
    ensures k <= |s| && Globs(glob[1..], s[k..])
  {
    k :| 0 <= k <= |s| && Globs(glob[1..], s[k..]);
  }

  lemma PlainTail(glob: Text, s: Text)
    requires glob != "" && glob[0] != '*' && Globs(glob, s)
    ensures s != "" && s[0] == glob[0] && Globs(glob[1..], s[1..])
  {
  }

  /** "*-*" matches no more than "*" does. */
  lemma DoubledTail(rest: Text, separator: char, s: Text) returns (k: nat)
    requires separator != '*' && Globs(Doubled(separator) + rest, s)
    ensures k <= |s| && Globs(rest, s[k..])
  {
    hide Globs;
    var glob := Doubled(separator) + rest;
    var i := StarTail(glob, s);
    PlainTail(glob[1..], s[i..]);
    assert s[i..][1..] == s[i + 1..];
    var j := StarTail(glob[1..][1..], s[i + 1..]);
    assert glob[1..][1..][1..] == rest && s[i + 1..][j..] == s[i + 1 + j..];
    k := i + 1 + j;
  }

  /** Shortening the glob never loses a match. */
  lemma {:induction false} ShorteningKeepsMatches(glob: Text, separator: char, s: Text)
    requires separator != '*' && Globs(glob, s)
    ensures Globs(ReplaceAll(glob, Doubled(separator), "*"), s)
    decreases |glob|
  {
    hide Globs;
    var what := Doubled(separator);
    if glob == "" {
    } else if HasPrefix(glob, what) {
      var rest := glob[|what|..];
      assert glob == what + rest;
      var k := DoubledTail(rest, separator, s);
      ShorteningKeepsMatches(rest, separator, s[k..]);
      StarTakes(ReplaceAll(rest, what, "*"), s, k);
    } else if glob[0] == '*' {
      var k := StarTail(glob, s);
      ShorteningKeepsMatches(glob[1..], separator, s[k..]);
      StarTakes(ReplaceAll(glob[1..], what, "*"), s, k);
    } else {
      PlainTail(glob, s);
      ShorteningKeepsMatches(glob[1..], separator, s[1..]);
      LiteralGlob(glob[0], ReplaceAll(glob[1..], what, "*"), s[1..]);
      assert s == [s[0]] + s[1..];
    }
  }

  lemma {:induction false} ShorteningShortens(s: Text, what: Text, sub: Text)
    requires |sub| < |what|
    ensures |ReplaceAll(s, what, sub)| <= |s|
    ensures |ReplaceAll(s, what, sub)| == |s| ==> ReplaceAll(s, what, sub) == s && Absent(what, s)
    decreases |s|
  {
    if s != "" {
      if HasPrefix(s, what) {
        ShorteningShortens(s[|what|..], what, sub);
      } else {
        ShorteningShortens(s[1..], what, sub);
        if |ReplaceAll(s, what, sub)| == |s| {
          assert s == [s[0]] + s[1..];
          forall i | 0 <= i <= |s| ensures !HasPrefix(s[i..], what) {
            if i > 0 {
              assert s[i..] == s[1..][i - 1..];
            } else {
              assert s[0..] == s;
            }
          }
        }
      }
    }
  }

  predicate Absent(what: Text, s: Text)
  {
    forall i :: 0 <= i <= |s| ==> !HasPrefix(s[i..], what)
  }

  /** The glob matches the index of every date. */
  ghost predicate Covers(glob: Text, tokens: seq<Token>)
  {
    forall values :: AllFields(values) ==> Globs(glob, Show(tokens, values))
  }

  lemma StarsCover(tokens: seq<Token>)
    ensures Covers(Show(tokens, STARS), tokens)
  {
    hide Globs, Show;
    forall values | AllFields(values) ensures Globs(Show(tokens, STARS), Show(tokens, values)) {
      StarsMatch(tokens, values);
    }
  }

  lemma ShorteningCovers(glob: Text, separator: char, tokens: seq<Token>)
    requires separator != '*' && Covers(glob, tokens)
    ensures Covers(ReplaceAll(glob, Doubled(separator), "*"), tokens)
  {
    hide Globs, Show, ReplaceAll;
    forall values | AllFields(values) ensures Globs(ReplaceAll(glob, Doubled(separator), "*"), Show(tokens, values)) {
      ShorteningKeepsMatches(glob, separator, Show(tokens, values));
    }
  }

  method Shorten(glob: Text, separator: char, ghost tokens: seq<Token>) returns (shorter: Text)
    requires separator != '*' && Covers(glob, tokens)
    ensures Covers(shorter, tokens)
    ensures |shorter| <= |glob| && (|shorter| == |glob| ==> shorter == glob && Absent(Doubled(separator), glob))
  {
    hide Covers, ReplaceAll, Absent;
    shorter := ReplaceAll(glob, Doubled(separator), "*");
    ShorteningCovers(glob, separator, tokens);
    ShorteningShortens(glob, Doubled(separator), "*");
  }

  /** WildcardPattern: the rewriting ends, leaves no separator between two stars, and the result
      covers every index the pattern resolves to. */
  method Wildcard(pattern: Text, ghost tokens: seq<Token>) returns (glob: Text)
    requires Plain(tokens) && Show(tokens, map[]) == pattern
    ensures Covers(glob, tokens)
    ensures Absent("*.*", glob) && Absent("*-*", glob) && Absent("*_*", glob)
  {
    hide Covers, Show, Plain, Absent, NoBrace;
    StarsAreFields();
    glob := Substitute(pattern, STARS, tokens);
    StarsCover(tokens);
    while true
      invariant Covers(glob, tokens)
      decreases |glob|
    {
      var previous := glob;
      glob := Shorten(glob, '.', tokens);
      glob := Shorten(glob, '-', tokens);
      glob := Shorten(glob, '_', tokens);
      if glob == previous {
        return;
      }
    }
  }

  lemma StarsAreFields()
    ensures AllFields(STARS) && BraceFree(STARS)
  {
  }
}
