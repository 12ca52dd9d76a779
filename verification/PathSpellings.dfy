/** The path language as a set of spellings: what compiles is exactly a dollar sign followed by one piece for each
    segment, the first a bare key. */
module PathSpellings {
  import opened ByteText
  import opened Decimal
  import opened PathLanguage

  // ---------- spellings ----------

  /** A quoted key between its quotes: a backslash before each quote and backslash, other bytes as they are. */
  predicate Unescapes(body: Text, key: Text)
    decreases |body|
  {
    if body == "" then key == ""
    else if body[0] == '\\' then
      && |body| >= 2 && (body[1] == '"' || body[1] == '\\')
      && key != "" && key[0] == body[1] && Unescapes(body[2..], key[1..])
    else body[0] != '"' && key != "" && key[0] == body[0] && Unescapes(body[1..], key[1..])
  }

  /** Digits with an optional minus sign. */
  predicate Numeral(n: Text)
  {
    n != "" && if n[0] == '-' then |n| > 1 && AllDigits(n[1..]) else AllDigits(n)
  }

  predicate QuotesKey(piece: Text, body: Text, key: Text)
  {
    piece == "[\"" + body + "\"]" && Unescapes(body, key)
  }

  predicate WritesIndex(piece: Text, numeral: Text, i: int)
  {
    piece == "[" + numeral + "]" && Numeral(numeral) && Atoi(numeral) == Some(i)
  }

  predicate Dotted(piece: Text, segment: Segment)
  {
    segment.Key? && IsBareKey(segment.key) && piece == "." + segment.key
  }

  ghost predicate Bracketed(piece: Text, segment: Segment)
  {
    match segment
    case Key(key) => exists body :: QuotesKey(piece, body, key)
    case Index(i) => exists numeral :: WritesIndex(piece, numeral, i)
  }

  function Concat(pieces: seq<Text>): Text
  {
    if pieces == [] then "" else pieces[0] + Concat(pieces[1..])
  }

  ghost predicate SpellsAll(pieces: seq<Text>, segments: seq<Segment>)
  {
    && |pieces| == |segments|
    && forall i :: 0 <= i < |pieces| ==> Dotted(pieces[i], segments[i]) || Bracketed(pieces[i], segments[i])
  }

  ghost predicate Spells(expr: Text, segments: seq<Segment>, pieces: seq<Text>)
  {
    && pieces != [] && SpellsAll(pieces, segments) && Dotted(pieces[0], segments[0])
    && expr == "$" + Concat(pieces)
  }

  lemma PieceStarts(piece: Text, segment: Segment)
    ensures Dotted(piece, segment) ==> piece != "" && piece[0] == '.'
    ensures Bracketed(piece, segment) ==> piece != "" && piece[0] == '['
  {
    hide Unescapes, Numeral, Atoi;
  }

  lemma ConcatJoins(a: seq<Text>, b: seq<Text>)
    ensures Concat(a + b) == Concat(a) + Concat(b)
    decreases |a|
  {
    if a == [] {
      assert a + b == b;
    } else {
      assert (a + b)[0] == a[0] && (a + b)[1..] == a[1..] + b;
      ConcatJoins(a[1..], b);
    }
  }

  // ---------- what compiles is a spelling ----------

  lemma {:induction false} QuotedIsSpelled(s: Text) returns (body: Text)
    requires Quoted(s).Some?
    ensures s == body + "\"" + Quoted(s).value.1 && Unescapes(body, Quoted(s).value.0)
    decreases |s|
  {
    if s[0] == '"' {
      body := "";
    } else if s[0] == '\\' {
      var rest := QuotedIsSpelled(s[2..]);
      body := s[..2] + rest;
      assert body[2..] == rest && body[0] == s[0] && body[1] == s[1];
      assert ([s[1]] + Quoted(s[2..]).value.0)[1..] == Quoted(s[2..]).value.0;
      assert s == s[..2] + s[2..];
    } else {
      var rest := QuotedIsSpelled(s[1..]);
      body := [s[0]] + rest;
      assert body[1..] == rest;
      assert ([s[0]] + Quoted(s[1..]).value.0)[1..] == Quoted(s[1..]).value.0;
      assert s == [s[0]] + s[1..];
    }
  }

  lemma BracketIsSpelled(s: Text) returns (piece: Text)
    requires Bracket(s).Some?
    ensures "[" + s == piece + Bracket(s).value.1 && Bracketed(piece, Bracket(s).value.0)
  {
    hide Atoi, Quoted, Unescapes, DigitLength;
    if s[0] == '"' {
      var body := QuotedIsSpelled(s[1..]);
      var (key, rest) := Quoted(s[1..]).value;
      piece := "[\"" + body + "\"]";
      assert QuotesKey(piece, body, key);
      assert s == "\"" + s[1..] && rest == "]" + rest[1..];
    } else {
      var sign := if s[0] == '-' then 1 else 0;
      var n := DigitLength(s[sign..]);
      var numeral := s[..sign + n];
      piece := "[" + numeral + "]";
      assert numeral[sign..] == s[sign..][..n];
      assert WritesIndex(piece, numeral, Bracket(s).value.0.index);
      assert s == numeral + "]" + s[sign + n + 1..];
    }
  }

  lemma {:induction false} BracketsAreSpelled(s: Text) returns (pieces: seq<Text>)
    requires Brackets(s).Some?
    ensures s == Concat(pieces) + Brackets(s).value.1 && SpellsAll(pieces, Brackets(s).value.0)
    decreases |s|
  {
    hide Bracket, Bracketed, Dotted;
    if s == [] || s[0] != '[' {
      pieces := [];
    } else {
      var piece := BracketIsSpelled(s[1..]);
      var (segment, rest) := Bracket(s[1..]).value;
      var more := BracketsAreSpelled(rest);
      pieces := [piece] + more;
      assert "[" + s[1..] == s;
      assert pieces[1..] == more;
      assert s == piece + (Concat(more) + Brackets(rest).value.1);
    }
  }

  lemma {:induction false} GroupsAreSpelled(s: Text) returns (pieces: seq<Text>)
    requires Groups(s).Some?
    ensures pieces != [] && SpellsAll(pieces, Groups(s).value) && Dotted(pieces[0], Groups(s).value[0])
    ensures "." + s == Concat(pieces)
    decreases |s|
  {
    hide Brackets, Bracketed, Dotted, Concat, SpellsAll;
    var key, brackets, rest := FirstGroup(s);
    var run := BracketsAreSpelled(s[|key|..]);
    var head := ["." + key] + run;
    HeadSpells(key, run, brackets);
    if rest == [] {
      pieces := head;
      assert "." + s == "." + key + Concat(run) by { WholeGroup(s, key, Concat(run), rest); }
    } else {
      var more := GroupsAreSpelled(rest[1..]);
      pieces := head + more;
      ConcatJoins(head, more);
      WholeGroup(s, key, Concat(run), rest);
      JoinSpells(head, [Key(key)] + brackets, more, Groups(rest[1..]).value);
      assert rest == "." + rest[1..];
    }
  }

  lemma WholeGroup(s: Text, key: Text, run: Text, rest: Text)
    requires |key| <= |s| && s[..|key|] == key && s[|key|..] == run + rest
    ensures "." + s == ("." + key + run) + rest
    ensures rest == [] ==> "." + s == "." + key + run
  {
    assert s == key + s[|key|..];
  }

  lemma JoinSpells(a: seq<Text>, x: seq<Segment>, b: seq<Text>, y: seq<Segment>)
    requires SpellsAll(a, x) && SpellsAll(b, y)
    ensures SpellsAll(a + b, x + y)
  {
    hide Bracketed, Dotted;
  }

  /** The group at the front of what Groups reads. */
  lemma FirstGroup(s: Text) returns (key: Text, brackets: seq<Segment>, rest: Text)
    requires Groups(s).Some?
    ensures IsBareKey(key) && |key| <= |s| && s[..|key|] == key && Brackets(s[|key|..]) == Some((brackets, rest))
    ensures rest == [] ==> Groups(s).value == [Key(key)] + brackets
    ensures rest != [] ==>
      && rest[0] == '.' && |rest| < |s| && Groups(rest[1..]).Some?
      && Groups(s).value == [Key(key)] + brackets + Groups(rest[1..]).value
  {
    hide Brackets, BareLength;
    var n := BareLength(s);
    key := s[..n];
    brackets, rest := Brackets(s[n..]).value.0, Brackets(s[n..]).value.1;
  }

  lemma HeadSpells(key: Text, run: seq<Text>, brackets: seq<Segment>)
    requires IsBareKey(key) && SpellsAll(run, brackets)
    ensures SpellsAll(["." + key] + run, [Key(key)] + brackets)
    ensures Dotted("." + key, Key(key))
    ensures Concat(["." + key] + run) == "." + key + Concat(run)
  {
    hide Bracketed;
    var head := ["." + key] + run;
    assert head[0] == "." + key && head[1..] == run;
  }

  // ---------- every spelling compiles ----------

  lemma {:induction false} SpelledQuote(body: Text, key: Text, rest: Text)
    requires Unescapes(body, key)
    ensures Quoted(body + "\"" + rest) == Some((key, rest))
    decreases |body|
  {
    var s := body + "\"" + rest;
    if body == "" {
      assert s[1..] == rest;
    } else if body[0] == '\\' {
      SpelledQuote(body[2..], key[1..], rest);
      assert s[2..] == body[2..] + "\"" + rest && s[0] == body[0] && s[1] == body[1];
      assert [key[0]] + key[1..] == key;
    } else {
      SpelledQuote(body[1..], key[1..], rest);
      assert s[1..] == body[1..] + "\"" + rest && s[0] == body[0];
      assert [key[0]] + key[1..] == key;
    }
  }

  lemma SpelledIndex(numeral: Text, i: int, rest: Text)
    requires Numeral(numeral) && Atoi(numeral) == Some(i)
    ensures Bracket(numeral + "]" + rest) == Some((Index(i), rest))
  {
    hide Atoi, DigitLength, Bracket;
    var s := numeral + "]" + rest;
    var sign := if numeral[0] == '-' then 1 else 0;
    var digits := numeral[sign..];
    assert s[0] == numeral[0];
    assert s[sign..] == digits + ("]" + rest);
    DigitLengthOf(digits, "]" + rest);
    assert s[..|numeral|] == numeral && s[|numeral| + 1..] == rest && s[|numeral|] == ']';
    assert IsDigit(digits[0]);
    BracketOfDigits(s, sign, |digits|, i);
  }

  lemma BracketOfDigits(s: Text, sign: nat, n: nat, i: int)
    requires s != "" && s[0] != '"' && sign == (if s[0] == '-' then 1 else 0)
    requires n > 0 && sign + n < |s| && s[sign + n] == ']' && DigitLength(s[sign..]) == n
    requires Atoi(s[..sign + n]) == Some(i)
    ensures Bracket(s) == Some((Index(i), s[sign + n + 1..]))
  {
    hide Atoi, DigitLength, Quoted;
  }

  lemma SpelledBracket(piece: Text, segment: Segment, rest: Text)
    requires Bracketed(piece, segment)
    ensures piece != "" && piece[0] == '[' && Bracket((piece + rest)[1..]) == Some((segment, rest))
  {
    hide Bracket, Unescapes, Numeral, Atoi, Quoted;
    match segment
    case Key(key) =>
      var body :| QuotesKey(piece, body, key);
      assert (piece + rest)[1..] == "\"" + (body + "\"" + ("]" + rest));
      SpelledQuote(body, key, "]" + rest);
      BracketOfQuote(body + "\"" + ("]" + rest), key, rest);
    case Index(i) =>
      var numeral :| WritesIndex(piece, numeral, i);
      assert (piece + rest)[1..] == numeral + "]" + rest;
      SpelledIndex(numeral, i, rest);
  }

  lemma BracketOfQuote(s: Text, key: Text, rest: Text)
    requires Quoted(s) == Some((key, "]" + rest))
    ensures Bracket("\"" + s) == Some((Key(key), rest))
  {
    hide Quoted;
    assert ("\"" + s)[1..] == s && ("]" + rest)[1..] == rest;
  }

  lemma {:induction false} SpelledBrackets(pieces: seq<Text>, segments: seq<Segment>) returns (k: nat)
    requires SpellsAll(pieces, segments)
    ensures k <= |segments| && (k < |segments| ==> Dotted(pieces[k], segments[k]))
    ensures Brackets(Concat(pieces)) == Some((segments[..k], Concat(pieces[k..])))
    decreases |pieces|
  {
    hide Bracket, Bracketed, Dotted;
    if pieces == [] {
      k := 0;
      assert pieces[0..] == [] && segments[..0] == [];
    } else if Dotted(pieces[0], segments[0]) {
      k := 0;
      PieceStarts(pieces[0], segments[0]);
      assert pieces[0..] == pieces && segments[..0] == [];
    } else {
      SpelledBracket(pieces[0], segments[0], Concat(pieces[1..]));
      var j := SpelledBrackets(pieces[1..], segments[1..]);
      k := j + 1;
      assert segments[..k] == [segments[0]] + segments[1..][..j];
      assert pieces[1..][j..] == pieces[k..];
    }
  }

  lemma TailStarts(pieces: seq<Text>, segments: seq<Segment>)
    requires SpellsAll(pieces, segments)
    ensures Concat(pieces) != "" ==> EndsBareKey(Concat(pieces)[0])
    ensures pieces != [] ==> Concat(pieces) != ""
  {
    hide Bracketed, Dotted;
    if pieces != [] {
      PieceStarts(pieces[0], segments[0]);
    }
  }

  lemma {:induction false} SpelledGroups(key: Text, pieces: seq<Text>, segments: seq<Segment>)
    requires IsBareKey(key) && SpellsAll(pieces, segments)
    ensures Groups(key + Concat(pieces)) == Some([Key(key)] + segments)
    decreases |pieces|
  {
    hide Brackets, Groups, Bracketed, Concat;
    var k := SpelledBrackets(pieces, segments);
    TailStarts(pieces, segments);
    GroupsStep(key, Concat(pieces));
    var rest := Concat(pieces[k..]);
    if k == |segments| {
      assert segments[..k] == segments;
      assert rest == "" by { NoPieces(pieces, k); }
    } else {
      var next := segments[k].key;
      FirstPiece(pieces, k);
      assert rest == "." + (next + Concat(pieces[k + 1..]));
      assert rest[1..] == next + Concat(pieces[k + 1..]);
      SpelledGroups(next, pieces[k + 1..], segments[k + 1..]);
      assert [Key(key)] + segments[..k] + ([Key(next)] + segments[k + 1..]) == [Key(key)] + segments;
    }
  }

  lemma NoPieces(pieces: seq<Text>, k: nat)
    requires k == |pieces|
    ensures Concat(pieces[k..]) == ""
  {
  }

  lemma FirstPiece(pieces: seq<Text>, k: nat)
    requires k < |pieces|
    ensures Concat(pieces[k..]) == pieces[k] + Concat(pieces[k + 1..])
  {
    assert pieces[k..][0] == pieces[k] && pieces[k..][1..] == pieces[k + 1..];
  }

  // ---------- the language ----------

  lemma CompiledIsSpelled(expr: Text) returns (pieces: seq<Text>)
    requires Parse(expr).Some?
    ensures Spells(expr, Parse(expr).value, pieces)
  {
    hide Groups, Bracketed, Concat;
    pieces := GroupsAreSpelled(expr[2..]);
    assert expr == expr[..2] + expr[2..];
    assert expr == "$" + ("." + expr[2..]);
  }

  lemma SpelledCompiles(expr: Text, segments: seq<Segment>, pieces: seq<Text>)
    requires Spells(expr, segments, pieces)
    ensures Parse(expr) == Some(segments)
  {
    hide Groups, Bracketed, Concat;
    var key, rest := segments[0].key, Concat(pieces[1..]);
    FirstPiece(pieces, 0);
    assert pieces[0..] == pieces;
    assert expr == "$." + (key + rest);
    assert expr[..2] == "$." && expr[2..] == key + rest;
    SpelledGroups(key, pieces[1..], segments[1..]);
    assert [Key(key)] + segments[1..] == segments;
  }

  /** An expression compiles to these segments if and only if it spells them. */
  lemma CompilesIffSpelled(expr: Text, segments: seq<Segment>)
    ensures Parse(expr) == Some(segments) <==> exists pieces :: Spells(expr, segments, pieces)
  {
    hide Parse, Spells;
    if Parse(expr) == Some(segments) {
      var pieces := CompiledIsSpelled(expr);
    }
    if pieces :| Spells(expr, segments, pieces) {
      SpelledCompiles(expr, segments, pieces);
    }
  }
}
