/** The single-value path language of internal/domain/path/path.go: the cursor-driven compiler,
    the canonical printer, and resolution against a document. */
module PathLanguage {
  import opened ByteText
  import opened Decimal

  /** A decoded JSON document. A number carries the decimal text it resolves to. */
  datatype Json =
    | Null
    | Bool(b: bool)
    | Num(text: Text)
    | Str(s: Text)
    | Arr(items: seq<Json>)
    | Obj(fields: map<Text, Json>)

  datatype Segment = Key(key: Text) | Index(index: int)

  // ---------- grammar, on what is left of the expression ----------

  predicate EndsBareKey(c: char)
  {
    c == '.' || c == '['
  }

  /** How many leading bytes belong to a bare key. */
  function BareLength(s: Text): (n: nat)
    ensures n <= |s|
    ensures forall i :: 0 <= i < n ==> !EndsBareKey(s[i])
    ensures n < |s| ==> EndsBareKey(s[n])
  {
    if s == [] || EndsBareKey(s[0]) then 0 else 1 + BareLength(s[1..])
  }

  function DigitLength(s: Text): (n: nat)
    ensures n <= |s|
    ensures forall i :: 0 <= i < n ==> IsDigit(s[i])
    ensures n < |s| ==> !IsDigit(s[n])
  {
    if s == [] || !IsDigit(s[0]) then 0 else 1 + DigitLength(s[1..])
  }

  /** The key up to its closing quote, unescaped, and what follows the quote. */
  function Quoted(s: Text): (r: Option<(Text, Text)>)
    ensures r.Some? ==> |r.value.1| < |s|
  {
    if s == [] then None
    else if s[0] == '"' then Some(([], s[1..]))
    else if s[0] == '\\' then
      if |s| < 2 || (s[1] != '"' && s[1] != '\\') then None
      else match Quoted(s[2..])
        case None => None
        case Some((key, rest)) => Some(([s[1]] + key, rest))
    else match Quoted(s[1..])
      case None => None
      case Some((key, rest)) => Some(([s[0]] + key, rest))
  }

  /** One bracket, after its '[': a quoted key or an array index, then ']'. */
  function Bracket(s: Text): (r: Option<(Segment, Text)>)
    ensures r.Some? ==> |r.value.1| < |s|
    ensures r.Some? && r.value.0.Index? ==> IsInt64(r.value.0.index)
  {
    if s == [] then None
    else if s[0] == '"' then
      match Quoted(s[1..])
      case None => None
      case Some((key, rest)) =>
        if rest == [] || rest[0] != ']' then None else Some((Key(key), rest[1..]))
    else
      var sign := if s[0] == '-' then 1 else 0;
      var n := DigitLength(s[sign..]);
      if n == 0 || sign + n >= |s| || s[sign + n] != ']' then None
      else match Atoi(s[..sign + n])
        case None => None
        case Some(i) => Some((Index(i), s[sign + n + 1..]))
  }

  function Brackets(s: Text): (r: Option<(seq<Segment>, Text)>)
    ensures r.Some? ==> |r.value.1| <= |s|
    ensures r.Some? ==> r.value.1 == [] || r.value.1[0] != '['
    ensures r.Some? ==> IndexesFit(r.value.0)
    decreases |s|
  {
    if s == [] || s[0] != '[' then Some(([], s))
    else match Bracket(s[1..])
      case None => None
      case Some((segment, rest)) =>
        match Brackets(rest)
        case None => None
        case Some((more, end)) => Some(([segment] + more, end))
  }

  /** Dot-separated groups, each a bare key followed by brackets. */
  function Groups(s: Text): (r: Option<seq<Segment>>)
    ensures r.Some? ==> WellFormed(r.value)
    decreases |s|
  {
    var n := BareLength(s);
    if n == 0 then None
    else match Brackets(s[n..])
      case None => None
      case Some((brackets, rest)) =>
        if rest == [] then Some([Key(s[..n])] + brackets)
        else if rest[0] != '.' || |rest| == 1 then None
        else match Groups(rest[1..])
          case None => None
          case Some(more) => Some([Key(s[..n])] + brackets + more)
  }

  function Parse(expr: Text): Option<seq<Segment>>
  {
    if HasPrefix(expr, "$.") && |expr| > 2 then Groups(expr[2..]) else None
  }

  predicate IndexesFit(segments: seq<Segment>)
  {
    forall i :: 0 <= i < |segments| && segments[i].Index? ==> IsInt64(segments[i].index)
  }

  predicate IsBareKey(key: Text)
  {
    key != [] && forall i :: 0 <= i < |key| ==> !EndsBareKey(key[i])
  }

  /** What compilation guarantees of its segments. */
  predicate WellFormed(segments: seq<Segment>)
  {
    segments != [] && segments[0].Key? && IsBareKey(segments[0].key) && IndexesFit(segments)
  }

  // ---------- printer ----------

  function Escaped(key: Text): Text
  {
    if key == [] then []
    else (if key[0] == '\\' || key[0] == '"' then ['\\', key[0]] else [key[0]]) + Escaped(key[1..])
  }

  function Printed(segment: Segment): (s: Text)
    ensures s != [] && EndsBareKey(s[0])
  {
    match segment
    case Index(i) => "[" + Itoa(i) + "]"
    case Key(key) =>
      if IsBareKey(key) && !AllDigits(key) then "." + key else "[\"" + Escaped(key) + "\"]"
  }

  function PrintedAll(segments: seq<Segment>): (s: Text)
    ensures s != [] ==> EndsBareKey(s[0])
    ensures segments == [] ==> s == []
  {
    if segments == [] then [] else Printed(segments[0]) + PrintedAll(segments[1..])
  }

  function Canonical(segments: seq<Segment>): Text
    requires segments == [] || segments[0].Key?
  {
    if segments == [] then [] else "$." + segments[0].key + PrintedAll(segments[1..])
  }

  // ---------- parser and printer undo each other ----------

  lemma {:induction false} BareLengthOfKey(key: Text, tail: Text)
    requires forall i :: 0 <= i < |key| ==> !EndsBareKey(key[i])
    requires tail != [] ==> EndsBareKey(tail[0])
    ensures BareLength(key + tail) == |key|
  {
    var s := key + tail;
    assert forall i :: 0 <= i < |key| ==> s[i] == key[i];
    assert tail != [] ==> s[|key|] == tail[0];
  }

  lemma {:induction false} QuotedOfEscaped(key: Text, rest: Text)
    ensures Quoted(Escaped(key) + "\"" + rest) == Some((key, rest))
  {
    var s := Escaped(key) + "\"" + rest;
    if key == [] {
      assert s[1..] == rest;
    } else {
      QuotedOfEscaped(key[1..], rest);
      var tail := Escaped(key[1..]) + "\"" + rest;
      if key[0] == '\\' || key[0] == '"' {
        assert s == ['\\', key[0]] + tail;
        assert s[2..] == tail;
      } else {
        assert s == [key[0]] + tail;
        assert s[1..] == tail;
      }
      assert [key[0]] + key[1..] == key;
    }
  }

  lemma BracketOfIndex(i: int, rest: Text)
    requires IsInt64(i)
    ensures Bracket(Itoa(i) + "]" + rest) == Some((Index(i), rest))
  {
    hide Atoi, Digits, DigitLength;
    var numeral := Itoa(i);
    var s := numeral + "]" + rest;
    AtoiOfItoa(i);
    var sign := if i < 0 then 1 else 0;
    var digits := numeral[sign..];
    assert digits == Digits(if i < 0 then -i else i);
    assert s[0] == numeral[0];
    assert s[0] == '-' <==> i < 0;
    assert s[sign..] == digits + ("]" + rest);
    DigitLengthOf(digits, "]" + rest);
    assert s[..|numeral|] == numeral;
    assert s[|numeral| + 1..] == rest;
  }

  lemma DigitLengthOf(digits: Text, tail: Text)
    requires AllDigits(digits) && (tail != [] ==> !IsDigit(tail[0]))
    ensures DigitLength(digits + tail) == |digits|
  {
    var s := digits + tail;
    assert forall i :: 0 <= i < |digits| ==> s[i] == digits[i];
    assert tail != [] ==> s[|digits|] == tail[0];
  }

  lemma BracketOfPrinted(segment: Segment, rest: Text)
    requires segment.Index? ==> IsInt64(segment.index)
    requires Printed(segment)[0] == '['
    ensures Bracket((Printed(segment) + rest)[1..]) == Some((segment, rest))
  {
    hide Bracket, Escaped, Itoa, IsBareKey, AllDigits;
    var s := (Printed(segment) + rest)[1..];
    match segment
    case Index(i) =>
      assert s == Itoa(i) + "]" + rest;
      BracketOfIndex(i, rest);
    case Key(key) =>
      assert s == "\"" + (Escaped(key) + "\"" + ("]" + rest));
      BracketOfKey(key, rest);
  }

  lemma BracketOfKey(key: Text, rest: Text)
    ensures Bracket("\"" + (Escaped(key) + "\"" + ("]" + rest))) == Some((Key(key), rest))
  {
    hide Escaped, Quoted;
    var tail := Escaped(key) + "\"" + ("]" + rest);
    QuotedOfEscaped(key, "]" + rest);
    assert ("\"" + tail)[1..] == tail;
    assert ("]" + rest)[1..] == rest;
  }

  /** The bracketed run at the front of a printed tail is read back segment by segment. */
  lemma {:induction false} BracketsOfPrinted(segments: seq<Segment>) returns (k: nat)
    requires IndexesFit(segments)
    ensures k <= |segments|
    ensures Brackets(PrintedAll(segments)) == Some((segments[..k], PrintedAll(segments[k..])))
    ensures k < |segments| ==> Printed(segments[k])[0] == '.'
  {
    hide Bracket, Printed;
    if segments == [] || Printed(segments[0])[0] == '.' {
      k := 0;
      assert segments[0..] == segments;
    } else {
      BracketOfPrinted(segments[0], PrintedAll(segments[1..]));
      var j := BracketsOfPrinted(segments[1..]);
      k := j + 1;
      assert segments[..k] == [segments[0]] + segments[1..][..j];
      assert segments[1..][j..] == segments[k..];
    }
  }

  lemma GroupsNeedKey(s: Text)
    requires BareLength(s) == 0
    ensures Groups(s) == None
  {
  }

  /** One dot-separated group, split off the front. */
  lemma GroupsStep(key: Text, tail: Text)
    requires IsBareKey(key) && (tail != [] ==> EndsBareKey(tail[0]))
    ensures Groups(key + tail) ==
            match Brackets(tail)
            case None => None
            case Some((brackets, rest)) =>
              if rest == [] then Some([Key(key)] + brackets)
              else if rest[0] != '.' || |rest| == 1 then None
              else match Groups(rest[1..])
                case None => None
                case Some(more) => Some([Key(key)] + brackets + more)
  {
    hide BareLength, Brackets;
    BareLengthOfKey(key, tail);
    assert (key + tail)[..|key|] == key && (key + tail)[|key|..] == tail;
  }

  lemma PrintedDotted(segments: seq<Segment>, k: nat)
    requires k < |segments| && Printed(segments[k])[0] == '.'
    ensures segments[k].Key? && IsBareKey(segments[k].key)
    ensures PrintedAll(segments[k..]) == "." + (segments[k].key + PrintedAll(segments[k + 1..]))
  {
    hide Printed, PrintedAll;
    var rest := segments[k..];
    assert rest[0] == segments[k] && rest[1..] == segments[k + 1..];
    PrintedFirst(rest);
    DottedIsBare(segments[k]);
  }

  lemma PrintedFirst(segments: seq<Segment>)
    requires segments != []
    ensures PrintedAll(segments) == Printed(segments[0]) + PrintedAll(segments[1..])
  {
    hide Printed;
  }

  lemma DottedIsBare(segment: Segment)
    requires Printed(segment)[0] == '.'
    ensures segment.Key? && IsBareKey(segment.key) && Printed(segment) == "." + segment.key
  {
    hide Escaped, Itoa, IsBareKey, AllDigits;
  }

  lemma {:induction false} GroupsOfPrinted(key: Text, segments: seq<Segment>)
    requires IsBareKey(key) && IndexesFit(segments)
    ensures Groups(key + PrintedAll(segments)) == Some([Key(key)] + segments)
    decreases |segments|
  {
    hide Brackets, Groups, Printed, PrintedAll;
    var k := BracketsOfPrinted(segments);
    var rest := PrintedAll(segments[k..]);
    if k == |segments| {
      assert segments[..k] == segments;
    } else {
      PrintedDotted(segments, k);
      var next := segments[k].key;
      assert rest[1..] == next + PrintedAll(segments[k + 1..]);
      GroupsOfPrinted(next, segments[k + 1..]);
      assert [Key(key)] + segments[..k] + ([Key(next)] + segments[k + 1..]) == [Key(key)] + segments;
    }
    GroupsStep(key, PrintedAll(segments));
  }

  /** Every path that compiles survives its canonical spelling. */
  lemma CanonicalRoundTrip(expr: Text)
    requires Parse(expr).Some?
    ensures WellFormed(Parse(expr).value)
    ensures Parse(Canonical(Parse(expr).value)) == Parse(expr)
  {
    hide Groups, PrintedAll;
    var segments := Parse(expr).value;
    var printed := Canonical(segments);
    var first := segments[0].key;
    assert printed[..2] == "$.";
    assert printed[2..] == first + PrintedAll(segments[1..]);
    GroupsOfPrinted(first, segments[1..]);
    assert [Key(first)] + segments[1..] == segments;
  }

  /** Every list of segments a path may have is what its canonical spelling compiles to: indexes of either sign,
      keys with any bytes, the first key bare. */
  lemma EverySpellingCompiles(segments: seq<Segment>)
    requires WellFormed(segments)
    ensures Parse(Canonical(segments)) == Some(segments)
  {
    hide Groups, PrintedAll;
    var printed, first := Canonical(segments), segments[0].key;
    assert printed[..2] == "$.";
    assert printed[2..] == first + PrintedAll(segments[1..]);
    GroupsOfPrinted(first, segments[1..]);
    assert [Key(first)] + segments[1..] == segments;
  }

  lemma {:induction false} PrintedAllSnoc(segments: seq<Segment>, last: Segment)
    ensures PrintedAll(segments + [last]) == PrintedAll(segments) + Printed(last)
    decreases |segments|
  {
    hide Printed;
    var all := segments + [last];
    if segments == [] {
      assert all[1..] == [];
      assert PrintedAll([]) == [];
    } else {
      assert all[0] == segments[0] && all[1..] == segments[1..] + [last];
      PrintedAllSnoc(segments[1..], last);
    }
  }

  /** How the next segment is spelled: an index and an unusual key in brackets, a bare key after a dot. A key is
      bare when it is not empty, has none of the bytes that end one, and is not all digits. */
  lemma CanonicalAppends(segments: seq<Segment>, key: Text, i: int)
    requires segments != [] && segments[0].Key?
    ensures Canonical(segments + [Index(i)]) == Canonical(segments) + ("[" + Itoa(i) + "]")
    ensures
      var bare := key != [] && (forall k :: 0 <= k < |key| ==> !EndsBareKey(key[k]))
                  && exists k :: 0 <= k < |key| && !IsDigit(key[k]);
      Canonical(segments + [Key(key)]) == Canonical(segments) + if bare then "." + key else "[\"" + Escaped(key) + "\"]"
  {
    hide Itoa, Escaped, Printed, Canonical;
    CanonicalSnoc(segments, Index(i));
    CanonicalSnoc(segments, Key(key));
    PrintedSpells(key, i);
  }

  lemma CanonicalSnoc(segments: seq<Segment>, last: Segment)
    requires segments != [] && segments[0].Key?
    ensures Canonical(segments + [last]) == Canonical(segments) + Printed(last)
  {
    hide Printed, PrintedAll;
    assert (segments + [last])[1..] == segments[1..] + [last];
    PrintedAllSnoc(segments[1..], last);
  }

  lemma PrintedSpells(key: Text, i: int)
    ensures Printed(Index(i)) == "[" + Itoa(i) + "]"
    ensures
      var bare := key != [] && (forall k :: 0 <= k < |key| ==> !EndsBareKey(key[k]))
                  && exists k :: 0 <= k < |key| && !IsDigit(key[k]);
      Printed(Key(key)) == if bare then "." + key else "[\"" + Escaped(key) + "\"]"
  {
    hide Itoa, Escaped;
  }

  /** Two compiled paths are spelled the same exactly when they select by the same segments. */
  lemma CanonicalIdentifiesSegments(a: Text, b: Text)
    requires Parse(a).Some? && Parse(b).Some?
    ensures WellFormed(Parse(a).value) && WellFormed(Parse(b).value)
    ensures Canonical(Parse(a).value) == Canonical(Parse(b).value) <==> Parse(a) == Parse(b)
  {
    CanonicalRoundTrip(a);
    CanonicalRoundTrip(b);
  }

  // ---------- resolution ----------

  /** The value a path selects, if any. */
  function Select(doc: Json, segments: seq<Segment>): Option<Json>
    decreases |segments|
  {
    if segments == [] then Some(doc)
    else match segments[0]
      case Key(key) =>
        if doc.Obj? && key in doc.fields then Select(doc.fields[key], segments[1..]) else None
      case Index(i) =>
        if !doc.Arr? then None else
        var at := if i < 0 then |doc.items| + i else i;
        if 0 <= at < |doc.items| then Select(doc.items[at], segments[1..]) else None
  }

  function Scalar(value: Json): Option<Text>
  {
    match value
    case Str(s) => Some(s)
    case Bool(b) => Some(if b then "true" else "false")
    case Num(text) => Some(text)
    case _ => None
  }

  function Resolve(segments: seq<Segment>, doc: Json): Option<Text>
  {
    match Select(doc, segments)
    case None => None
    case Some(value) => Scalar(value)
  }

  /** A negative index counts from the end; an index outside the array selects nothing. */
  lemma IndexesCount(items: seq<Json>, i: int, rest: seq<Segment>)
    ensures 0 <= i < |items| ==> Select(Arr(items), [Index(i)] + rest) == Select(items[i], rest)
    ensures -|items| <= i < 0 ==> Select(Arr(items), [Index(i)] + rest) == Select(items[|items| + i], rest)
    ensures i < -|items| || |items| <= i ==> Select(Arr(items), [Index(i)] + rest) == None
  {
    assert ([Index(i)] + rest)[1..] == rest;
  }

  /** Texts, numbers and truth values resolve to their spelling; nothing else does. */
  lemma ScalarsResolve(segments: seq<Segment>, doc: Json)
    ensures Select(doc, segments) == Some(Bool(true)) ==> Resolve(segments, doc) == Some("true")
    ensures Select(doc, segments) == Some(Bool(false)) ==> Resolve(segments, doc) == Some("false")
    ensures forall text :: Select(doc, segments) == Some(Num(text)) ==> Resolve(segments, doc) == Some(text)
    ensures forall text :: Select(doc, segments) == Some(Str(text)) ==> Resolve(segments, doc) == Some(text)
    ensures
      var at := Select(doc, segments);
      at.None? || at.value.Null? || at.value.Arr? || at.value.Obj? ==> Resolve(segments, doc) == None
  {
    hide Select;
  }

  method ResolvePath(segments: seq<Segment>, doc: Json) returns (r: Option<Text>)
    ensures r == Resolve(segments, doc)
  {
    var current := doc;
    for i := 0 to |segments|
      invariant Select(doc, segments) == Select(current, segments[i..])
    {
      assert segments[i..][1..] == segments[i + 1..];
      match segments[i] {
        case Key(key) =>
          if !current.Obj? || key !in current.fields {
            return None;
          }
          current := current.fields[key];
        case Index(index) =>
          if !current.Arr? {
            return None;
          }
          var at := index;
          if at < 0 {
            at := |current.items| + at;
          }
          if at < 0 || at >= |current.items| {
            return None;
          }
          current := current.items[at];
      }
    }
    return Scalar(current);
  }

  // ---------- the compiler and the printer as the source runs them ----------

  /** Reads a quoted key from just after its opening quote; returns the cursor after the closing one. */
  method CompileQuoted(expr: Text, start: nat) returns (key: Text, next: nat, ok: bool)
    requires start <= |expr|
    ensures next <= |expr|
    ensures ok ==> Quoted(expr[start..]) == Some((key, expr[next..])) && start < next
    ensures !ok ==> Quoted(expr[start..]) == None
  {
    key := [];
    next := start;
    assert forall rest: Text :: key + rest == rest;
    while next < |expr|
      invariant start <= next <= |expr|
      invariant Quoted(expr[start..]) ==
                match Quoted(expr[next..])
                case None => None
                case Some((rest, end)) => Some((key + rest, end))
    {
      ghost var s := expr[next..];
      assert s[1..] == expr[next + 1..];
      if expr[next] == '"' {
        next := next + 1;
        assert key + [] == key;
        return key, next, true;
      } else if expr[next] == '\\' {
        if next + 1 >= |expr| || (expr[next + 1] != '"' && expr[next + 1] != '\\') {
          return key, next, false;
        }
        assert s[2..] == expr[next + 2..];
        ghost var escaped := expr[next + 1];
        assert forall rest: Text :: key + ([escaped] + rest) == key + [escaped] + rest;
        key := key + [expr[next + 1]];
        next := next + 2;
      } else {
        assert forall rest: Text :: key + ([expr[next]] + rest) == key + [expr[next]] + rest;
        key := key + [expr[next]];
        next := next + 1;
      }
    }
    ok := false;
  }

  /** Skips a run of digits. */
  method SkipDigits(expr: Text, start: nat) returns (next: nat)
    requires start <= |expr|
    ensures start <= next <= |expr|
    ensures DigitLength(expr[start..]) == next - start
  {
    next := start;
    while next < |expr| && IsDigit(expr[next])
      invariant start <= next <= |expr|
      invariant DigitLength(expr[start..]) == next - start + DigitLength(expr[next..])
    {
      assert expr[next..][1..] == expr[next + 1..];
      next := next + 1;
    }
  }

  /** Skips a bare key. */
  method SkipBareKey(expr: Text, start: nat) returns (next: nat)
    requires start <= |expr|
    ensures start <= next <= |expr|
    ensures BareLength(expr[start..]) == next - start
    ensures start < next ==> IsBareKey(expr[start..next])
    ensures next < |expr| ==> EndsBareKey(expr[next])
  {
    next := start;
    while next < |expr| && !EndsBareKey(expr[next])
      invariant start <= next <= |expr|
      invariant BareLength(expr[start..]) == next - start + BareLength(expr[next..])
    {
      assert expr[next..][1..] == expr[next + 1..];
      next := next + 1;
    }
  }

  /** Reads an array index from just after its '['. */
  method CompileIndex(expr: Text, start: nat) returns (segment: Segment, next: nat, ok: bool)
    requires start < |expr| && expr[start] != '"'
    ensures next <= |expr|
    ensures ok ==> Bracket(expr[start..]) == Some((segment, expr[next..])) && start < next
    ensures !ok ==> Bracket(expr[start..]) == None
  {
    hide Atoi;
    segment, next, ok := Index(0), start, false;
    var digits := start;
    if expr[digits] == '-' {
      digits := digits + 1;
    }
    next := SkipDigits(expr, digits);
    ghost var s := expr[start..];
    assert s[digits - start..] == expr[digits..];
    if digits == next || next >= |expr| || expr[next] != ']' {
      return;
    }
    var n := Atoi(expr[start..next]);
    assert s[..next - start] == expr[start..next];
    if n == None {
      return;
    }
    assert s[next - start + 1..] == expr[next + 1..];
    return Index(n.value), next + 1, true;
  }

  /** Reads one bracket from just after its '['. */
  method CompileBracket(expr: Text, start: nat) returns (segment: Segment, next: nat, ok: bool)
    requires start <= |expr|
    ensures next <= |expr|
    ensures ok ==> Bracket(expr[start..]) == Some((segment, expr[next..])) && start < next
    ensures !ok ==> Bracket(expr[start..]) == None
  {
    segment, next, ok := Index(0), start, false;
    if start >= |expr| {
      return;
    }
    if expr[start] != '"' {
      segment, next, ok := CompileIndex(expr, start);
      return;
    }
    var key, end, closed := CompileQuoted(expr, start + 1);
    assert expr[start..][1..] == expr[start + 1..];
    if !closed || end >= |expr| || expr[end] != ']' {
      return;
    }
    assert expr[end..][1..] == expr[end + 1..];
    return Key(key), end + 1, true;
  }

  /** Reads the brackets that follow a bare key. */
  method CompileBrackets(expr: Text, start: nat) returns (read: seq<Segment>, next: nat, ok: bool)
    requires start <= |expr|
    ensures start <= next <= |expr|
    ensures ok ==> Brackets(expr[start..]) == Some((read, expr[next..]))
    ensures !ok ==> Brackets(expr[start..]) == None
  {
    hide Bracket;
    read, next, ok := [], start, true;
    assert forall more: seq<Segment> :: read + more == more;
    while next < |expr| && expr[next] == '['
      invariant start <= next <= |expr|
      invariant Brackets(expr[start..]) ==
                match Brackets(expr[next..])
                case None => None
                case Some((more, end)) => Some((read + more, end))
    {
      var segment, after, parsed := CompileBracket(expr, next + 1);
      assert expr[next..][1..] == expr[next + 1..];
      if !parsed {
        return read, next, false;
      }
      assert forall more: seq<Segment> :: read + ([segment] + more) == read + [segment] + more;
      read, next := read + [segment], after;
    }
    assert read + [] == read;
  }

  /** The cursor loop of Compile. */
  method Compile(expr: Text) returns (r: Option<seq<Segment>>)
    ensures r == Parse(expr)
  {
    hide Brackets, Groups;
    if !HasPrefix(expr, "$.") || |expr| == 2 {
      return None;
    }
    var segments: seq<Segment> := [];
    var i := 2;
    assert forall more: seq<Segment> :: segments + more == more;
    while true
      invariant 2 <= i < |expr|
      invariant Groups(expr[2..]) ==
                match Groups(expr[i..])
                case None => None
                case Some(more) => Some(segments + more)
      decreases |expr| - i
    {
      var start := i;
      i := SkipBareKey(expr, start);
      if start == i {
        assert Groups(expr[start..]) == None by { GroupsNeedKey(expr[start..]); }
        return None;
      }
      var read, next, ok := CompileBrackets(expr, i);
      assert expr[start..] == expr[start..i] + expr[i..];
      GroupsStep(expr[start..i], expr[i..]);
      if !ok {
        return None;
      }
      var group := [Key(expr[start..i])] + read;
      i := next;
      if i == |expr| {
        return Some(segments + group);
      }
      if expr[i] != '.' {
        return None;
      }
      assert expr[i..][1..] == expr[i + 1..];
      i := i + 1;
      if i == |expr| {
        return None;
      }
      assert forall more: seq<Segment> :: segments + (group + more) == segments + group + more;
      segments := segments + group;
    }
  }

  /** The builder loop of Canonical; it prints what Canonical says. */
  method PrintCanonical(segments: seq<Segment>) returns (out: Text)
    requires segments == [] || segments[0].Key?
    ensures out == Canonical(segments)
  {
    if segments == [] {
      return [];
    }
    out := "$." + segments[0].key;
    for i := 1 to |segments|
      invariant out + PrintedAll(segments[i..]) == Canonical(segments)
    {
      assert segments[i..][0] == segments[i] && segments[i..][1..] == segments[i + 1..];
      assert out + (Printed(segments[i]) + PrintedAll(segments[i + 1..]))
          == out + Printed(segments[i]) + PrintedAll(segments[i + 1..]);
      out := out + Printed(segments[i]);
    }
    assert out + [] == out;
  }
}
