/** The byte keys of internal/adapters/state/pebble/store.go: percent-escaped parts, '/' separators,
    and a big-endian, sign-flipped millisecond prefix that sorts by time. */
module PebbleKeys {
  import opened ByteText
  import opened Decimal
  import opened Rules
  import opened FlowModel

  // ---------- percent escaping (url.PathEscape, url.PathUnescape) ----------

  predicate IsBytes(s: Text)
  {
    forall i :: 0 <= i < |s| ==> s[i] as int < 256
  }

  predicate Plain(c: char)
  {
    'a' <= c <= 'z' || 'A' <= c <= 'Z' || '0' <= c <= '9' || c in "-_.~$&+:=@"
  }

  function HexDigit(n: nat): char
    requires n < 16
  {
    "0123456789ABCDEF"[n]
  }

  function HexValue(c: char): Option<nat>
  {
    if '0' <= c <= '9' then Some(c as int - '0' as int)
    else if 'A' <= c <= 'F' then Some(c as int - 'A' as int + 10)
    else if 'a' <= c <= 'f' then Some(c as int - 'a' as int + 10)
    else None
  }

  function EscapeByte(c: char): (s: Text)
    requires c as int < 256
    ensures |s| > 0 && '/' !in s && (forall i :: 0 <= i < |s| ==> s[i] as int < 128)
  {
    if Plain(c) then [c] else ['%', HexDigit(c as int / 16), HexDigit(c as int % 16)]
  }

  function Escape(s: Text): (r: Text)
    requires IsBytes(s)
    ensures '/' !in r && (forall i :: 0 <= i < |r| ==> r[i] as int < 128)
    ensures |r| >= |s|
  {
    if s == [] then [] else EscapeByte(s[0]) + Escape(s[1..])
  }

  function Unescape(s: Text): Option<Text>
    decreases |s|
  {
    if s == [] then Some([])
    else if s[0] != '%' then
      match Unescape(s[1..])
      case None => None
      case Some(rest) => Some([s[0]] + rest)
    else if |s| < 3 || HexValue(s[1]).None? || HexValue(s[2]).None? then None
    else
      match Unescape(s[3..])
      case None => None
      case Some(rest) => Some([(16 * HexValue(s[1]).value + HexValue(s[2]).value) as char] + rest)
  }

  lemma HexRoundTrip(n: nat)
    requires n < 16
    ensures HexValue(HexDigit(n)) == Some(n)
  {
  }

  lemma {:induction false} UnescapeOfEscape(s: Text)
    requires IsBytes(s)
    ensures Unescape(Escape(s)) == Some(s)
    decreases |s|
  {
    if s != [] {
      var c, rest := s[0], Escape(s[1..]);
      UnescapeOfEscape(s[1..]);
      assert s == [c] + s[1..];
      var e := EscapeByte(c) + rest;
      if Plain(c) {
        assert e[0] == c && e[1..] == rest;
      } else {
        HexRoundTrip(c as int / 16);
        HexRoundTrip(c as int % 16);
        assert e[3..] == rest;
      }
    }
  }

  // ---------- two escaped parts ----------

  predicate ByteKey(key: FlowKey)
  {
    IsBytes(key.ruleId) && IsBytes(key.correlationKey)
  }

  function Parts(key: FlowKey): Text
    requires ByteKey(key)
  {
    Escape(key.ruleId) + "/" + Escape(key.correlationKey)
  }

  /** bytes.SplitN at the first '/', into two. */
  function Cut(s: Text): Option<(Text, Text)>
  {
    if s == [] then None
    else if s[0] == '/' then Some(([], s[1..]))
    else match Cut(s[1..])
      case None => None
      case Some((a, b)) => Some(([s[0]] + a, b))
  }

  lemma {:induction false} CutAtFirstSlash(a: Text, b: Text)
    requires '/' !in a
    ensures Cut(a + "/" + b) == Some((a, b))
    decreases |a|
  {
    var s := a + "/" + b;
    if a == [] {
      assert s[1..] == b;
    } else {
      assert s[0] == a[0] && s[1..] == a[1..] + "/" + b;
      CutAtFirstSlash(a[1..], b);
      assert a == [a[0]] + a[1..];
    }
  }

  function ParseParts(s: Text): Option<FlowKey>
  {
    match Cut(s)
    case None => None
    case Some((a, b)) =>
      match (Unescape(a), Unescape(b))
      case (Some(rule), Some(key)) => Some(FlowKey(rule, key))
      case _ => None
  }

  lemma PartsRoundTrip(key: FlowKey)
    requires ByteKey(key)
    ensures ParseParts(Parts(key)) == Some(key)
  {
    hide Escape, Unescape, Cut;
    CutAtFirstSlash(Escape(key.ruleId), Escape(key.correlationKey));
    UnescapeOfEscape(key.ruleId);
    UnescapeOfEscape(key.correlationKey);
  }

  function FlowKeyBytes(key: FlowKey): Text
    requires ByteKey(key)
  {
    "f/" + Parts(key)
  }

  function ParseFlowKey(raw: Text): Option<FlowKey>
  {
    if HasPrefix(raw, "f/") then ParseParts(raw[2..]) else None
  }

  lemma FlowKeyRoundTrip(key: FlowKey)
    requires ByteKey(key)
    ensures ParseFlowKey(FlowKeyBytes(key)) == Some(key)
  {
    hide Parts, ParseParts;
    PartsRoundTrip(key);
    assert FlowKeyBytes(key)[..2] == "f/" && FlowKeyBytes(key)[2..] == Parts(key);
  }

  // ---------- time prefixes ----------

  const NANOS_PER_MILLI := 1_000_000
  const SIGN_FLIP: int := 0x8000_0000_0000_0000

  /** Time.UnixMilli, which rounds toward the past. */
  function Millis(t: Time): int
  {
    t / NANOS_PER_MILLI
  }

  /** The millisecond a time falls in, before the epoch as after it. */
  lemma MillisFloors(t: Time)
    ensures Millis(t) * 1_000_000 <= t < (Millis(t) + 1) * 1_000_000
  {
  }

  /** UnixMilli is defined only where the milliseconds fit in an int64. */
  predicate InRange(t: Time)
  {
    IsInt64(Millis(t))
  }

  function Power256(width: nat): (p: nat)
    ensures p > 0
  {
    if width == 0 then 1 else 256 * Power256(width - 1)
  }

  function BigEndian(n: nat, width: nat): (s: Text)
    requires n < Power256(width)
    ensures |s| == width && IsBytes(s)
  {
    if width == 0 then []
    else BigEndian(n / 256, width - 1) + [(n % 256) as char]
  }

  function FromBigEndian(s: Text): nat
  {
    if s == [] then 0 else 256 * FromBigEndian(s[..|s| - 1]) + s[|s| - 1] as int
  }

  lemma {:induction false} BigEndianRoundTrip(n: nat, width: nat)
    requires n < Power256(width)
    ensures FromBigEndian(BigEndian(n, width)) == n
  {
    if width > 0 {
      BigEndianRoundTrip(n / 256, width - 1);
      var s := BigEndian(n, width);
      assert s[..width - 1] == BigEndian(n / 256, width - 1);
    }
  }

  lemma {:induction false} LessSnoc(x: Text, c: char, y: Text, d: char)
    requires |x| == |y|
    ensures Less(x + [c], y + [d]) <==> Less(x, y) || (x == y && c < d)
  {
    if x == y {
      LessSharedPrefix(x, [c], [d]);
      LessIrreflexive(x);
    } else {
      LessByBlock(x, y, [c], [d]);
    }
  }

  /** Byte order of equal-width big-endian numbers is numeric order. */
  lemma {:induction false} BigEndianOrder(m: nat, n: nat, width: nat)
    requires m < Power256(width) && n < Power256(width)
    ensures Less(BigEndian(m, width), BigEndian(n, width)) <==> m < n
    decreases width
  {
    hide Less;
    if width == 0 {
      LessIrreflexive([]);
    } else {
      BigEndianOrder(m / 256, n / 256, width - 1);
      LessSnoc(BigEndian(m / 256, width - 1), (m % 256) as char, BigEndian(n / 256, width - 1), (n % 256) as char);
      BigEndianRoundTrip(m / 256, width - 1);
      BigEndianRoundTrip(n / 256, width - 1);
    }
  }

  lemma Power256Of8()
    ensures Power256(8) == 2 * SIGN_FLIP
  {
    assert Power256(2) == 0x1_0000;
    assert Power256(4) == 0x1_0000_0000;
    assert Power256(6) == 0x1_0000_0000_0000;
  }

  /** The int64 with its sign bit flipped, read as a uint64. */
  function Flipped(t: Time): (n: nat)
    requires InRange(t)
    ensures n < Power256(8)
  {
    Power256Of8();
    Millis(t) + SIGN_FLIP
  }

  function TimePrefix(t: Time): (s: Text)
    requires InRange(t)
    ensures |s| == 10
  {
    "x/" + BigEndian(Flipped(t), 8)
  }

  function ExpiryKey(t: Time, key: FlowKey): (s: Text)
    requires InRange(t) && ByteKey(key)
    ensures |s| >= 12
  {
    TimePrefix(t) + ("/" + Parts(key))
  }

  function ParseExpiryKey(raw: Text): Option<FlowKey>
  {
    if |raw| < 13 || !HasPrefix(raw, "x/") || raw[10] != '/' then None else ParseParts(raw[11..])
  }

  /** The deadline an index entry shows, to the millisecond. */
  function ExpiryDeadline(raw: Text): Time
    requires |raw| >= 10
  {
    (FromBigEndian(raw[2..10]) - SIGN_FLIP) * NANOS_PER_MILLI
  }

  /** The minimum length refuses exactly the key whose rule and correlation key are both empty. */
  lemma ExpiryKeyRoundTrip(t: Time, key: FlowKey)
    requires InRange(t) && ByteKey(key)
    ensures ParseExpiryKey(ExpiryKey(t, key)) == if key == FlowKey("", "") then None else Some(key)
    ensures ExpiryDeadline(ExpiryKey(t, key)) == Millis(t) * NANOS_PER_MILLI
  {
    hide Parts, ParseParts, BigEndian, FromBigEndian, Power256;
    var raw := ExpiryKey(t, key);
    PartsRoundTrip(key);
    PartsLength(key);
    BigEndianRoundTrip(Flipped(t), 8);
    assert raw[..2] == "x/" && raw[2..10] == BigEndian(Flipped(t), 8);
    assert raw[10] == '/' && raw[11..] == Parts(key);
  }

  lemma PartsLength(key: FlowKey)
    requires ByteKey(key)
    ensures |Parts(key)| == 1 <==> key == FlowKey("", "")
    ensures |Parts(key)| >= 1
  {
    assert key.ruleId == "" ==> Escape(key.ruleId) == "";
    assert key.correlationKey == "" ==> Escape(key.correlationKey) == "";
  }

  /** Different flows or different milliseconds have different index entries. */
  lemma ExpiryKeyInjective(s: Time, a: FlowKey, t: Time, b: FlowKey)
    requires InRange(s) && InRange(t) && ByteKey(a) && ByteKey(b)
    ensures ExpiryKey(s, a) == ExpiryKey(t, b) <==> Millis(s) == Millis(t) && a == b
  {
    hide Parts, ParseParts, BigEndian, FromBigEndian, Power256;
    ExpiryKeyRoundTrip(s, a);
    ExpiryKeyRoundTrip(t, b);
  }

  // ---------- scan bounds ----------

  const TOP: char := 255 as char

  predicate InScan(raw: Text, lower: Text, upper: Text)
  {
    !Less(raw, lower) && Less(raw, upper)
  }

  function DueUpper(before: Time): Text
    requires InRange(before)
  {
    TimePrefix(before) + [TOP]
  }

  /** The scan up to the prefix of `before` reaches an entry exactly when its millisecond is not later. */
  lemma DueScanIsByMillisecond(t: Time, key: FlowKey, before: Time)
    requires InRange(t) && InRange(before) && ByteKey(key)
    ensures InScan(ExpiryKey(t, key), "x/", DueUpper(before)) <==> Millis(t) <= Millis(before)
  {
    hide Less, Parts, BigEndian, Power256;
    var raw, m, n := ExpiryKey(t, key), BigEndian(Flipped(t), 8), BigEndian(Flipped(before), 8);
    var tail := "/" + Parts(key);
    NotBelowPrefix("x/", m + tail);
    assert raw == "x/" + (m + tail);
    assert DueUpper(before) == "x/" + (n + [TOP]);
    LessSharedPrefix("x/", m + tail, n + [TOP]);
    BigEndianOrder(Flipped(t), Flipped(before), 8);
    if m == n {
      BigEndianRoundTrip(Flipped(t), 8);
      BigEndianRoundTrip(Flipped(before), 8);
      LessSharedPrefix(m, tail, [TOP]);
      assert Less(tail, [TOP]) by { SlashBelowTop(tail); }
    } else {
      LessByBlock(m, n, tail, [TOP]);
    }
  }

  lemma SlashBelowTop(tail: Text)
    requires tail != [] && tail[0] == '/'
    ensures Less(tail, [TOP])
  {
  }

  lemma NotBelowPrefix(p: Text, s: Text)
    ensures !Less(p + s, p)
  {
    LessSharedPrefix(p, s, []);
    assert p + [] == p;
  }

  /** prefixOptions: the scan of a family reaches an ID unless its first byte is 0xff. */
  lemma PrefixScanReaches(prefix: Text, id: Text)
    requires IsBytes(id)
    ensures InScan(prefix + id, prefix, prefix + [TOP]) <==> id == "" || id[0] != TOP
  {
    NotBelowPrefix(prefix, id);
    LessSharedPrefix(prefix, id, [TOP]);
  }

  lemma ForeignIsOutside(prefix: Text, end: Text, raw: Text)
    requires |prefix| == 2 <= |raw| && raw[..2] != prefix
    ensures !InScan(raw, prefix, prefix + end)
  {
    hide Less;
    LessByBlock(raw[..2], prefix, raw[2..], []);
    LessByBlock(raw[..2], prefix, raw[2..], end);
    assert raw == raw[..2] + raw[2..] && prefix + [] == prefix;
  }

  lemma ShortIsOutside(prefix: Text, end: Text, raw: Text)
    requires |prefix| == 2 && |raw| < 2
    ensures !InScan(raw, prefix, prefix + end)
  {
    var upper := prefix + end;
    assert upper[0] == prefix[0];
    if |raw| == 1 {
      assert raw[1..] == [] && Less([], prefix[1..]);
    }
  }

  /** Families do not overlap: a key scanned from a prefix to an extension of it has the prefix. */
  lemma PrefixScanStays(prefix: Text, end: Text, raw: Text)
    requires |prefix| == 2 && InScan(raw, prefix, prefix + end)
    ensures HasPrefix(raw, prefix)
  {
    if |raw| < 2 {
      ShortIsOutside(prefix, end, raw);
    } else if raw[..2] != prefix {
      ForeignIsOutside(prefix, end, raw);
    }
  }
}
