/** What an output ID hashes (NewOutputID of internal/domain/projection/document.go): rule, correlation
    key and first observed time, joined by colons. */
module OutputIds {
  import opened ByteText
  import opened Rules
  import opened FlowModel

  function Preimage(ruleId: Text, key: Text, stamp: Text): Text
  {
    ruleId + ":" + key + ":" + stamp
  }

  /** The colon count of a UTC time in the format of section 5.6 of RFC 3339: hours, minutes, seconds. */
  ghost predicate UtcStamp(stamp: Text)
  {
    exists h, m, s :: IsStamp(stamp, h, m, s)
  }

  predicate IsStamp(stamp: Text, h: Text, m: Text, s: Text)
  {
    ':' !in h && ':' !in m && ':' !in s && stamp == h + ":" + m + ":" + s
  }

  lemma SplitAtLastColon(u: Text, a: Text, v: Text, b: Text)
    requires ':' !in a && ':' !in b
    requires u + ":" + a == v + ":" + b
    ensures u == v && a == b
  {
    var s := u + ":" + a;
    assert s[|u|] == ':' && s[|v|] == ':';
    assert forall i :: |u| < i < |s| ==> s[i] == a[i - |u| - 1];
    assert forall i :: |v| < i < |s| ==> s[i] == b[i - |v| - 1];
    assert |u| == |v|;
    assert s[..|u|] == u && s[..|v|] == v && s[|u| + 1..] == a && s[|v| + 1..] == b;
  }

  /** The stamp at the end of a text can be told from what precedes it. */
  lemma StampIsSuffix(u: Text, a: Text, v: Text, b: Text)
    requires UtcStamp(a) && UtcStamp(b) && u + ":" + a == v + ":" + b
    ensures u == v && a == b
  {
    var h, m, s :| IsStamp(a, h, m, s);
    var h', m', s' :| IsStamp(b, h', m', s');
    assert u + ":" + a == ((u + ":" + h) + ":" + m) + ":" + s;
    assert v + ":" + b == ((v + ":" + h') + ":" + m') + ":" + s';
    SplitAtLastColon((u + ":" + h) + ":" + m, s, (v + ":" + h') + ":" + m', s');
    SplitAtLastColon(u + ":" + h, m, v + ":" + h', m');
    SplitAtLastColon(u, h, v, h');
  }

  /** With colon-free rule IDs and UTC stamps the preimage says everything. */
  lemma PreimageInjective(r: Text, key: Text, stamp: Text, r': Text, key': Text, stamp': Text)
    requires ':' !in r && ':' !in r' && UtcStamp(stamp) && UtcStamp(stamp')
    requires Preimage(r, key, stamp) == Preimage(r', key', stamp')
    ensures r == r' && key == key' && stamp == stamp'
  {
    hide UtcStamp;
    StampIsSuffix(r + ":" + key, stamp, r' + ":" + key', stamp');
    SplitAtColon(r, key, r', key');
  }

  /** Some pair of correlation keys gives the two rules one preimage at this time. */
  ghost predicate Confusable(r: Text, r': Text, stamp: Text)
  {
    exists key, key' :: Preimage(r, key, stamp) == Preimage(r', key', stamp)
  }

  lemma PrefixConfuses(r: Text, tail: Text, key: Text, stamp: Text)
    ensures Preimage(r + ":" + tail, key, stamp) == Preimage(r, tail + ":" + key, stamp)
  {
    assert (r + ":" + tail) + ":" + key + ":" + stamp == r + ":" + (tail + ":" + key) + ":" + stamp;
  }

  lemma LongerConfused(r: Text, r': Text, stamp: Text)
    requires HasPrefix(r', r + ":")
    ensures Confusable(r, r', stamp) && Confusable(r', r, stamp)
  {
    var tail := r'[|r| + 1..];
    assert r' == r + ":" + tail;
    PrefixConfuses(r, tail, "", stamp);
  }

  lemma ShorterIsPrefix(r: Text, key: Text, r': Text, key': Text)
    requires |r| < |r'| && r + ":" + key == r' + ":" + key'
    ensures HasPrefix(r', r + ":")
  {
    var s := r + ":" + key;
    assert s[..|r| + 1] == r + ":";
    assert s[..|r'|] == r';
    assert s[..|r'|][..|r| + 1] == s[..|r| + 1];
  }

  /** Two rules can share an output ID exactly when one rule ID continues the other after a colon. */
  lemma ConfusableIff(r: Text, r': Text, stamp: Text)
    requires UtcStamp(stamp) && r != r'
    ensures Confusable(r, r', stamp) <==> HasPrefix(r', r + ":") || HasPrefix(r, r' + ":")
  {
    hide UtcStamp;
    if HasPrefix(r', r + ":") {
      LongerConfused(r, r', stamp);
    } else if HasPrefix(r, r' + ":") {
      LongerConfused(r', r, stamp);
    }
    if key, key' :| Preimage(r, key, stamp) == Preimage(r', key', stamp) {
      StampIsSuffix(r + ":" + key, stamp, r' + ":" + key', stamp);
      if |r| < |r'| {
        ShorterIsPrefix(r, key, r', key');
      } else if |r'| < |r| {
        ShorterIsPrefix(r', key', r, key);
      } else {
        EqualLengths(r, key, r', key');
      }
    }
  }

  lemma EqualLengths(r: Text, key: Text, r': Text, key': Text)
    requires |r| == |r'| && r + ":" + key == r' + ":" + key'
    ensures r == r'
  {
    assert (r + ":" + key)[..|r|] == r && (r' + ":" + key')[..|r'|] == r';
  }

  /** How times are printed: UTC stamps, one per instant. */
  ghost predicate Prints(stampOf: Time -> Text)
  {
    && (forall at :: UtcStamp(stampOf(at)))
    && (forall a, b :: stampOf(a) == stampOf(b) ==> a == b)
  }

  ghost predicate Injective(digest: Text -> Text)
  {
    forall a, b :: digest(a) == digest(b) ==> a == b
  }

  function NewOutputId(digest: Text -> Text, stampOf: Time -> Text, key: FlowKey, firstObservedAt: Time): Text
  {
    digest(Preimage(key.ruleId, key.correlationKey, stampOf(firstObservedAt)))
  }

  /** Two batches share an output ID exactly when they have the same key and the same first instant:
      a later batch has a new ID unless it starts at the very instant an earlier one did. */
  lemma SharedIdIffSameInstant(digest: Text -> Text, stampOf: Time -> Text, key: FlowKey, at: Time, key': FlowKey,
                               at': Time)
    requires Injective(digest) && Prints(stampOf) && ':' !in key.ruleId && ':' !in key'.ruleId
    ensures NewOutputId(digest, stampOf, key, at) == NewOutputId(digest, stampOf, key', at') <==>
            key == key' && at == at'
  {
    hide UtcStamp, Preimage;
    if NewOutputId(digest, stampOf, key, at) == NewOutputId(digest, stampOf, key', at') {
      PreimageInjective(key.ruleId, key.correlationKey, stampOf(at), key'.ruleId, key'.correlationKey, stampOf(at'));
    }
  }
}
