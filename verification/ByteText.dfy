/** Byte strings. A Go string is a sequence of bytes, compared byte by byte; a byte is written
    here as the character with that code, so that syntax can be spelled with literals. */
module ByteText {

  type Text = string

  datatype Option<+T> = None | Some(value: T)

  /** Go's `<` on strings, which is also the order of keys in the durable store. */
  predicate Less(a: Text, b: Text)
    decreases |a|
  {
    b != [] && (a == [] || a[0] < b[0] || (a[0] == b[0] && Less(a[1..], b[1..])))
  }

  lemma {:induction false} LessIrreflexive(a: Text)
    ensures !Less(a, a)
    decreases |a|
  {
    if a != [] {
      LessIrreflexive(a[1..]);
    }
  }

  lemma {:induction false} LessTransitive(a: Text, b: Text, c: Text)
    requires Less(a, b) && Less(b, c)
    ensures Less(a, c)
    decreases |a|
  {
    if a != [] && a[0] == b[0] == c[0] {
      LessTransitive(a[1..], b[1..], c[1..]);
    }
  }

  lemma {:induction false} LessTotal(a: Text, b: Text)
    ensures Less(a, b) || a == b || Less(b, a)
    decreases |a|
  {
    if a != [] && b != [] && a[0] == b[0] {
      LessTotal(a[1..], b[1..]);
      assert a[1..] == b[1..] ==> a == [a[0]] + a[1..] == [b[0]] + b[1..] == b;
    }
  }

  /** A shared prefix does not matter. */
  lemma {:induction false} LessSharedPrefix(p: Text, a: Text, b: Text)
    ensures Less(p + a, p + b) <==> Less(a, b)
    decreases |p|
  {
    if p == [] {
      assert p + a == a && p + b == b;
    } else {
      assert (p + a)[1..] == p[1..] + a && (p + b)[1..] == p[1..] + b;
      LessSharedPrefix(p[1..], a, b);
    }
  }

  /** Blocks of equal width decide the order when they differ. */
  lemma {:induction false} LessByBlock(p: Text, q: Text, a: Text, b: Text)
    requires |p| == |q| && p != q
    ensures Less(p + a, q + b) <==> Less(p, q)
    decreases |p|
  {
    assert p == [p[0]] + p[1..] && q == [q[0]] + q[1..];
    assert (p + a)[1..] == p[1..] + a && (q + b)[1..] == q[1..] + b;
    if p[0] == q[0] {
      LessByBlock(p[1..], q[1..], a, b);
    }
  }

  predicate HasPrefix(s: Text, p: Text)
  {
    |p| <= |s| && s[..|p|] == p
  }
}
