/**
  Prefix search as an index range scan: the upper bound of a prefix over Unicode scalar values, and why
  the byte comparison SQLite makes on UTF-8 text (section 3 of RFC 3629) agrees with it.
*/
module Utf8Prefix {
  import opened Prelude

  const LAST_SCALAR: int := 0x10FFFF

  type Scalar = c: int | 0 <= c < 0xD800 || 0xE000 <= c <= 0x10FFFF witness 0

  type Text = seq<Scalar>

  // ---------------------------------------------------------------- lexicographic order

  predicate LexLess(a: seq<int>, b: seq<int>) {
    b != [] && (a == [] || a[0] < b[0] || (a[0] == b[0] && LexLess(a[1..], b[1..])))
  }

  predicate LexLeq(a: seq<int>, b: seq<int>) {
    a == b || LexLess(a, b)
  }

  lemma {:induction false} LexAsymmetric(a: seq<int>, b: seq<int>)
    requires LexLess(a, b)
    ensures !LexLess(b, a) && a != b
  {
    if a != [] && a[0] == b[0] {
      LexAsymmetric(a[1..], b[1..]);
    }
  }

  lemma {:induction false} LexTransitive(a: seq<int>, b: seq<int>, c: seq<int>)
    requires LexLess(a, b) && LexLess(b, c)
    ensures LexLess(a, c)
  {
    if a != [] && a[0] == b[0] && b[0] == c[0] {
      LexTransitive(a[1..], b[1..], c[1..]);
    }
  }

  lemma {:induction false} LexTotal(a: seq<int>, b: seq<int>)
    ensures LexLess(a, b) || a == b || LexLess(b, a)
  {
    if a != [] && b != [] && a[0] == b[0] {
      LexTotal(a[1..], b[1..]);
      assert a == [a[0]] + a[1..] && b == [b[0]] + b[1..];
    }
  }

  lemma {:induction false} LexCancel(p: seq<int>, a: seq<int>, b: seq<int>)
    ensures LexLess(p + a, p + b) <==> LexLess(a, b)
  {
    if p == [] {
      assert p + a == a && p + b == b;
    } else {
      LexCancel(p[1..], a, b);
      assert (p + a)[1..] == p[1..] + a && (p + b)[1..] == p[1..] + b;
    }
  }

  // ---------------------------------------------------------------- UTF-8

  function Encode(c: Scalar): (bytes: seq<int>)
    ensures 1 <= |bytes| <= 4 && forall i :: 0 <= i < |bytes| ==> 0 <= bytes[i] < 256
  {
    if c < 0x80 then [c]
    else if c < 0x800 then [0xC0 + c / 64, 0x80 + c % 64]
    else if c < 0x10000 then [0xE0 + c / 64 / 64, 0x80 + c / 64 % 64, 0x80 + c % 64]
    else [0xF0 + c / 64 / 64 / 64, 0x80 + c / 64 / 64 % 64, 0x80 + c / 64 % 64, 0x80 + c % 64]
  }

  function Utf8(s: Text): seq<int> {
    if s == [] then [] else Encode(s[0]) + Utf8(s[1..])
  }

  lemma LexFirst(a: seq<int>, b: seq<int>, x: seq<int>, y: seq<int>, i: nat)
    requires i < |a| && i < |b| && a[..i] == b[..i] && a[i] < b[i]
    ensures LexLess(a + x, b + y)
  {
    var p := a[..i];
    assert a + x == p + (a[i..] + x) && b + y == p + (b[i..] + y);
    LexCancel(p, a[i..] + x, b[i..] + y);
  }

  /** Six bits at a time: the higher digits decide, or the low digit does. */
  lemma DigitOrder(c: nat, d: nat)
    requires c < d
    ensures c / 64 < d / 64 || (c / 64 == d / 64 && c % 64 < d % 64)
  {
  }

  lemma LeadBytes(c: Scalar)
    ensures |Encode(c)| == 1 ==> Encode(c)[0] < 0x80
    ensures |Encode(c)| == 2 ==> 0xC2 <= Encode(c)[0] < 0xE0
    ensures |Encode(c)| == 3 ==> 0xE0 <= Encode(c)[0] < 0xF0
    ensures |Encode(c)| == 4 ==> 0xF0 <= Encode(c)[0] < 0xF5
  {
  }

  lemma SameLengthOrder(c: Scalar, d: Scalar) returns (i: nat)
    requires c < d && |Encode(c)| == |Encode(d)|
    ensures i < |Encode(c)| && Encode(c)[..i] == Encode(d)[..i] && Encode(c)[i] < Encode(d)[i]
  {
    i := |Encode(c)| - 1;
    if i > 0 {
      DigitOrder(c, d);
      if c / 64 < d / 64 {
        i := i - 1;
        if i > 0 {
          DigitOrder(c / 64, d / 64);
          if c / 64 / 64 < d / 64 / 64 {
            i := i - 1;
            if i > 0 {
              DigitOrder(c / 64 / 64, d / 64 / 64);
              if c / 64 / 64 / 64 < d / 64 / 64 / 64 {
                i := i - 1;
              }
            }
          }
        }
      }
    }
  }

  /** The encodings of two scalars already decide their order, whatever follows. */
  lemma EncodeOrder(c: Scalar, d: Scalar, x: seq<int>, y: seq<int>)
    requires c < d
    ensures LexLess(Encode(c) + x, Encode(d) + y)
  {
    var i := 0;
    if |Encode(c)| == |Encode(d)| {
      i := SameLengthOrder(c, d);
    } else {
      LeadBytes(c);
      LeadBytes(d);
    }
    LexFirst(Encode(c), Encode(d), x, y, i);
  }

  /** Byte order of UTF-8 is code-point order. */
  lemma {:induction false} Utf8Order(s: Text, t: Text)
    ensures LexLess(Utf8(s), Utf8(t)) <==> LexLess(s, t)
  {
    if s == [] || t == [] {
    } else if s[0] == t[0] {
      Utf8Order(s[1..], t[1..]);
      LexCancel(Encode(s[0]), Utf8(s[1..]), Utf8(t[1..]));
    } else if s[0] < t[0] {
      EncodeOrder(s[0], t[0], Utf8(s[1..]), Utf8(t[1..]));
    } else {
      EncodeOrder(t[0], s[0], Utf8(t[1..]), Utf8(s[1..]));
      LexAsymmetric(Utf8(t), Utf8(s));
    }
  }

  lemma Utf8Injective(s: Text, t: Text)
    ensures Utf8(s) == Utf8(t) <==> s == t
  {
    LexTotal(s, t);
    Utf8Order(s, t);
    Utf8Order(t, s);
    if LexLess(s, t) {
      LexAsymmetric(Utf8(s), Utf8(t));
    } else if LexLess(t, s) {
      LexAsymmetric(Utf8(t), Utf8(s));
    }
  }

  // ---------------------------------------------------------------- the upper bound

  /** char::from_u32 of the next value, jumping the surrogate gap. */
  function NextScalar(c: Scalar): (n: Scalar)
    requires c != LAST_SCALAR
    ensures c < n && (n == c + 1 || (c == 0xD7FF && n == 0xE000))
  {
    if c == 0xD7FF then 0xE000 else c + 1
  }

  function UpperBound(p: Text): Option<Text> {
    if p == [] then None
    else if p[|p| - 1] == LAST_SCALAR then UpperBound(p[..|p| - 1])
    else Some(p[..|p| - 1] + [NextScalar(p[|p| - 1])])
  }

  /** prefix_upper_bound: scan from the right for a character that can be raised, drop what follows. */
  method PrefixUpperBound(prefix: Text) returns (bound: Option<Text>)
    ensures bound == UpperBound(prefix)
  {
    var chars := prefix;
    var index := |chars|;
    assert prefix[..index] == prefix;
    while index > 0
      invariant 0 <= index <= |prefix| && chars == prefix
      invariant UpperBound(prefix[..index]) == UpperBound(prefix)
    {
      index := index - 1;
      assert prefix[..index + 1][..index] == prefix[..index];
      if chars[index] != LAST_SCALAR {
        chars := chars[index := NextScalar(chars[index])];
        assert chars[..index + 1] == prefix[..index] + [NextScalar(prefix[index])];
        return Some(chars[..index + 1]);
      }
    }
    bound := None;
  }

  lemma {:induction false} NoBoundIff(p: Text)
    ensures UpperBound(p).None? <==> forall i :: 0 <= i < |p| ==> p[i] == LAST_SCALAR
  {
    if p != [] {
      var q := p[..|p| - 1];
      NoBoundIff(q);
      assert forall i :: 0 <= i < |q| ==> q[i] == p[i];
    }
  }

  lemma {:induction false} BoundFront(p: Text)
    requires p != []
    ensures UpperBound(p) ==
            match UpperBound(p[1..])
            case Some(u) => Some([p[0]] + u)
            case None => if p[0] == LAST_SCALAR then None else Some([NextScalar(p[0])])
  {
    if |p| == 1 {
      assert p[1..] == [] && p[..0] == [];
      assert UpperBound(p[1..]).None? && UpperBound(p[..0]).None?;
      assert forall c: Scalar :: p[..0] + [c] == [c];
    } else {
      var q := p[..|p| - 1];
      assert p[1..][..|p[1..]| - 1] == q[1..];
      if p[|p| - 1] == LAST_SCALAR {
        BoundFront(q);
      } else {
        var n := [NextScalar(p[|p| - 1])];
        assert p[1..][|p[1..]| - 1] == p[|p| - 1];
        assert UpperBound(p[1..]) == Some(q[1..] + n);
        assert q + n == [p[0]] + (q[1..] + n);
      }
    }
  }

  lemma {:induction false} MaximalPrefix(p: Text, s: Text)
    requires forall i :: 0 <= i < |p| ==> p[i] == LAST_SCALAR
    ensures LexLeq(p, s) <==> p <= s
  {
    if p != [] && s != [] {
      MaximalPrefix(p[1..], s[1..]);
      Heads(p, s);
    }
  }

  lemma Heads(p: Text, s: Text)
    requires p != [] && s != []
    ensures p <= s <==> p[0] == s[0] && p[1..] <= s[1..]
    ensures LexLeq(p, s) <==> p[0] < s[0] || (p[0] == s[0] && LexLeq(p[1..], s[1..]))
  {
  }

  lemma {:induction false} CodePointRange(p: Text, u: Text, s: Text)
    requires UpperBound(p) == Some(u)
    ensures LexLeq(p, s) && LexLess(s, u) <==> p <= s
  {
    BoundFront(p);
    if s != [] {
      Heads(p, s);
      if UpperBound(p[1..]).Some? {
        var u1 := UpperBound(p[1..]).value;
        CodePointRange(p[1..], u1, s[1..]);
        assert u[1..] == u1;
      } else {
        NoBoundIff(p[1..]);
        MaximalPrefix(p[1..], s[1..]);
      }
    }
  }

  /** The range scan `column >= p AND column < u`, compared by UTF-8 bytes, selects exactly the strings
      that start with p; and when no bound exists, `column >= p` with the substring test does. */
  lemma RangeIsPrefix(p: Text, s: Text)
    ensures UpperBound(p).Some? ==>
              (LexLeq(Utf8(p), Utf8(s)) && LexLess(Utf8(s), Utf8(UpperBound(p).value)) <==> p <= s)
    ensures UpperBound(p).None? ==>
              (LexLeq(Utf8(p), Utf8(s)) && |p| <= |s| && s[..|p|] == p <==> p <= s)
  {
    Utf8Order(p, s);
    Utf8Injective(p, s);
    if UpperBound(p).Some? {
      Utf8Order(s, UpperBound(p).value);
      CodePointRange(p, UpperBound(p).value, s);
    } else {
      NoBoundIff(p);
      MaximalPrefix(p, s);
    }
  }
}
