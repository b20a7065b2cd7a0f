/** Byte strings in the order std::string_view gives them. */
module Lex {
  import opened Common

  predicate Less(a: Bytes, b: Bytes) {
    b != [] && (a == [] || a[0] < b[0] || (a[0] == b[0] && Less(a[1..], b[1..])))
  }

  lemma {:induction false} LessIrreflexive(a: Bytes)
    ensures !Less(a, a)
  {
    if a != [] {
      LessIrreflexive(a[1..]);
    }
  }

  lemma {:induction false} LessTransitive(a: Bytes, b: Bytes, c: Bytes)
    requires Less(a, b) && Less(b, c)
    ensures Less(a, c)
  {
    if a != [] && a[0] == b[0] == c[0] {
      LessTransitive(a[1..], b[1..], c[1..]);
    }
  }

  lemma {:induction false} LessTotal(a: Bytes, b: Bytes)
    ensures a == b || Less(a, b) || Less(b, a)
  {
    if a != [] && b != [] && a[0] == b[0] {
      LessTotal(a[1..], b[1..]);
      assert a == [a[0]] + a[1..] && b == [b[0]] + b[1..];
    }
  }

  lemma LessAsymmetric(a: Bytes, b: Bytes)
    requires Less(a, b)
    ensures !Less(b, a) && a != b
  {
    LessIrreflexive(a);
    if Less(b, a) {
      LessTransitive(a, b, a);
    }
  }

  /** A non-empty set of byte strings has a least member. */
  lemma {:induction false} LeastExists(s: set<Bytes>)
    requires s != {}
    ensures exists a :: a in s && forall b :: b in s && b != a ==> Less(a, b)
    decreases |s|
  {
    var x :| x in s;
    var rest := s - {x};
    if rest == {} {
      assert s == rest + {x};
    } else {
      LeastExists(rest);
      var y :| y in rest && forall b :: b in rest && b != y ==> Less(y, b);
      LessTotal(x, y);
      if Less(x, y) {
        forall b | b in s && b != x ensures Less(x, b) {
          if b != y { LessTransitive(x, y, b); }
        }
      } else {
        assert forall b :: b in s && b != y ==> b == x || b in rest;
      }
    }
  }
}
