/** The order in which `std::map` keeps its string keys. */
module StringOrder {
  import opened Common

  /** `!(b < a)` on `std::string`. */
  predicate LexLeq(a: string, b: string) {
    a == "" || (b != "" && (a[0] < b[0] || (a[0] == b[0] && LexLeq(a[1..], b[1..]))))
  }

  predicate LexLess(a: string, b: string) {
    LexLeq(a, b) && a != b
  }

  lemma {:induction false} LexTotal(a: string, b: string)
    ensures LexLeq(a, b) || LexLeq(b, a)
  {
    if a != "" && b != "" && a[0] == b[0] {
      LexTotal(a[1..], b[1..]);
    }
  }

  lemma {:induction false} LexAntisymmetric(a: string, b: string)
    requires LexLeq(a, b) && LexLeq(b, a)
    ensures a == b
  {
    if a != "" && b != "" {
      LexAntisymmetric(a[1..], b[1..]);
      assert a == [a[0]] + a[1..] && b == [b[0]] + b[1..];
    }
  }

  lemma {:induction false} LexTransitive(a: string, b: string, c: string)
    requires LexLeq(a, b) && LexLeq(b, c)
    ensures LexLeq(a, c)
  {
    if a != "" && a[0] == b[0] == c[0] {
      LexTransitive(a[1..], b[1..], c[1..]);
    }
  }

  predicate IsLeast(keys: set<string>, k: string) {
    k in keys && forall o | o in keys :: LexLeq(k, o)
  }

  lemma {:induction false} LeastExists(keys: set<string>)
    requires keys != {}
    ensures exists k :: IsLeast(keys, k)
  {
    var one :| one in keys;
    var rest := keys - {one};
    if rest == {} {
      assert keys == {one};
      LexTotal(one, one);
      assert IsLeast(keys, one);
    } else {
      LeastExists(rest);
      var k :| IsLeast(rest, k);
      LexTotal(one, k);
      LexTotal(one, one);
      if LexLeq(one, k) {
        forall o | o in keys ensures LexLeq(one, o) {
          if o != one {
            LexTransitive(one, k, o);
          }
        }
        assert IsLeast(keys, one);
      } else {
        assert IsLeast(keys, k);
      }
    }
  }

  lemma {:induction false} LeastUnique(keys: set<string>)
    ensures forall k, l | IsLeast(keys, k) && IsLeast(keys, l) :: k == l
  {
    forall k, l | IsLeast(keys, k) && IsLeast(keys, l) ensures k == l {
      LexAntisymmetric(k, l);
    }
  }

  /** The keys from the least to the greatest, as a loop over the map meets them. */
  function Ascending(keys: set<string>): seq<string> {
    if keys == {} then []
    else
      LeastExists(keys);
      LeastUnique(keys);
      var k :| IsLeast(keys, k);
      [k] + Ascending(keys - {k})
  }

  /** The loop visits exactly the keys of the map, each once and in order. */
  lemma {:induction false} AscendingVisits(keys: set<string>)
    ensures forall k :: k in Ascending(keys) <==> k in keys
    ensures |Ascending(keys)| == |keys|
    ensures forall i, j | 0 <= i < j < |Ascending(keys)| :: LexLess(Ascending(keys)[i], Ascending(keys)[j])
  {
    if keys != {} {
      LeastExists(keys);
      LeastUnique(keys);
      var k :| IsLeast(keys, k);
      AscendingVisits(keys - {k});
      assert Ascending(keys) == [k] + Ascending(keys - {k});
    }
  }
}
