/** The order of strings by their octets, in which Python's sorted() and the JSON printer of page cursors list
    keys and account ids. It is a strict total order, every non-empty set has a least string, and listing a
    set least first gives the one ascending sequence without repetitions that holds exactly its strings. */
module TextOrder {

  predicate LexLess(a: string, b: string) {
    b != [] && (a == [] || a[0] < b[0] || (a[0] == b[0] && LexLess(a[1..], b[1..])))
  }

  lemma {:induction false} LexTotal(a: string, b: string)
    ensures a == b || LexLess(a, b) || LexLess(b, a)
  {
    if a != [] && b != [] && a[0] == b[0] {
      LexTotal(a[1..], b[1..]);
      assert a == [a[0]] + a[1..] && b == [b[0]] + b[1..];
    }
  }

  lemma {:induction false} LexStrict(a: string, b: string)
    requires LexLess(a, b)
    ensures a != b && !LexLess(b, a)
  {
    if a != [] && a[0] == b[0] {
      LexStrict(a[1..], b[1..]);
    }
  }

  lemma {:induction false} LexTransitive(a: string, b: string, c: string)
    requires LexLess(a, b) && LexLess(b, c)
    ensures LexLess(a, c)
  {
    if a != [] && a[0] == b[0] == c[0] {
      LexTransitive(a[1..], b[1..], c[1..]);
    }
  }

  predicate IsLeast(s: set<string>, m: string) {
    m in s && forall x :: x in s && x != m ==> LexLess(m, x)
  }

  lemma {:induction false} LeastExists(s: set<string>)
    requires s != {}
    ensures exists m :: IsLeast(s, m)
  {
    var a :| a in s;
    var rest := s - {a};
    if rest == {} {
      assert forall x :: x in s ==> x == a || x in rest;
      assert IsLeast(s, a);
    } else {
      LeastExists(rest);
      var b :| IsLeast(rest, b);
      LeastOfBoth(s, a, b);
    }
  }

  lemma LeastOfBoth(s: set<string>, a: string, b: string)
    requires a in s && IsLeast(s - {a}, b)
    ensures exists m :: IsLeast(s, m)
  {
    LexTotal(a, b);
    if LexLess(a, b) {
      forall x | x in s && x != a ensures LexLess(a, x) {
        if x != b {
          assert x in s - {a};
          LexTransitive(a, b, x);
        }
      }
      assert IsLeast(s, a);
    } else {
      forall x | x in s && x != b ensures LexLess(b, x) {
        assert x == a || x in s - {a};
      }
      assert IsLeast(s, b);
    }
  }

  lemma LeastIsUnique(s: set<string>)
    ensures forall a, b :: IsLeast(s, a) && IsLeast(s, b) ==> a == b
  {
    forall a, b | IsLeast(s, a) && IsLeast(s, b) ensures a == b {
      if a != b {
        LexStrict(a, b);
      }
    }
  }

  function Least(s: set<string>): (m: string)
    requires s != {}
    ensures IsLeast(s, m)
  {
    LeastExists(s);
    LeastIsUnique(s);
    var m :| m in s && IsLeast(s, m);
    m
  }

  /** The set in increasing order. */
  function Sorted(s: set<string>): seq<string> {
    if s == {} then [] else [Least(s)] + Sorted(s - {Least(s)})
  }

  ghost predicate Ascending(s: seq<string>) {
    forall i, j :: 0 <= i < j < |s| ==> LexLess(s[i], s[j])
  }

  lemma {:induction false} SortedSorts(s: set<string>)
    ensures Ascending(Sorted(s)) && (forall x :: x in Sorted(s) <==> x in s)
  {
    if s != {} {
      SortedSorts(s - {Least(s)});
      LeastFirst(s, Least(s), Sorted(s - {Least(s)}));
    }
  }

  lemma LeastFirst(s: set<string>, m: string, rest: seq<string>)
    requires IsLeast(s, m) && Ascending(rest) && forall x :: x in rest <==> x in s - {m}
    ensures Ascending([m] + rest) && forall x :: x in [m] + rest <==> x in s
  {
    var all := [m] + rest;
    forall i, j | 0 <= i < j < |all| ensures LexLess(all[i], all[j]) {
      assert all[j] == rest[j - 1] && rest[j - 1] in rest;
      if i > 0 {
        assert all[i] == rest[i - 1];
      }
    }
    forall x ensures x in all <==> x in s {
      assert x in all <==> x == m || x in rest;
    }
  }

  lemma AscendingDistinct(s: seq<string>)
    requires Ascending(s)
    ensures forall i, j :: 0 <= i < j < |s| ==> s[i] != s[j]
  {
    forall i, j | 0 <= i < j < |s| ensures s[i] != s[j] {
      LexStrict(s[i], s[j]);
    }
  }

  function Before(s: set<string>, x: string): set<string> {
    set y | y in s && LexLess(y, x)
  }

  lemma NothingBeforeLeast(s: set<string>, m: string)
    requires IsLeast(s, m)
    ensures Before(s, m) == {}
  {
    forall y | y in s ensures !LexLess(y, m) {
      if y != m {
        LexStrict(m, y);
      } else if LexLess(m, m) {
        LexStrict(m, m);
      }
    }
  }

  lemma BeforeOthers(s: set<string>, m: string, x: string)
    requires IsLeast(s, m) && x in s - {m}
    ensures |Before(s, x)| == |Before(s - {m}, x)| + 1
  {
    assert Before(s, x) == Before(s - {m}, x) + {m};
  }

  /** An element stands behind exactly the smaller ones. */
  lemma {:induction false} SortedPosition(s: set<string>, k: nat)
    requires k < |Sorted(s)|
    ensures |Before(s, Sorted(s)[k])| == k
  {
    var rest := s - {Least(s)};
    if k == 0 {
      NothingBeforeLeast(s, Least(s));
    } else {
      SortedPosition(rest, k - 1);
      SortedSorts(rest);
      assert Sorted(s)[k] == Sorted(rest)[k - 1] && Sorted(rest)[k - 1] in rest;
      BeforeOthers(s, Least(s), Sorted(rest)[k - 1]);
    }
  }

  /** The first `n` in order. */
  function First(s: set<string>, n: nat): seq<string> {
    if |Sorted(s)| <= n then Sorted(s) else Sorted(s)[..n]
  }

  /** Among them are exactly the elements with fewer than `n` smaller ones. */
  lemma FirstIff(s: set<string>, n: nat, x: string)
    ensures x in First(s, n) <==> x in s && |Before(s, x)| < n
  {
    SortedSorts(s);
    if x in s {
      var k :| 0 <= k < |Sorted(s)| && Sorted(s)[k] == x;
      SortedPosition(s, k);
      if k < n {
        assert First(s, n)[k] == x;
      }
    }
    if x in First(s, n) {
      var j :| 0 <= j < |First(s, n)| && First(s, n)[j] == x;
      assert Sorted(s)[j] == x;
      SortedPosition(s, j);
    }
  }
}
