/** `sorted()` of a set of strings. */
module SortedNames {
  import T = Text

  predicate IsLeast(m: string, s: set<string>) {
    m in s && forall x | x in s :: x == m || T.Before(m, x)
  }

  lemma {:induction false} ThereIsALeast(s: set<string>) returns (m: string)
    requires s != {}
    ensures IsLeast(m, s)
  {
    m :| m in s;
    var rest := s - {m};
    if rest == {} {
      assert s == {m};
    } else {
      var l := ThereIsALeast(rest);
      T.BeforeIsTotal(m, l);
      if T.Before(l, m) {
        m := l;
      } else {
        forall x | x in s && x != m ensures T.Before(m, x) {
          if x != l { T.BeforeIsTransitive(m, l, x); }
        }
      }
    }
  }

  lemma LeastIsUnique(m: string, n: string, s: set<string>)
    requires IsLeast(m, s) && IsLeast(n, s)
    ensures m == n
  {
    T.BeforeIsTotal(m, n);
  }

  lemma LeastExists(s: set<string>)
    requires s != {}
    ensures exists m :: IsLeast(m, s)
    ensures forall m, n | IsLeast(m, s) && IsLeast(n, s) :: m == n
  {
    var l := ThereIsALeast(s);
    forall m, n | IsLeast(m, s) && IsLeast(n, s) ensures m == n { LeastIsUnique(m, n, s); }
  }

  function Sorted(s: set<string>): seq<string> {
    if s == {} then []
    else
      LeastExists(s);
      var m :| IsLeast(m, s);
      [m] + Sorted(s - {m})
  }

  lemma {:induction false} SortedHolds(s: set<string>)
    ensures forall x :: x in Sorted(s) <==> x in s
    ensures forall i, j | 0 <= i < j < |Sorted(s)| :: T.Before(Sorted(s)[i], Sorted(s)[j])
  {
    if s != {} {
      LeastExists(s);
      var m :| IsLeast(m, s);
      SortedHolds(s - {m});
      var rest := Sorted(s - {m});
      assert Sorted(s) == [m] + rest;
      forall j | 0 <= j < |rest| ensures T.Before(m, rest[j]) { assert rest[j] in s - {m}; }
    }
  }
}
