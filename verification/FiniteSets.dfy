/** Counting by subsets and injections. */
module FiniteSets {

  /** The numbers below `n`. */
  function Upto(n: nat): (s: set<nat>)
    ensures |s| == n && forall j: nat :: j in s <==> j < n
  {
    if n == 0 then {} else Upto(n - 1) + {n - 1}
  }

  lemma {:induction false} Smaller<T>(a: set<T>, b: set<T>)
    requires a <= b
    ensures |a| <= |b|
  {
    if x :| x in a {
      Smaller(a - {x}, b - {x});
    }
  }

  lemma SameSize<T>(a: set<T>, b: set<T>)
    requires a <= b && |a| == |b|
    ensures a == b
  {
    if x :| x in b && x !in a {
      Smaller(a, b - {x});
    }
  }

  lemma Split<T>(a: set<T>, b: set<T>)
    ensures |a| == |a - b| + |a * b|
  {
    assert a == (a - b) + (a * b);
  }

  /** An injection into a set shows it no smaller. */
  lemma {:induction false} InjectionBound<A, B>(f: map<A, B>, dom: set<A>, rng: set<B>)
    requires forall a :: a in dom ==> a in f && f[a] in rng
    requires forall a, b :: a in dom && b in dom && a != b ==> f[a] != f[b]
    ensures |dom| <= |rng|
  {
    if x :| x in dom {
      InjectionBound(f, dom - {x}, rng - {f[x]});
    }
  }

  ghost function Elements<T>(s: seq<T>): set<T> {
    set x | x in s
  }

  lemma {:induction false} NoMoreElements<T>(s: seq<T>)
    ensures |Elements(s)| <= |s|
  {
    if |s| > 0 {
      var n := |s| - 1;
      NoMoreElements(s[..n]);
      assert Elements(s) == Elements(s[..n]) + {s[n]};
    }
  }

  /** A list without repetition has as many elements as places. */
  lemma {:induction false} EachOnce<T>(s: seq<T>)
    requires forall i, j :: 0 <= i < j < |s| ==> s[i] != s[j]
    ensures |Elements(s)| == |s|
  {
    if |s| > 0 {
      var n := |s| - 1;
      EachOnce(s[..n]);
      assert Elements(s) == Elements(s[..n]) + {s[n]};
    }
  }

  /** One with a repetition has fewer. */
  lemma SomeTwice<T>(s: seq<T>, p: nat, q: nat)
    requires p < q < |s| && s[p] == s[q]
    ensures |Elements(s)| < |s|
  {
    var rest := s[..q] + s[q + 1..];
    forall x | x in s ensures x in rest {
      if x == s[q] {
        assert rest[p] == x;
      } else {
        var i :| 0 <= i < |s| && s[i] == x;
        assert rest[if i < q then i else i - 1] == x;
      }
    }
    assert Elements(rest) == Elements(s);
    NoMoreElements(rest);
  }
}
