/** The lexicographic order on strings, sorting by it, and substrings. */
module Strings {

  /** `a` sorts strictly before `b`. */
  predicate Before(a: string, b: string)
  {
    b != [] && (a == [] || a[0] < b[0] || (a[0] == b[0] && Before(a[1..], b[1..])))
  }

  /** `k` is where two strings part: at the end of the first, or at different characters. */
  ghost predicate PartAt(a: string, b: string, k: nat)
  {
    k <= |a| && k < |b| && a[..k] == b[..k] && (k == |a| || a[k] < b[k])
  }

  /** The order is that of the first difference; a prefix comes first. */
  lemma {:induction false} BeforeExactly(a: string, b: string)
    ensures Before(a, b) <==> exists k: nat :: PartAt(a, b, k)
  {
    if a == [] || b == [] || a[0] != b[0] {
      PartAtFront(a, b);
    } else {
      BeforeExactly(a[1..], b[1..]);
      if k: nat :| PartAt(a[1..], b[1..], k) {
        PartAtNext(a, b, k);
      }
      if k: nat :| PartAt(a, b, k) {
        assert k > 0;
        PartAtNext(a, b, k - 1);
      }
    }
  }

  lemma PartAtFront(a: string, b: string)
    requires a == [] || b == [] || a[0] != b[0]
    ensures Before(a, b) <==> exists k: nat :: PartAt(a, b, k)
  {
    if Before(a, b) {
      assert PartAt(a, b, 0);
    }
    if k: nat :| PartAt(a, b, k) && k > 0 {
      SameHead(a, b, k);
    }
  }

  lemma SameHead(a: string, b: string, k: nat)
    requires PartAt(a, b, k) && k > 0
    ensures a != [] && b != [] && a[0] == b[0]
  {
    assert a[..k][0] == b[..k][0];
  }

  lemma PartAtNext(a: string, b: string, k: nat)
    requires a != [] && b != [] && a[0] == b[0]
    ensures PartAt(a[1..], b[1..], k) <==> PartAt(a, b, k + 1)
  {
    if k + 1 <= |a| && k + 1 <= |b| {
      assert a[..k + 1] == [a[0]] + a[1..][..k] && b[..k + 1] == [b[0]] + b[1..][..k];
    }
  }

  lemma {:induction false} BeforeIrreflexive(a: string)
    ensures !Before(a, a)
  {
    if a != [] {
      BeforeIrreflexive(a[1..]);
    }
  }

  lemma {:induction false} BeforeTransitive(a: string, b: string, c: string)
    requires Before(a, b) && Before(b, c)
    ensures Before(a, c)
  {
    if a != [] && a[0] == b[0] && b[0] == c[0] {
      BeforeTransitive(a[1..], b[1..], c[1..]);
    }
  }

  lemma {:induction false} BeforeTotal(a: string, b: string)
    ensures Before(a, b) || Before(b, a) || a == b
  {
    if a != [] && b != [] && a[0] == b[0] {
      BeforeTotal(a[1..], b[1..]);
      assert a == [a[0]] + a[1..] && b == [b[0]] + b[1..];
    }
  }

  /** The keys of a list of pairs, in order. */
  function Keys<V>(pairs: seq<(string, V)>): (ks: seq<string>)
    ensures |ks| == |pairs| && forall i :: 0 <= i < |ks| ==> ks[i] == pairs[i].0
  {
    seq(|pairs|, i requires 0 <= i < |pairs| => pairs[i].0)
  }

  ghost predicate Sorted(ks: seq<string>)
  {
    forall i, j :: 0 <= i < j < |ks| ==> Before(ks[i], ks[j])
  }

  ghost predicate Unique(ks: seq<string>)
  {
    forall i, j :: 0 <= i < j < |ks| ==> ks[i] != ks[j]
  }

  function Insert(k: string, ks: seq<string>): (r: seq<string>)
    ensures forall x :: x in r <==> x == k || x in ks
    ensures |r| == |ks| + 1
  {
    if ks == [] || Before(k, ks[0]) then [k] + ks
    else
      var r := [ks[0]] + Insert(k, ks[1..]);
      assert ks == [ks[0]] + ks[1..];
      r
  }

  function Sort(ks: seq<string>): (r: seq<string>)
    ensures forall x :: x in r <==> x in ks
    ensures |r| == |ks|
  {
    if ks == [] then []
    else
      assert ks == [ks[0]] + ks[1..];
      Insert(ks[0], Sort(ks[1..]))
  }

  lemma {:induction false} InsertSorted(k: string, ks: seq<string>)
    requires Sorted(ks) && k !in ks
    ensures Sorted(Insert(k, ks))
  {
    if ks != [] {
      if Before(k, ks[0]) {
        forall j | 0 <= j < |ks| ensures Before(k, ks[j]) {
          if j > 0 {
            BeforeTransitive(k, ks[0], ks[j]);
          }
        }
      } else {
        BeforeTotal(k, ks[0]);
        InsertSorted(k, ks[1..]);
        forall x | x in Insert(k, ks[1..]) ensures Before(ks[0], x) {}
      }
    }
  }

  lemma {:induction false} SortSorted(ks: seq<string>)
    requires Unique(ks)
    ensures Sorted(Sort(ks))
  {
    if ks != [] {
      SortSorted(ks[1..]);
      InsertSorted(ks[0], Sort(ks[1..]));
    }
  }

  /** A sorted list is determined by its members. */
  lemma {:induction false} SortedDetermined(ks: seq<string>, ls: seq<string>)
    requires Sorted(ks) && Sorted(ls) && forall x :: x in ks <==> x in ls
    ensures ks == ls
  {
    if ks == [] {
      SomeMember(ls);
    } else {
      assert ks[0] in ls && ls != [] && ls[0] in ks;
      SameFirst(ks, ls);
      forall x ensures x in ks[1..] <==> x in ls[1..] {
        BeforeIrreflexive(ks[0]);
        assert x in ks <==> x == ks[0] || x in ks[1..];
        assert x in ls <==> x == ls[0] || x in ls[1..];
        assert ks[0] !in ks[1..] && ls[0] !in ls[1..];
      }
      SortedDetermined(ks[1..], ls[1..]);
      assert ks == [ks[0]] + ks[1..] && ls == [ls[0]] + ls[1..];
    }
  }

  lemma SomeMember(ls: seq<string>)
    ensures ls == [] || exists x :: x in ls
  {
    if ls != [] {
      assert ls[0] in ls;
    }
  }

  lemma SameFirst(ks: seq<string>, ls: seq<string>)
    requires Sorted(ks) && Sorted(ls) && ks != [] && ls != [] && ks[0] in ls && ls[0] in ks
    ensures ks[0] == ls[0]
  {
    if ks[0] != ls[0] {
      var i :| 0 <= i < |ls| && ls[i] == ks[0];
      var j :| 0 <= j < |ks| && ks[j] == ls[0];
      assert Before(ls[0], ks[0]) && Before(ks[0], ls[0]);
      BeforeTransitive(ls[0], ks[0], ls[0]);
      BeforeIrreflexive(ls[0]);
    }
  }

  /** Sorting forgets the order the keys came in, and nothing else. */
  lemma SortForgetsOrder(ks: seq<string>, ls: seq<string>)
    requires Unique(ks) && Unique(ls)
    ensures Sort(ks) == Sort(ls) <==> (forall x :: x in ks <==> x in ls)
  {
    SortSorted(ks);
    SortSorted(ls);
    if forall x :: x in ks <==> x in ls {
      SortedDetermined(Sort(ks), Sort(ls));
    } else {
      assert Sort(ks) == Sort(ls) ==> forall x :: x in Sort(ks) <==> x in Sort(ls);
    }
  }

  /** `s.contains(t)`. */
  predicate Contains(s: string, t: string)
  {
    t <= s || (s != [] && Contains(s[1..], t))
  }

  /** `t` stands in `s` from the `k`-th character on. */
  predicate OccursAt(s: string, t: string, k: nat)
  {
    k + |t| <= |s| && s[k..k + |t|] == t
  }

  lemma {:induction false} ContainsExactly(s: string, t: string)
    ensures Contains(s, t) <==> exists k: nat :: OccursAt(s, t, k)
  {
    AtTheFront(s, t);
    if s != [] {
      ContainsExactly(s[1..], t);
      if k: nat :| OccursAt(s[1..], t, k) {
        OneFurther(s, t, k);
      }
      if k: nat :| OccursAt(s, t, k) && k > 0 {
        OneFurther(s, t, k - 1);
      }
    }
  }

  lemma AtTheFront(s: string, t: string)
    ensures t <= s <==> OccursAt(s, t, 0)
  {
  }

  lemma OneFurther(s: string, t: string, k: nat)
    requires s != []
    ensures OccursAt(s[1..], t, k) <==> OccursAt(s, t, k + 1)
  {
    if k + 1 + |t| <= |s| {
      assert s[1..][k..k + |t|] == s[k + 1..k + 1 + |t|];
    }
  }
}
