/** Lists without repetition, and taking an entry off a list. */
module Lists {

  ghost predicate Distinct<T>(s: seq<T>) {
    forall i, j :: 0 <= i < j < |s| ==> s[i] != s[j]
  }

  lemma ConcatDistinct<T>(a: seq<T>, b: seq<T>)
    requires Distinct(a) && Distinct(b) && forall x :: x in a ==> x !in b
    ensures Distinct(a + b)
  {
    assert forall i :: 0 <= i < |a| ==> (a + b)[i] in a;
    assert forall i :: |a| <= i < |a + b| ==> (a + b)[i] in b;
  }

  /** list_del: the list without its entry `x`. */
  function Without<T(==, !new)>(l: seq<T>, x: T): (r: seq<T>)
    ensures forall y :: y in r <==> y in l && y != x
  {
    if l == [] then [] else (if l[0] == x then [] else [l[0]]) + Without(l[1..], x)
  }

  lemma {:induction false} WithoutDistinct<T(!new)>(l: seq<T>, x: T)
    requires Distinct(l)
    ensures Distinct(Without(l, x)) && |Without(l, x)| == |l| - if x in l then 1 else 0
  {
    if l != [] {
      WithoutDistinct(l[1..], x);
      assert forall y :: y in l[1..] ==> y != l[0];
      if l[0] != x { ConcatDistinct([l[0]], Without(l[1..], x)); }
    }
  }

  ghost predicate Ordered<T>(l: seq<T>, before: (T, T) -> bool) {
    forall i, j :: 0 <= i < j < |l| ==> before(l[i], l[j])
  }

  /** Any order the entries have they keep when one is taken off. */
  lemma {:induction false} WithoutOrdered<T(!new)>(l: seq<T>, x: T, before: (T, T) -> bool)
    requires Ordered(l, before)
    ensures Ordered(Without(l, x), before)
  {
    if l != [] {
      var r := Without(l[1..], x);
      WithoutOrdered(l[1..], x, before);
      forall j | 0 <= j < |r| ensures before(l[0], r[j]) {
        assert r[j] in l[1..];
      }
      assert Without(l, x) == if l[0] == x then r else [l[0]] + r;
    }
  }
}
