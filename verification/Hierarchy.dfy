/** The tree of control groups of one hierarchy and the stackless walks over it.

    A cgroup is named by its serial number.  Serial numbers are handed out in
    creation order, so a parent's number is smaller than its children's, and a
    children list, to which creation always appends, is strictly ascending.
    The top cgroup has serial number 0. */
module Hierarchy {
  import opened Lists
  import opened Options

  const TOP: nat := 0

  datatype Hier = Hier(next: nat, parent: map<nat, nat>, kids: map<nat, seq<nat>>)

  ghost predicate Ascending(s: seq<nat>) {
    forall i, j :: 0 <= i < j < |s| ==> s[i] < s[j]
  }

  ghost predicate Valid(h: Hier) {
    && TOP in h.kids
    && h.parent.Keys == h.kids.Keys - {TOP}
    && (forall n :: n in h.kids ==> n < h.next)
    && (forall c {:trigger h.parent[c]} ::
          c in h.parent ==> h.parent[c] in h.kids && h.parent[c] < c && c in h.kids[h.parent[c]])
    && (forall p {:trigger h.kids[p]} :: p in h.kids ==> Ascending(h.kids[p]))
    && (forall p, i {:trigger h.kids[p][i]} :: p in h.kids && 0 <= i < |h.kids[p]| ==>
          h.kids[p][i] in h.parent && h.parent[h.kids[p][i]] == p)
  }

  /** `d` is `a` or lies below it. */
  ghost predicate IsDescendant(h: Hier, d: nat, a: nat)
    requires Valid(h)
    decreases d
  {
    d in h.kids && (d == a || (d in h.parent && IsDescendant(h, h.parent[d], a)))
  }

  // ---------------------------------------------------------------- creation

  /** Append a new leaf under `p`; its number is `h.next`. */
  function Create(h: Hier, p: nat): Hier
    requires p in h.kids
  {
    Hier(h.next + 1, h.parent[h.next := p], h.kids[p := h.kids[p] + [h.next]][h.next := []])
  }

  lemma CreateValid(h: Hier, p: nat)
    requires Valid(h) && p in h.kids
    ensures Valid(Create(h, p)) && h.next !in h.kids
    ensures Create(h, p).kids.Keys == h.kids.Keys + {h.next}
  {
    KidsBounds(h, p);
    AppendAscending(h.kids[p], h.next);
    var r := Create(h, p);
    forall c | c in r.parent ensures r.parent[c] in r.kids && r.parent[c] < c && c in r.kids[r.parent[c]] {
      if c != h.next { assert c in h.kids[h.parent[c]]; }
    }
    forall q, i | q in r.kids && 0 <= i < |r.kids[q]|
      ensures r.kids[q][i] in r.parent && r.parent[r.kids[q][i]] == q
    {
      if q != h.next && i < |h.kids[q]| { assert h.kids[q][i] in h.parent; }
    }
  }

  lemma AppendAscending(s: seq<nat>, x: nat)
    requires Ascending(s) && forall i :: 0 <= i < |s| ==> s[i] < x
    ensures Ascending(s + [x])
  {
  }

  lemma KidsBounds(h: Hier, p: nat)
    requires Valid(h) && p in h.kids
    ensures forall i :: 0 <= i < |h.kids[p]| ==> h.kids[p][i] in h.kids && p < h.kids[p][i] < h.next
  {
  }

  /** Creating a leaf leaves every older descent as it was. */
  lemma CreateKeepsDescent(h: Hier, p: nat, d: nat, a: nat)
    requires Valid(h) && p in h.kids && d in h.kids
    ensures Valid(Create(h, p)) && IsDescendant(Create(h, p), d, a) == IsDescendant(h, d, a)
    decreases d
  {
    CreateValid(h, p);
    if d in h.parent { CreateKeepsDescent(h, p, h.parent[d], a); }
  }

  function IndexOf(s: seq<nat>, c: nat): (i: nat)
    requires c in s
    ensures i < |s| && s[i] == c
  {
    if s[0] == c then 0 else 1 + IndexOf(s[1..], c)
  }

  // ---------------------------------------------------------------- css_next_child

  /** `r` is the first child after `pos` in serial order, if there is one. */
  ghost predicate IsNextChild(kids: seq<nat>, pos: Option<nat>, r: Option<nat>) {
    match r
    case None => forall c :: c in kids ==> pos.Some? && c <= pos.value
    case Some(n) =>
      && n in kids
      && (pos.Some? ==> pos.value < n)
      && (forall c :: c in kids && c < n ==> pos.Some? && c <= pos.value)
  }

  /** A live position is followed by its list successor; a dead one is looked up
      by serial number from the head of the list.  Both give the same answer. */
  method NextChild(kids: seq<nat>, dead: set<nat>, pos: Option<nat>) returns (r: Option<nat>)
    requires Ascending(kids)
    requires pos.Some? && pos.value !in dead ==> pos.value in kids
    ensures IsNextChild(kids, pos, r)
  {
    if pos.None? {
      return if |kids| == 0 then None else Some(kids[0]);
    } else if pos.value !in dead {
      var i := IndexOf(kids, pos.value);
      return if i + 1 < |kids| then Some(kids[i + 1]) else None;
    }
    var i := 0;
    while i < |kids| && kids[i] <= pos.value
      invariant 0 <= i <= |kids|
      invariant forall k :: 0 <= k < i ==> kids[k] <= pos.value
    {
      i := i + 1;
    }
    return if i < |kids| then Some(kids[i]) else None;
  }

  // ---------------------------------------------------------------- recursive listings

  /** Pre-order listing of the subtree at `n`. */
  ghost function Pre(h: Hier, n: nat): seq<nat>
    requires Valid(h) && n in h.kids
    decreases h.next - n, 1, 0
  {
    [n] + PreKids(h, n, 0)
  }

  /** Pre-order listing of the subtrees of `p`'s children from position `i` on. */
  ghost function PreKids(h: Hier, p: nat, i: nat): seq<nat>
    requires Valid(h) && p in h.kids && i <= |h.kids[p]|
    decreases h.next - p, 0, |h.kids[p]| - i
  {
    if i == |h.kids[p]| then [] else
      assert h.kids[p][i] in h.parent;
      Pre(h, h.kids[p][i]) + PreKids(h, p, i + 1)
  }

  /** Post-order listing of the subtree at `n`. */
  ghost function Post(h: Hier, n: nat): seq<nat>
    requires Valid(h) && n in h.kids
    decreases h.next - n, 1, 0
  {
    PostKids(h, n, 0) + [n]
  }

  ghost function PostKids(h: Hier, p: nat, i: nat): seq<nat>
    requires Valid(h) && p in h.kids && i <= |h.kids[p]|
    decreases h.next - p, 0, |h.kids[p]| - i
  {
    if i == |h.kids[p]| then [] else
      assert h.kids[p][i] in h.parent;
      Post(h, h.kids[p][i]) + PostKids(h, p, i + 1)
  }

  /** What a pre-order walk of `root` still has to list once `pos`'s whole subtree is done. */
  ghost function AfterSubtree(h: Hier, pos: nat, root: nat): seq<nat>
    requires Valid(h) && IsDescendant(h, pos, root)
    decreases pos
  {
    if pos == root then [] else
      var p := h.parent[pos];
      PreKids(h, p, IndexOf(h.kids[p], pos) + 1) + AfterSubtree(h, p, root)
  }

  /** What a pre-order walk of `root` still has to list after visiting `pos`. */
  ghost function PreRest(h: Hier, pos: nat, root: nat): seq<nat>
    requires Valid(h) && IsDescendant(h, pos, root)
  {
    PreKids(h, pos, 0) + AfterSubtree(h, pos, root)
  }

  /** What a post-order walk of `root` still has to list after visiting `pos`. */
  ghost function PostRest(h: Hier, pos: nat, root: nat): seq<nat>
    requires Valid(h) && IsDescendant(h, pos, root)
    decreases pos
  {
    if pos == root then [] else
      var p := h.parent[pos];
      PostKids(h, p, IndexOf(h.kids[p], pos) + 1) + ([p] + PostRest(h, p, root))
  }

  /** What a walk positioned at `pos` still lists, `pos` included. */
  ghost function PreFrom(h: Hier, pos: Option<nat>, root: nat): seq<nat>
    requires Valid(h) && (pos.Some? ==> IsDescendant(h, pos.value, root))
  {
    if pos.Some? then [pos.value] + PreRest(h, pos.value, root) else []
  }

  ghost function PostFrom(h: Hier, pos: Option<nat>, root: nat): seq<nat>
    requires Valid(h) && (pos.Some? ==> IsDescendant(h, pos.value, root))
  {
    if pos.Some? then [pos.value] + PostRest(h, pos.value, root) else []
  }

  // ---------------------------------------------------------------- what the listings contain

  ghost predicate InKidsFrom(h: Hier, d: nat, p: nat, i: nat)
    requires Valid(h) && p in h.kids && i <= |h.kids[p]|
  {
    exists k :: i <= k < |h.kids[p]| && IsDescendant(h, d, h.kids[p][k])
  }

  lemma DescendantNotSmaller(h: Hier, d: nat, a: nat)
    requires Valid(h) && IsDescendant(h, d, a)
    ensures a <= d && a in h.kids
    decreases d
  {
  }

  /** Two ancestors of one node are comparable. */
  lemma AncestorsOrdered(h: Hier, d: nat, a: nat, b: nat)
    requires Valid(h) && IsDescendant(h, d, a) && IsDescendant(h, d, b)
    ensures IsDescendant(h, a, b) || IsDescendant(h, b, a)
    decreases d
  {
  }

  lemma DescendantTransitive(h: Hier, d: nat, m: nat, a: nat)
    requires Valid(h) && IsDescendant(h, d, m) && IsDescendant(h, m, a)
    ensures IsDescendant(h, d, a)
    decreases d
  {
  }

  lemma TopIsAncestor(h: Hier, d: nat)
    requires Valid(h) && d in h.kids
    ensures IsDescendant(h, d, TOP)
    decreases d
  {
  }

  /** A proper descendant lies below exactly one child. */
  lemma DescendantViaChild(h: Hier, d: nat, p: nat) returns (k: nat)
    requires Valid(h) && IsDescendant(h, d, p) && d != p
    ensures p in h.kids && k < |h.kids[p]| && IsDescendant(h, d, h.kids[p][k])
    decreases d
  {
    var q := h.parent[d];
    if q == p {
      k := IndexOf(h.kids[p], d);
    } else {
      k := DescendantViaChild(h, q, p);
    }
  }

  lemma SiblingSubtreesDisjoint(h: Hier, d: nat, p: nat, i: nat, j: nat)
    requires Valid(h) && p in h.kids && i < |h.kids[p]| && j < |h.kids[p]|
    requires IsDescendant(h, d, h.kids[p][i]) && IsDescendant(h, d, h.kids[p][j])
    ensures i == j
  {
    var a, b := h.kids[p][i], h.kids[p][j];
    AncestorsOrdered(h, d, a, b);
    var (lo, hi) := if IsDescendant(h, a, b) then (b, a) else (a, b);
    if hi != lo {
      assert h.parent[hi] == p && h.parent[lo] == p;
      DescendantNotSmaller(h, p, lo);
      assert false;
    }
  }


  lemma PreContents(h: Hier, n: nat, d: nat)
    requires Valid(h) && n in h.kids
    ensures d in Pre(h, n) <==> IsDescendant(h, d, n)
    decreases h.next - n, 1, 0
  {
    PreKidsContents(h, n, 0, d);
    if IsDescendant(h, d, n) && d != n {
      var k := DescendantViaChild(h, d, n);
    }
    if InKidsFrom(h, d, n, 0) {
      var k :| 0 <= k < |h.kids[n]| && IsDescendant(h, d, h.kids[n][k]);
      assert h.kids[n][k] in h.parent;
      assert IsDescendant(h, h.kids[n][k], n);
      DescendantTransitive(h, d, h.kids[n][k], n);
    }
  }

  lemma PreKidsContents(h: Hier, p: nat, i: nat, d: nat)
    requires Valid(h) && p in h.kids && i <= |h.kids[p]|
    ensures d in PreKids(h, p, i) <==> InKidsFrom(h, d, p, i)
    decreases h.next - p, 0, |h.kids[p]| - i
  {
    if i < |h.kids[p]| {
      assert h.kids[p][i] in h.parent;
      PreContents(h, h.kids[p][i], d);
      PreKidsContents(h, p, i + 1, d);
    }
  }

  /** The pre-order listing holds every node of the subtree once. */
  lemma PreDistinct(h: Hier, n: nat)
    requires Valid(h) && n in h.kids
    ensures Distinct(Pre(h, n))
    decreases h.next - n, 1, 0
  {
    PreKidsDistinct(h, n, 0);
    PreKidsContents(h, n, 0, n);
    if n in PreKids(h, n, 0) {
      var k :| 0 <= k < |h.kids[n]| && IsDescendant(h, n, h.kids[n][k]);
      assert h.kids[n][k] in h.parent;
      DescendantNotSmaller(h, n, h.kids[n][k]);
    }
    ConcatDistinct([n], PreKids(h, n, 0));
  }

  lemma PreKidsDistinct(h: Hier, p: nat, i: nat)
    requires Valid(h) && p in h.kids && i <= |h.kids[p]|
    ensures Distinct(PreKids(h, p, i))
    decreases h.next - p, 0, |h.kids[p]| - i
  {
    if i < |h.kids[p]| {
      var c := h.kids[p][i];
      assert c in h.parent;
      PreDistinct(h, c);
      PreKidsDistinct(h, p, i + 1);
      forall x | x in Pre(h, c) ensures x !in PreKids(h, p, i + 1) {
        PreContents(h, c, x);
        PreKidsContents(h, p, i + 1, x);
        if InKidsFrom(h, x, p, i + 1) {
          var k :| i + 1 <= k < |h.kids[p]| && IsDescendant(h, x, h.kids[p][k]);
          SiblingSubtreesDisjoint(h, x, p, i, k);
        }
      }
      ConcatDistinct(Pre(h, c), PreKids(h, p, i + 1));
    }
  }

  /** The post-order listing holds the same nodes. */
  lemma PostIsPermutation(h: Hier, n: nat)
    requires Valid(h) && n in h.kids
    ensures multiset(Post(h, n)) == multiset(Pre(h, n))
    decreases h.next - n, 1, 0
  {
    PostKidsIsPermutation(h, n, 0);
  }

  lemma PostKidsIsPermutation(h: Hier, p: nat, i: nat)
    requires Valid(h) && p in h.kids && i <= |h.kids[p]|
    ensures multiset(PostKids(h, p, i)) == multiset(PreKids(h, p, i))
    decreases h.next - p, 0, |h.kids[p]| - i
  {
    if i < |h.kids[p]| {
      assert h.kids[p][i] in h.parent;
      PostIsPermutation(h, h.kids[p][i]);
      PostKidsIsPermutation(h, p, i + 1);
    }
  }

  lemma PostDistinct(h: Hier, n: nat)
    requires Valid(h) && n in h.kids
    ensures Distinct(Post(h, n))
  {
    PreDistinct(h, n);
    PostIsPermutation(h, n);
    DistinctByCount(Pre(h, n), Post(h, n));
  }

  lemma DistinctByCount(a: seq<nat>, b: seq<nat>)
    requires Distinct(a) && multiset(a) == multiset(b)
    ensures Distinct(b)
  {
    forall i, j | 0 <= i < j < |b| ensures b[i] != b[j] {
      CountOnce(a, b[i]);
      assert b == b[..i] + [b[i]] + b[i + 1..j] + [b[j]] + b[j + 1..];
    }
  }

  lemma CountOnce(a: seq<nat>, x: nat)
    requires Distinct(a)
    ensures multiset(a)[x] <= 1
  {
    if |a| > 0 {
      CountOnce(a[1..], x);
      assert a == [a[0]] + a[1..];
      if a[0] == x { assert x !in a[1..]; }
    }
  }

  /** In post-order the children come before their parent. */
  lemma PostChildrenFirst(h: Hier, n: nat, j: nat)
    requires Valid(h) && n in h.kids && j < |Post(h, n)|
    ensures Post(h, n)[j] in h.kids && forall c :: c in h.kids[Post(h, n)[j]] ==> c in Post(h, n)[..j]
    decreases h.next - n, 1, 0
  {
    var all, below := Post(h, n), PostKids(h, n, 0);
    if j < |below| {
      PostKidsChildrenFirst(h, n, 0, j);
      assert all[..j] == below[..j];
    } else {
      assert all[..j] == below;
      forall c | c in h.kids[n] ensures c in below {
        PostKidsIsPermutation(h, n, 0);
        PreKidsContents(h, n, 0, c);
        assert IsDescendant(h, c, h.kids[n][IndexOf(h.kids[n], c)]);
        assert c in multiset(below);
      }
    }
  }

  lemma PostKidsChildrenFirst(h: Hier, p: nat, i: nat, j: nat)
    requires Valid(h) && p in h.kids && i <= |h.kids[p]| && j < |PostKids(h, p, i)|
    ensures var x := PostKids(h, p, i)[j];
            x in h.kids && forall c :: c in h.kids[x] ==> c in PostKids(h, p, i)[..j]
    decreases h.next - p, 0, |h.kids[p]| - i
  {
    assert h.kids[p][i] in h.parent;
    var a, b, all := Post(h, h.kids[p][i]), PostKids(h, p, i + 1), PostKids(h, p, i);
    assert all == a + b;
    if j < |a| {
      PostChildrenFirst(h, h.kids[p][i], j);
      assert all[..j] == a[..j];
    } else {
      PostKidsChildrenFirst(h, p, i + 1, j - |a|);
      assert all[..j] == a + b[..j - |a|];
    }
  }

  /** In pre-order a parent comes before its children. */
  lemma PreParentFirst(h: Hier, n: nat, j: nat)
    requires Valid(h) && n in h.kids && 0 < j < |Pre(h, n)|
    ensures Pre(h, n)[j] in h.parent && h.parent[Pre(h, n)[j]] in Pre(h, n)[..j]
    decreases h.next - n, 1, 0
  {
    PreKidsParentFirst(h, n, 0, j - 1);
    var q := h.parent[Pre(h, n)[j]];
    if q != n {
      var k :| 0 <= k < j - 1 && PreKids(h, n, 0)[k] == q;
      assert Pre(h, n)[..j][k + 1] == q;
    } else {
      assert Pre(h, n)[..j][0] == n;
    }
  }

  lemma PreKidsParentFirst(h: Hier, p: nat, i: nat, j: nat)
    requires Valid(h) && p in h.kids && i <= |h.kids[p]| && j < |PreKids(h, p, i)|
    ensures var x := PreKids(h, p, i)[j];
            x in h.parent && (h.parent[x] == p || h.parent[x] in PreKids(h, p, i)[..j])
    decreases h.next - p, 0, |h.kids[p]| - i
  {
    var c := h.kids[p][i];
    assert c in h.parent;
    var a, b, all := Pre(h, c), PreKids(h, p, i + 1), PreKids(h, p, i);
    assert all == a + b;
    if 0 < j < |a| {
      PreParentFirst(h, c, j);
      assert all[..j] == a[..j];
    } else if |a| <= j {
      PreKidsParentFirst(h, p, i + 1, j - |a|);
      assert all[..j] == a + b[..j - |a|];
    }
  }

  // ---------------------------------------------------------------- the stackless steps

  lemma IndexUnique(kids: seq<nat>, i: nat)
    requires Ascending(kids) && i < |kids|
    ensures IndexOf(kids, kids[i]) == i
  {
  }

  /** The serial-number successor of a listed child is the next list element. */
  lemma NextSibling(kids: seq<nat>, pos: nat, r: Option<nat>)
    requires Ascending(kids) && pos in kids && IsNextChild(kids, Some(pos), r)
    ensures r.None? <==> IndexOf(kids, pos) + 1 == |kids|
    ensures r.Some? ==> r.value == kids[IndexOf(kids, pos) + 1] && IndexOf(kids, r.value) == IndexOf(kids, pos) + 1
  {
    var i := IndexOf(kids, pos);
    assert i + 1 < |kids| ==> kids[i + 1] in kids && kids[i] < kids[i + 1];
    if r.Some? {
      var j := IndexOf(kids, r.value);
      assert i < j;
      assert kids[i + 1] <= kids[j];
    }
  }

  lemma FirstChild(kids: seq<nat>, r: Option<nat>)
    requires Ascending(kids) && IsNextChild(kids, None, r)
    ensures r.None? <==> kids == []
    ensures r.Some? ==> r.value == kids[0] && IndexOf(kids, r.value) == 0
  {
    if kids != [] { assert kids[0] in kids; }
  }

  lemma ChildDescends(h: Hier, p: nat, i: nat, root: nat)
    requires Valid(h) && IsDescendant(h, p, root) && i < |h.kids[p]|
    ensures var c := h.kids[p][i];
            && IsDescendant(h, c, root) && p < c && c != root
            && c in h.parent && h.parent[c] == p && IndexOf(h.kids[p], c) == i
  {
    assert h.kids[p][i] in h.parent && h.parent[h.kids[p][i]] == p;
    DescendantNotSmaller(h, p, root);
    IndexUnique(h.kids[p], i);
  }

  lemma Regroup(c: nat, a: seq<nat>, b: seq<nat>, u: seq<nat>)
    ensures (([c] + a) + b) + u == [c] + (a + (b + u))
    ensures ((a + [c]) + b) + u == (a + [c]) + (b + u)
  {
  }

  /** Entering child `i` of `p` splits what is left below `p`. */
  lemma EnterChildPre(h: Hier, p: nat, i: nat, root: nat)
    requires Valid(h) && IsDescendant(h, p, root) && i < |h.kids[p]|
    ensures IsDescendant(h, h.kids[p][i], root) && p < h.kids[p][i]
    ensures PreKids(h, p, i) + AfterSubtree(h, p, root) == [h.kids[p][i]] + PreRest(h, h.kids[p][i], root)
  {
    ChildDescends(h, p, i, root);
    var c := h.kids[p][i];
    assert AfterSubtree(h, c, root) == PreKids(h, p, i + 1) + AfterSubtree(h, p, root);
    Regroup(c, PreKids(h, c, 0), PreKids(h, p, i + 1), AfterSubtree(h, p, root));
  }

  lemma EnterChildPost(h: Hier, p: nat, i: nat, root: nat)
    requires Valid(h) && IsDescendant(h, p, root) && i < |h.kids[p]|
    ensures IsDescendant(h, h.kids[p][i], root) && p < h.kids[p][i]
    ensures PostKids(h, p, i) + ([p] + PostRest(h, p, root)) == Post(h, h.kids[p][i]) + PostRest(h, h.kids[p][i], root)
  {
    ChildDescends(h, p, i, root);
    var c := h.kids[p][i];
    assert PostRest(h, c, root) == PostKids(h, p, i + 1) + ([p] + PostRest(h, p, root));
    Regroup(c, PostKids(h, c, 0), PostKids(h, p, i + 1), [p] + PostRest(h, p, root));
  }

  /** A childless node has nothing left below it. */
  lemma LeafRest(h: Hier, n: nat, root: nat)
    requires Valid(h) && IsDescendant(h, n, root) && h.kids[n] == []
    ensures PreRest(h, n, root) == AfterSubtree(h, n, root) && Post(h, n) == [n]
  {
  }

  /** Past its last sibling, a child leaves what its parent leaves. */
  lemma LastSiblingRest(h: Hier, c: nat, root: nat)
    requires Valid(h) && IsDescendant(h, c, root) && c != root
    requires IndexOf(h.kids[h.parent[c]], c) + 1 == |h.kids[h.parent[c]]|
    ensures AfterSubtree(h, c, root) == AfterSubtree(h, h.parent[c], root)
    ensures PostRest(h, c, root) == [h.parent[c]] + PostRest(h, h.parent[c], root)
  {
  }

  lemma NextSiblingRest(h: Hier, c: nat, n: nat, root: nat)
    requires Valid(h) && IsDescendant(h, c, root) && c != root
    requires var kids := h.kids[h.parent[c]];
             IndexOf(kids, c) + 1 < |kids| && n == kids[IndexOf(kids, c) + 1]
    ensures IsDescendant(h, n, root)
    ensures AfterSubtree(h, c, root) == [n] + PreRest(h, n, root)
    ensures PostRest(h, c, root) == Post(h, n) + PostRest(h, n, root)
  {
    EnterChildPre(h, h.parent[c], IndexOf(h.kids[h.parent[c]], c) + 1, root);
    EnterChildPost(h, h.parent[c], IndexOf(h.kids[h.parent[c]], c) + 1, root);
  }

  /** The loop of css_next_descendant_pre: my or the closest ancestor's next sibling. */
  method NextSiblingUpward(h: Hier, pos: nat, root: nat) returns (r: Option<nat>)
    requires Valid(h) && IsDescendant(h, pos, root)
    ensures r.Some? ==> IsDescendant(h, r.value, root)
    ensures PreFrom(h, r, root) == AfterSubtree(h, pos, root)
  {
    var cur := pos;
    while cur != root
      invariant IsDescendant(h, cur, root)
      invariant AfterSubtree(h, pos, root) == AfterSubtree(h, cur, root)
      decreases cur
    {
      var p := h.parent[cur];
      r := NextChild(h.kids[p], {}, Some(cur));
      NextSibling(h.kids[p], cur, r);
      if r.Some? {
        NextSiblingRest(h, cur, r.value, root);
        return;
      }
      LastSiblingRest(h, cur, root);
      cur := p;
    }
    r := None;
  }

  /** css_next_descendant_pre: the next node is the head of what remains. */
  method NextDescendantPre(h: Hier, pos: Option<nat>, root: nat) returns (r: Option<nat>)
    requires Valid(h) && root in h.kids
    requires pos.Some? ==> IsDescendant(h, pos.value, root)
    ensures r.Some? ==> IsDescendant(h, r.value, root)
    ensures PreFrom(h, r, root) == if pos.None? then Pre(h, root) else PreRest(h, pos.value, root)
  {
    if pos.None? {
      return Some(root);
    }
    r := NextChild(h.kids[pos.value], {}, None);
    FirstChild(h.kids[pos.value], r);
    if r.Some? {
      EnterChildPre(h, pos.value, 0, root);
      assert PreFrom(h, r, root) == PreRest(h, pos.value, root);
      return;
    }
    LeafRest(h, pos.value, root);
    r := NextSiblingUpward(h, pos.value, root);
  }

  /** The children list is singly walked to find its end. */
  method LastChild(kids: seq<nat>) returns (tail: Option<nat>)
    requires Ascending(kids)
    ensures tail == if kids == [] then None else Some(kids[|kids| - 1])
  {
    tail := None;
    var tmp := NextChild(kids, {}, None);
    FirstChild(kids, tmp);
    while tmp.Some?
      invariant tail.None? ==> (tmp.None? <==> kids == [])
      invariant tail.Some? ==> tail.value in kids
      invariant tail.Some? && tmp.None? ==> tail.value == kids[|kids| - 1]
      invariant tmp.Some? ==> tmp.value in kids
      decreases if tmp.Some? then |kids| - IndexOf(kids, tmp.value) else 0
    {
      tail := tmp;
      tmp := NextChild(kids, {}, tail);
      NextSibling(kids, tail.value, tmp);
    }
  }

  lemma RightmostStep(h: Hier, last: nat, pos: nat, root: nat)
    requires Valid(h) && IsDescendant(h, last, pos) && IsDescendant(h, last, root) && h.kids[last] != []
    ensures var c := h.kids[last][|h.kids[last]| - 1];
            && IsDescendant(h, c, pos) && IsDescendant(h, c, root) && last < c
            && AfterSubtree(h, c, root) == AfterSubtree(h, last, root)
  {
    ChildDescends(h, last, |h.kids[last]| - 1, pos);
    ChildDescends(h, last, |h.kids[last]| - 1, root);
    LastSiblingRest(h, h.kids[last][|h.kids[last]| - 1], root);
  }

  /** css_rightmost_descendant: resuming a walk of `root` from the result skips
      exactly the rest of `pos`'s subtree. */
  method RightmostDescendant(h: Hier, pos: nat, ghost root: nat) returns (last: nat)
    requires Valid(h) && IsDescendant(h, pos, root)
    ensures IsDescendant(h, last, pos) && IsDescendant(h, last, root)
    ensures PreRest(h, last, root) == AfterSubtree(h, pos, root)
  {
    last := pos;
    while true
      invariant IsDescendant(h, last, pos) && IsDescendant(h, last, root)
      invariant AfterSubtree(h, last, root) == AfterSubtree(h, pos, root)
      decreases h.next - last
    {
      var tail := LastChild(h.kids[last]);
      if tail.None? {
        LeafRest(h, last, root);
        return;
      }
      RightmostStep(h, last, pos, root);
      last := tail.value;
    }
  }

  lemma LeftmostStep(h: Hier, last: nat, root: nat)
    requires Valid(h) && IsDescendant(h, last, root) && h.kids[last] != []
    ensures var c := h.kids[last][0];
            && IsDescendant(h, c, root) && last < c
            && Post(h, last) + PostRest(h, last, root) == Post(h, c) + PostRest(h, c, root)
  {
    EnterChildPost(h, last, 0, root);
    assert Post(h, last) + PostRest(h, last, root) == PostKids(h, last, 0) + ([last] + PostRest(h, last, root));
  }

  method LeftmostDescendant(h: Hier, pos: nat, ghost root: nat) returns (last: nat)
    requires Valid(h) && IsDescendant(h, pos, root)
    ensures IsDescendant(h, last, root)
    ensures Post(h, pos) + PostRest(h, pos, root) == [last] + PostRest(h, last, root)
  {
    last := pos;
    while true
      invariant IsDescendant(h, last, root)
      invariant Post(h, pos) + PostRest(h, pos, root) == Post(h, last) + PostRest(h, last, root)
      decreases h.next - last
    {
      var c := NextChild(h.kids[last], {}, None);
      FirstChild(h.kids[last], c);
      if c.None? {
        LeafRest(h, last, root);
        return;
      }
      LeftmostStep(h, last, root);
      last := c.value;
    }
  }

  /** css_next_descendant_post. */
  method NextDescendantPost(h: Hier, pos: Option<nat>, root: nat) returns (r: Option<nat>)
    requires Valid(h) && root in h.kids
    requires pos.Some? ==> IsDescendant(h, pos.value, root)
    ensures r.Some? ==> IsDescendant(h, r.value, root)
    ensures PostFrom(h, r, root) == if pos.None? then Post(h, root) else PostRest(h, pos.value, root)
  {
    if pos.None? {
      var first := LeftmostDescendant(h, root, root);
      return Some(first);
    }
    if pos.value == root {
      return None;
    }
    var p := h.parent[pos.value];
    r := NextChild(h.kids[p], {}, pos);
    NextSibling(h.kids[p], pos.value, r);
    if r.Some? {
      NextSiblingRest(h, pos.value, r.value, root);
      var first := LeftmostDescendant(h, r.value, root);
      return Some(first);
    }
    LastSiblingRest(h, pos.value, root);
    r := Some(p);
  }

  lemma ShiftHead(all: seq<nat>, visited: seq<nat>, x: nat, rest: seq<nat>)
    requires all == visited + ([x] + rest)
    ensures all == (visited + [x]) + rest
    ensures |visited| < |all| && visited == all[..|visited|] && all[|visited|] == x
  {
  }

  // ---------------------------------------------------------------- whole walks

  /** A pre-order walk of `root` has visited `visited` and is about to visit `pos`. */
  ghost predicate PreWalk(h: Hier, root: nat, visited: seq<nat>, pos: Option<nat>) {
    && Valid(h) && root in h.kids
    && (pos.Some? ==> IsDescendant(h, pos.value, root))
    && Pre(h, root) == visited + PreFrom(h, pos, root)
  }

  ghost predicate PostWalk(h: Hier, root: nat, visited: seq<nat>, pos: Option<nat>) {
    && Valid(h) && root in h.kids
    && (pos.Some? ==> IsDescendant(h, pos.value, root))
    && Post(h, root) == visited + PostFrom(h, pos, root)
  }

  /** Each node is visited once, after its parent. */
  lemma PreWalkAt(h: Hier, root: nat, visited: seq<nat>, pos: nat)
    requires PreWalk(h, root, visited, Some(pos))
    ensures pos in h.kids && IsDescendant(h, pos, root) && pos !in visited && |visited| < |Pre(h, root)|
    ensures pos != root ==> pos in h.parent && h.parent[pos] in visited
  {
    ShiftHead(Pre(h, root), visited, pos, PreRest(h, pos, root));
    PreDistinct(h, root);
    if pos != root { PreParentFirst(h, root, |visited|); }
  }

  lemma PreWalkDone(h: Hier, root: nat, visited: seq<nat>, d: nat)
    requires PreWalk(h, root, visited, None)
    ensures d in visited <==> IsDescendant(h, d, root)
  {
    PreContents(h, root, d);
  }

  /** Each node is visited once, after its children. */
  lemma PostWalkAt(h: Hier, root: nat, visited: seq<nat>, pos: nat)
    requires PostWalk(h, root, visited, Some(pos))
    ensures pos in h.kids && IsDescendant(h, pos, root) && pos !in visited && |visited| < |Post(h, root)|
    ensures forall c :: c in h.kids[pos] ==> c in visited
  {
    ShiftHead(Post(h, root), visited, pos, PostRest(h, pos, root));
    PostDistinct(h, root);
    PostChildrenFirst(h, root, |visited|);
  }

  lemma PostWalkDone(h: Hier, root: nat, visited: seq<nat>, d: nat)
    requires PostWalk(h, root, visited, None)
    ensures d in visited <==> IsDescendant(h, d, root)
  {
    PreContents(h, root, d);
    PostIsPermutation(h, root);
    assert d in multiset(Post(h, root)) <==> d in multiset(Pre(h, root));
  }

  method PreStart(h: Hier, root: nat) returns (pos: Option<nat>)
    requires Valid(h) && root in h.kids
    ensures PreWalk(h, root, [], pos)
  {
    pos := NextDescendantPre(h, None, root);
  }

  method PreNext(h: Hier, root: nat, ghost visited: seq<nat>, pos: nat) returns (r: Option<nat>)
    requires PreWalk(h, root, visited, Some(pos))
    ensures PreWalk(h, root, visited + [pos], r)
  {
    ShiftHead(Pre(h, root), visited, pos, PreRest(h, pos, root));
    r := NextDescendantPre(h, Some(pos), root);
  }

  /** Continue from the rightmost descendant of `pos`: its whole subtree counts as visited. */
  method PreSkip(h: Hier, root: nat, ghost visited: seq<nat>, pos: nat) returns (r: Option<nat>)
    requires PreWalk(h, root, visited, Some(pos))
    ensures pos in h.kids && PreWalk(h, root, visited + Pre(h, pos), r)
  {
    SkipSplit(h, root, visited, pos);
    var last := RightmostDescendant(h, pos, root);
    r := NextDescendantPre(h, Some(last), root);
  }

  lemma SkipSplit(h: Hier, root: nat, visited: seq<nat>, pos: nat)
    requires PreWalk(h, root, visited, Some(pos))
    ensures Pre(h, root) == (visited + Pre(h, pos)) + AfterSubtree(h, pos, root)
  {
    var kids, rest := PreKids(h, pos, 0), AfterSubtree(h, pos, root);
    assert Pre(h, pos) == [pos] + kids;
    assert Pre(h, root) == visited + ([pos] + (kids + rest));
    hide *;
    RegroupSkip(visited, pos, kids, rest);
  }

  lemma RegroupSkip(a: seq<nat>, x: nat, b: seq<nat>, c: seq<nat>)
    ensures a + ([x] + (b + c)) == (a + ([x] + b)) + c
  {
  }

  method PostStart(h: Hier, root: nat) returns (pos: Option<nat>)
    requires Valid(h) && root in h.kids
    ensures PostWalk(h, root, [], pos)
  {
    pos := NextDescendantPost(h, None, root);
  }

  method PostNext(h: Hier, root: nat, ghost visited: seq<nat>, pos: nat) returns (r: Option<nat>)
    requires PostWalk(h, root, visited, Some(pos))
    ensures PostWalk(h, root, visited + [pos], r)
  {
    ShiftHead(Post(h, root), visited, pos, PostRest(h, pos, root));
    r := NextDescendantPost(h, Some(pos), root);
  }

  /** css_for_each_descendant_pre from NULL visits the recursive listing. */
  method WalkPre(h: Hier, root: nat) returns (visited: seq<nat>)
    requires Valid(h) && root in h.kids
    ensures visited == Pre(h, root)
    ensures Distinct(visited) && forall d :: d in visited <==> IsDescendant(h, d, root)
  {
    var pos := PreStart(h, root);
    visited := [];
    while pos.Some?
      invariant PreWalk(h, root, visited, pos)
      decreases |Pre(h, root)| - |visited|, pos.Some?
    {
      PreWalkAt(h, root, visited, pos.value);
      var x := pos.value;
      pos := PreNext(h, root, visited, x);
      visited := visited + [x];
    }
    PreDistinct(h, root);
    forall d ensures d in visited <==> IsDescendant(h, d, root) { PreContents(h, root, d); }
  }

  /** css_for_each_descendant_post from NULL visits the recursive listing. */
  method WalkPost(h: Hier, root: nat) returns (visited: seq<nat>)
    requires Valid(h) && root in h.kids
    ensures visited == Post(h, root)
    ensures Distinct(visited) && forall d :: d in visited <==> IsDescendant(h, d, root)
  {
    var pos := PostStart(h, root);
    visited := [];
    while pos.Some?
      invariant PostWalk(h, root, visited, pos)
      decreases |Post(h, root)| - |visited|, pos.Some?
    {
      PostWalkAt(h, root, visited, pos.value);
      var x := pos.value;
      pos := PostNext(h, root, visited, x);
      visited := visited + [x];
    }
    PostDistinct(h, root);
    forall d ensures d in visited <==> IsDescendant(h, d, root) { PostWalkDone(h, root, visited, d); }
  }
}
