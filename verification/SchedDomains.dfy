/** The partition search of generate_sched_domains: from the CPU masks of the
    load-balanced cpusets to scheduler domains. */
module SchedDomains {
  import opened SetFacts

  type Mask = set<nat>

  predicate Overlap(a: Mask, b: Mask) {
    a * b != {}
  }

  // ---------------------------------------------------------------- the overlap graph

  ghost predicate IsPath(m: seq<Mask>, p: seq<nat>) {
    && |p| > 0
    && (forall k :: 0 <= k < |p| ==> p[k] < |m|)
    && (forall k :: 0 <= k < |p| - 1 ==> Overlap(m[p[k]], m[p[k + 1]]))
  }

  /** A chain of pairwise overlapping masks leads from `i` to `j`. */
  ghost predicate Connected(m: seq<Mask>, i: nat, j: nat) {
    exists p :: IsPath(m, p) && p[0] == i && p[|p| - 1] == j
  }

  lemma ConnectedRefl(m: seq<Mask>, i: nat)
    requires i < |m|
    ensures Connected(m, i, i)
  {
    assert IsPath(m, [i]);
  }

  lemma ConnectedEdge(m: seq<Mask>, i: nat, j: nat)
    requires i < |m| && j < |m| && Overlap(m[i], m[j])
    ensures Connected(m, i, j)
  {
    assert IsPath(m, [i, j]);
  }

  lemma ConnectedTrans(m: seq<Mask>, i: nat, j: nat, k: nat)
    requires Connected(m, i, j) && Connected(m, j, k)
    ensures Connected(m, i, k)
  {
    var p :| IsPath(m, p) && p[0] == i && p[|p| - 1] == j;
    var q :| IsPath(m, q) && q[0] == j && q[|q| - 1] == k;
    var r := p + q[1..];
    assert IsPath(m, r) by {
      forall x | 0 <= x < |r| - 1 ensures Overlap(m[r[x]], m[r[x + 1]]) {
        if |p| - 1 <= x { assert r[x] == q[x - |p| + 1] && r[x + 1] == q[x - |p| + 2]; }
      }
    }
    assert r[|r| - 1] == k;
  }

  lemma ConnectedSym(m: seq<Mask>, i: nat, j: nat)
    requires Connected(m, i, j)
    ensures Connected(m, j, i)
  {
    var p :| IsPath(m, p) && p[0] == i && p[|p| - 1] == j;
    var r := seq(|p|, k requires 0 <= k < |p| => p[|p| - 1 - k]);
    assert IsPath(m, r) by {
      forall x | 0 <= x < |r| - 1 ensures Overlap(m[r[x]], m[r[x + 1]]) {
        assert Overlap(m[p[|p| - 2 - x]], m[p[|p| - 1 - x]]);
      }
    }
  }

  // ---------------------------------------------------------------- partition numbers

  ghost function Labels(pn: seq<int>): set<int> {
    set i | 0 <= i < |pn| :: pn[i]
  }

  ghost function Relabelled(pn: seq<int>, from: int, to: int): seq<int> {
    seq(|pn|, i requires 0 <= i < |pn| => if pn[i] == from then to else pn[i])
  }

  /** Equal numbers are only ever given to connected cpusets. */
  ghost predicate Sound(m: seq<Mask>, pn: seq<int>) {
    && |pn| == |m|
    && (forall i :: 0 <= i < |pn| ==> 0 <= pn[i])
    && (forall i, j :: 0 <= i < |pn| && 0 <= j < |pn| && pn[i] == pn[j] ==> Connected(m, i, j))
  }

  /** No overlapping pair is left apart. */
  ghost predicate Settled(m: seq<Mask>, pn: seq<int>) {
    && |pn| == |m|
    && forall i, j :: 0 <= i < |pn| && 0 <= j < |pn| && Overlap(m[i], m[j]) ==> pn[i] == pn[j]
  }

  lemma IdentityLabels(n: nat)
    ensures |Labels(seq(n, i => i))| == n
  {
    if n > 0 {
      IdentityLabels(n - 1);
      var small, big := seq(n - 1, i => i), seq(n, i => i);
      assert Labels(big) == Labels(small) + {n - 1} by {
        forall x ensures x in Labels(big) <==> x in Labels(small) || x == n - 1 {
          if x in Labels(small) { assert big[x] == x; }
          if x == n - 1 { assert big[x] == x; }
          if x in Labels(big) && x != n - 1 { assert small[x] == x; }
        }
      }
    }
  }

  lemma RelabelLabels(pn: seq<int>, i: nat, j: nat)
    requires i < |pn| && j < |pn| && pn[i] != pn[j]
    ensures Labels(Relabelled(pn, pn[j], pn[i])) == Labels(pn) - {pn[j]}
    ensures |Labels(Relabelled(pn, pn[j], pn[i]))| == |Labels(pn)| - 1
  {
    var r := Relabelled(pn, pn[j], pn[i]);
    forall x ensures x in Labels(r) <==> x in Labels(pn) - {pn[j]} {
      if x in Labels(pn) - {pn[j]} {
        var k :| 0 <= k < |pn| && pn[k] == x;
        assert r[k] == x;
      }
      if x in Labels(r) {
        var k :| 0 <= k < |r| && r[k] == x;
        assert pn[if pn[k] == pn[j] then i else k] == x;
      }
    }
    assert pn[j] in Labels(pn);
  }

  lemma RelabelSound(m: seq<Mask>, pn: seq<int>, i: nat, j: nat)
    requires Sound(m, pn) && i < |m| && j < |m| && Overlap(m[i], m[j])
    ensures Sound(m, Relabelled(pn, pn[j], pn[i]))
  {
    var r := Relabelled(pn, pn[j], pn[i]);
    forall x, y | 0 <= x < |r| && 0 <= y < |r| && r[x] == r[y]
      ensures Connected(m, x, y)
    {
      if pn[x] != pn[y] {
        ConnectedEdge(m, i, j);
        ConnectedSym(m, i, j);
        if pn[x] == pn[j] {
          ConnectedTrans(m, x, j, i);
          ConnectedTrans(m, x, i, y);
        } else {
          ConnectedTrans(m, x, i, j);
          ConnectedTrans(m, x, j, y);
        }
      }
    }
  }

  /** Settled numbers agree along every chain. */
  lemma {:induction false} SettledPath(m: seq<Mask>, pn: seq<int>, p: seq<nat>)
    requires Settled(m, pn) && IsPath(m, p)
    ensures pn[p[0]] == pn[p[|p| - 1]]
  {
    if |p| > 1 {
      assert Overlap(m[p[0]], m[p[1]]);
      assert IsPath(m, p[1..]) by {
        forall k | 0 <= k < |p[1..]| - 1 ensures Overlap(m[p[1..][k]], m[p[1..][k + 1]]) {
          assert Overlap(m[p[k + 1]], m[p[k + 2]]);
        }
      }
      SettledPath(m, pn, p[1..]);
    }
  }

  /** The inner loop: every cpuset numbered `from` is renumbered `to`. */
  method Renumber(pn: array<int>, from: int, to: int)
    modifies pn
    ensures pn[..] == Relabelled(old(pn[..]), from, to)
  {
    var k := 0;
    while k < pn.Length
      invariant 0 <= k <= pn.Length
      invariant forall i :: 0 <= i < k ==> pn[i] == if old(pn[i]) == from then to else old(pn[i])
      invariant forall i :: k <= i < pn.Length ==> pn[i] == old(pn[i])
    {
      if pn[k] == from { pn[k] := to; }
      k := k + 1;
    }
  }

  /** Overlapping cpusets with different numbers. */
  ghost predicate Clash(m: seq<Mask>, pn: seq<int>, i: int, j: int) {
    0 <= i < |m| == |pn| && 0 <= j < |m| && pn[i] != pn[j] && Overlap(m[i], m[j])
  }

  /** The first such pair in the order of the two nested loops. */
  ghost predicate FirstClash(m: seq<Mask>, pn: seq<int>, i: int, j: int) {
    Clash(m, pn, i, j) && forall x, y :: Clash(m, pn, x, y) ==> i < x || (i == x && j <= y)
  }

  /** One pass from the `restart` label: merge the first overlapping pair with
      different numbers, or find that there is none. */
  method MergeFirst(m: seq<Mask>, pn: array<int>) returns (merged: bool)
    requires Sound(m, pn[..])
    modifies pn
    ensures Sound(m, pn[..])
    ensures !merged ==> pn[..] == old(pn[..]) && Settled(m, pn[..])
    ensures merged ==> |Labels(pn[..])| == |Labels(old(pn[..]))| - 1
    ensures merged ==> exists i, j :: FirstClash(m, old(pn[..]), i, j)
                                      && pn[..] == Relabelled(old(pn[..]), old(pn[..])[j], old(pn[..])[i])
  {
    var i := 0;
    while i < |m|
      invariant 0 <= i <= |m| == pn.Length
      invariant pn[..] == old(pn[..])
      invariant forall x, y :: 0 <= x < i && 0 <= y < |m| && Overlap(m[x], m[y]) ==> pn[x] == pn[y]
    {
      var j := 0;
      while j < |m|
        invariant 0 <= j <= |m|
        invariant pn[..] == old(pn[..])
        invariant forall y :: 0 <= y < j && Overlap(m[i], m[y]) ==> pn[i] == pn[y]
      {
        if pn[i] != pn[j] && Overlap(m[i], m[j]) {
          RelabelSound(m, pn[..], i, j);
          RelabelLabels(pn[..], i, j);
          assert FirstClash(m, pn[..], i, j);
          Renumber(pn, pn[j], pn[i]);
          return true;
        }
        j := j + 1;
      }
      i := i + 1;
    }
    return false;
  }

  /** The restart loop ends because each round removes one partition number. */
  method NumberPartitions(m: seq<Mask>) returns (pn: array<int>, ndoms: nat)
    ensures fresh(pn)
    ensures Sound(m, pn[..]) && Settled(m, pn[..])
    ensures ndoms == |Labels(pn[..])|
  {
    pn := new int[|m|](i => i);
    ndoms := |m|;
    IdentityLabels(|m|);
    assert pn[..] == seq(|m|, i => i);
    forall i | 0 <= i < |m| ensures Connected(m, i, i) { ConnectedRefl(m, i); }
    var merged := true;
    while merged
      invariant fresh(pn)
      invariant Sound(m, pn[..])
      invariant ndoms == |Labels(pn[..])|
      invariant !merged ==> Settled(m, pn[..])
      decreases ndoms, merged
    {
      merged := MergeFirst(m, pn);
      if merged { ndoms := ndoms - 1; }
    }
  }

  // ---------------------------------------------------------------- populating the domains

  /** Union of the masks numbered `a` among those at positions below `n`. */
  ghost function UnionOf(m: seq<Mask>, pn: seq<int>, a: int, n: nat): Mask
    requires |pn| == |m| && n <= |m|
  {
    if n == 0 then {} else UnionOf(m, pn, a, n - 1) + if pn[n - 1] == a then m[n - 1] else {}
  }

  lemma UnionMembers(m: seq<Mask>, pn: seq<int>, a: int, n: nat, c: nat)
    requires |pn| == |m| && n <= |m|
    ensures c in UnionOf(m, pn, a, n) <==> exists i :: 0 <= i < n && pn[i] == a && c in m[i]
  {
  }

  /** `seen` lists distinct numbers in use. */
  ghost predicate Listing(seen: seq<int>, pn: seq<int>) {
    && (forall i, j :: 0 <= i < j < |seen| ==> seen[i] != seen[j])
    && (forall i :: 0 <= i < |seen| ==> seen[i] in Labels(pn))
  }

  lemma ListingSize(seen: seq<int>, pn: seq<int>)
    requires Listing(seen, pn)
    ensures |seen| == |set x | x in seen| && (set x | x in seen) <= Labels(pn)
    ensures |seen| <= |Labels(pn)|
  {
    var elems := set x | x in seen;
    SizeOfDistinct(seen);
    SubsetSize(elems, Labels(pn));
  }

  /** The fill loop of one slot: collect every mask numbered `apn` from `i` on and
      mark those cpusets done. */
  method FillSlot(m: seq<Mask>, pn: array<int>, i: nat, ghost pn0: seq<int>) returns (dp: Mask)
    requires pn.Length == |m| == |pn0| && i < |m| && pn[i] >= 0 && pn0[i] == pn[i]
    requires forall k :: 0 <= k < |m| ==> (pn[k] == pn[i] <==> pn0[k] == pn0[i])
    requires forall k :: 0 <= k < i ==> pn0[k] != pn0[i]
    modifies pn
    ensures dp == UnionOf(m, pn0, pn0[i], |m|)
    ensures forall k :: 0 <= k < |m| ==> pn[k] == if pn0[k] == pn0[i] then -1 else old(pn[k])
  {
    var apn := pn[i];
    dp := {};
    UnionEmpty(m, pn0, apn, i);
    var j := i;
    while j < |m|
      invariant i <= j <= |m|
      invariant dp == UnionOf(m, pn0, apn, j)
      invariant forall k :: 0 <= k < j ==> pn[k] == if pn0[k] == apn then -1 else old(pn[k])
      invariant forall k :: j <= k < |m| ==> pn[k] == old(pn[k])
    {
      if apn == pn[j] {
        dp := dp + m[j];
        pn[j] := -1;
      }
      j := j + 1;
    }
  }

  lemma UnionEmpty(m: seq<Mask>, pn: seq<int>, a: int, n: nat)
    requires |pn| == |m| && n <= |m| && forall k :: 0 <= k < n ==> pn[k] != a
    ensures UnionOf(m, pn, a, n) == {}
  {
  }

  /** A new number extends the listing, and there is still a slot for it. */
  lemma ListingGrows(seen: seq<int>, pn: seq<int>, i: nat)
    requires Listing(seen, pn) && i < |pn| && pn[i] !in seen
    ensures Listing(seen + [pn[i]], pn) && |seen| < |Labels(pn)|
  {
    ListingSize(seen + [pn[i]], pn);
  }

  /** Convert the numbered cpusets into `ndoms` masks.  `confused` reports the
      branch that finds no slot left, `nslot` the count compared by BUG_ON. */
  method Populate(m: seq<Mask>, pn: array<int>, ndoms: nat)
      returns (doms: seq<Mask>, nslot: nat, confused: bool, ghost seen: seq<int>)
    requires Sound(m, pn[..]) && ndoms == |Labels(pn[..])|
    modifies pn
    ensures nslot == ndoms && !confused && |doms| == ndoms
    ensures Listing(seen, old(pn[..])) && |seen| == ndoms
    ensures forall i :: 0 <= i < |m| ==> old(pn[..])[i] in seen
    ensures forall s :: 0 <= s < ndoms ==> doms[s] == UnionOf(m, old(pn[..]), seen[s], |m|)
  {
    ghost var pn0 := pn[..];
    doms := seq(ndoms, s => {});
    nslot, confused, seen := 0, false, [];
    var i := 0;
    while i < |m|
      invariant 0 <= i <= |m| == |pn0| == pn.Length && |doms| == ndoms
      invariant pn0 == old(pn[..])
      invariant nslot == |seen| <= ndoms && !confused
      invariant Listing(seen, pn0)
      invariant forall k :: 0 <= k < i ==> pn0[k] in seen
      invariant forall k :: 0 <= k < |m| ==> pn[k] == if pn0[k] in seen then -1 else pn0[k]
      invariant forall s :: 0 <= s < nslot ==> doms[s] == UnionOf(m, pn0, seen[s], |m|)
    {
      if pn[i] >= 0 {
        ListingGrows(seen, pn0, i);
        if nslot == ndoms {
          confused := true;
        } else {
          var dp := FillSlot(m, pn, i, pn0);
          doms := doms[nslot := dp];
          seen := seen + [pn0[i]];
          nslot := nslot + 1;
        }
      }
      i := i + 1;
    }
    assert (set x | x in seen) == Labels(pn0);
    ListingSize(seen, pn0);
  }

  // ---------------------------------------------------------------- what the domains are

  /** The domains are the unions over the connected components: `slot[i]` is the
      domain of cpuset `i`. */
  ghost predicate AreComponents(m: seq<Mask>, doms: seq<Mask>, slot: seq<nat>) {
    && |slot| == |m|
    && (forall i :: 0 <= i < |m| ==> slot[i] < |doms|)
    && (forall i, j :: 0 <= i < |m| && 0 <= j < |m| ==> (slot[i] == slot[j] <==> Connected(m, i, j)))
    && (forall s :: 0 <= s < |doms| ==> s in slot)
    && (forall s, c :: 0 <= s < |doms| ==> (c in doms[s] <==> InSlot(m, slot, s, c)))
  }

  ghost predicate InSlot(m: seq<Mask>, slot: seq<nat>, s: nat, c: nat)
    requires |slot| == |m|
  {
    exists i :: 0 <= i < |m| && slot[i] == s && c in m[i]
  }

  ghost function SlotIn(seen: seq<int>, x: int): (s: nat)
    requires x in seen
    ensures s < |seen| && seen[s] == x
  {
    var s :| 0 <= s < |seen| && seen[s] == x; s
  }

  /** The domains' numbers, slots and masks, as Populate leaves them. */
  ghost predicate Populated(m: seq<Mask>, pn: seq<int>, seen: seq<int>, doms: seq<Mask>, slot: seq<nat>) {
    && Sound(m, pn) && Settled(m, pn) && Listing(seen, pn)
    && (forall i :: 0 <= i < |m| ==> pn[i] in seen)
    && |doms| == |seen| && (forall s :: 0 <= s < |doms| ==> doms[s] == UnionOf(m, pn, seen[s], |m|))
    && |slot| == |m| && (forall i :: 0 <= i < |m| ==> slot[i] == SlotIn(seen, pn[i]))
  }

  lemma SlotsAreComponents(m: seq<Mask>, pn: seq<int>, seen: seq<int>, doms: seq<Mask>, slot: seq<nat>, i: nat, j: nat)
    requires Populated(m, pn, seen, doms, slot) && i < |m| && j < |m|
    ensures slot[i] == slot[j] <==> Connected(m, i, j)
  {
    if Connected(m, i, j) {
      var p :| IsPath(m, p) && p[0] == i && p[|p| - 1] == j;
      SettledPath(m, pn, p);
    }
  }

  lemma SlotMembers(m: seq<Mask>, pn: seq<int>, seen: seq<int>, doms: seq<Mask>, slot: seq<nat>, s: nat, c: nat)
    requires Populated(m, pn, seen, doms, slot) && s < |doms|
    ensures s in slot
    ensures c in doms[s] <==> InSlot(m, slot, s, c)
  {
    assert seen[s] in Labels(pn);
    var k :| 0 <= k < |pn| && pn[k] == seen[s];
    assert slot[k] == s;
    UnionMembers(m, pn, seen[s], |m|, c);
    if InSlot(m, slot, s, c) {
      var i :| 0 <= i < |m| && slot[i] == s && c in m[i];
      assert pn[i] == seen[s];
    }
    if c in doms[s] {
      var i :| 0 <= i < |m| && pn[i] == seen[s] && c in m[i];
      assert slot[i] == s;
    }
  }

  lemma ComponentsFromListing(m: seq<Mask>, pn: seq<int>, seen: seq<int>, doms: seq<Mask>, slot: seq<nat>)
    requires Populated(m, pn, seen, doms, slot)
    ensures AreComponents(m, doms, slot)
  {
    forall i, j | 0 <= i < |m| && 0 <= j < |m| ensures slot[i] == slot[j] <==> Connected(m, i, j) {
      SlotsAreComponents(m, pn, seen, doms, slot, i, j);
    }
    forall s, c | 0 <= s < |doms| ensures s in slot && (c in doms[s] <==> InSlot(m, slot, s, c)) {
      SlotMembers(m, pn, seen, doms, slot, s, c);
    }
    forall s | 0 <= s < |doms| ensures s in slot {
      SlotMembers(m, pn, seen, doms, slot, s, 0);
    }
  }

  /** From numbering the collected cpusets to the filled masks. */
  method Partition(m: seq<Mask>) returns (doms: seq<Mask>, ghost slot: seq<nat>)
    ensures AreComponents(m, doms, slot)
    ensures PairwiseDisjoint(doms) && Covers(doms, m)
  {
    var pn, ndoms := NumberPartitions(m);
    ghost var pn0 := pn[..];
    var nslot, confused;
    ghost var seen;
    doms, nslot, confused, seen := Populate(m, pn, ndoms);
    assert nslot == ndoms && !confused;   // BUG_ON(nslot != ndoms) and the warning branch
    slot := seq(|m|, i requires 0 <= i < |m| => SlotIn(seen, pn0[i]));
    ComponentsFromListing(m, pn0, seen, doms, slot);
    DomainsDisjoint(m, doms, slot);
    DomainsCover(m, doms, slot);
  }

  ghost predicate PairwiseDisjoint(f: seq<Mask>) {
    forall s, t :: 0 <= s < t < |f| ==> f[s] * f[t] == {}
  }

  ghost predicate Covers(f: seq<Mask>, m: seq<Mask>) {
    forall i :: 0 <= i < |m| ==> Inside(m[i], f)
  }

  ghost predicate Inside(mask: Mask, f: seq<Mask>) {
    exists k :: 0 <= k < |f| && mask <= f[k]
  }

  lemma DomainsDisjoint(m: seq<Mask>, doms: seq<Mask>, slot: seq<nat>)
    requires AreComponents(m, doms, slot)
    ensures PairwiseDisjoint(doms)
  {
    forall s, t | 0 <= s < t < |doms| ensures doms[s] * doms[t] == {} {
      forall c | c in doms[s] && c in doms[t] ensures false {
        assert InSlot(m, slot, s, c) && InSlot(m, slot, t, c);
        var i :| 0 <= i < |m| && slot[i] == s && c in m[i];
        var j :| 0 <= j < |m| && slot[j] == t && c in m[j];
        assert c in m[i] * m[j];
        ConnectedEdge(m, i, j);
      }
    }
  }

  /** Each collected cpuset is inside its domain, and inside no other unless it has no CPU. */
  lemma DomainContains(m: seq<Mask>, doms: seq<Mask>, slot: seq<nat>, i: nat)
    requires AreComponents(m, doms, slot) && i < |m|
    ensures m[i] <= doms[slot[i]]
    ensures m[i] != {} ==> forall s :: 0 <= s < |doms| && m[i] <= doms[s] ==> s == slot[i]
  {
    forall c | c in m[i] ensures c in doms[slot[i]] {
      assert InSlot(m, slot, slot[i], c);
    }
    DomainsDisjoint(m, doms, slot);
    if m[i] != {} {
      var c :| c in m[i];
      forall s | 0 <= s < |doms| && m[i] <= doms[s] ensures s == slot[i] {
        assert c in doms[s] && c in doms[slot[i]];
        assert c in doms[s] * doms[slot[i]] && c in doms[slot[i]] * doms[s];
      }
    }
  }

  lemma DomainsCover(m: seq<Mask>, doms: seq<Mask>, slot: seq<nat>)
    requires AreComponents(m, doms, slot)
    ensures Covers(doms, m)
  {
    assert |slot| == |m| && forall i :: 0 <= i < |m| ==> slot[i] < |doms|;
    hide AreComponents;
    forall i | 0 <= i < |m| ensures Inside(m[i], doms) {
      DomainContains(m, doms, slot, i);
      assert m[i] <= doms[slot[i]];
    }
  }

  /** A chain of overlapping masks cannot leave a member of a disjoint cover. */
  lemma {:induction false} PathStaysInside(m: seq<Mask>, f: seq<Mask>, p: seq<nat>, k: nat)
    requires PairwiseDisjoint(f) && Covers(f, m) && IsPath(m, p)
    requires k < |f| && m[p[0]] <= f[k]
    ensures m[p[|p| - 1]] <= f[k]
  {
    if |p| > 1 {
      assert Overlap(m[p[0]], m[p[1]]);
      var c :| c in m[p[0]] * m[p[1]];
      var l :| 0 <= l < |f| && m[p[1]] <= f[l];
      assert c in f[k] * f[l] && c in f[l] * f[k];
      assert IsPath(m, p[1..]) by {
        forall x | 0 <= x < |p[1..]| - 1 ensures Overlap(m[p[1..][x]], m[p[1..][x + 1]]) {
          assert Overlap(m[p[x + 1]], m[p[x + 2]]);
        }
      }
      PathStaysInside(m, f, p[1..], k);
    }
  }

  /** The domains are the finest disjoint cover: every disjoint family that covers
      the cpusets has a member around each domain. */
  lemma DomainsAreFinest(m: seq<Mask>, doms: seq<Mask>, slot: seq<nat>, f: seq<Mask>, s: nat)
      returns (k: nat)
    requires AreComponents(m, doms, slot) && PairwiseDisjoint(f) && Covers(f, m) && s < |doms|
    ensures k < |f| && doms[s] <= f[k]
  {
    assert s in slot;
    var i :| 0 <= i < |m| && slot[i] == s;
    k :| 0 <= k < |f| && m[i] <= f[k];
    forall c | c in doms[s] ensures c in f[k] {
      assert InSlot(m, slot, s, c);
      var j :| 0 <= j < |m| && slot[j] == s && c in m[j];
      assert Connected(m, i, j);
      var p :| IsPath(m, p) && p[0] == i && p[|p| - 1] == j;
      PathStaysInside(m, f, p, k);
    }
  }

  lemma DomainInHolder(m: seq<Mask>, doms: seq<Mask>, slot: seq<nat>, f: seq<Mask>, i: nat, k: nat)
    requires AreComponents(m, doms, slot) && PairwiseDisjoint(f) && Covers(f, m)
    requires i < |m| && m[i] != {} && k < |f| && m[i] <= f[k]
    ensures doms[slot[i]] <= f[k]
  {
    DomainContains(m, doms, slot, i);
    var n := DomainsAreFinest(m, doms, slot, f, slot[i]);
    var c :| c in m[i];
    assert c in f[n] * f[k] && c in f[k] * f[n];
  }

  lemma HoldersApart(m: seq<Mask>, doms: seq<Mask>, slot: seq<nat>, f: seq<Mask>, i: nat, k: nat, j: nat, l: nat)
    requires AreComponents(m, doms, slot) && PairwiseDisjoint(f) && Covers(f, m) && k < l < |f|
    requires i < |m| && m[i] != {} && m[i] <= f[k] && j < |m| && m[j] != {} && m[j] <= f[l]
    ensures slot[i] != slot[j]
  {
    DomainContains(m, doms, slot, i);
    DomainInHolder(m, doms, slot, f, j, l);
    var c :| c in m[i];
    assert c !in f[k] * f[l];
  }

  /** ... and no such family whose members each hold a cpuset with CPUs has more members. */
  lemma DomainsAreMost(m: seq<Mask>, doms: seq<Mask>, slot: seq<nat>, f: seq<Mask>, held: seq<nat>)
    requires AreComponents(m, doms, slot) && PairwiseDisjoint(f) && Covers(f, m)
    requires |held| == |f|
    requires forall k :: 0 <= k < |f| ==> held[k] < |m| && m[held[k]] != {} && m[held[k]] <= f[k]
    ensures |f| <= |doms|
  {
    assert |slot| == |m| && forall i :: 0 <= i < |m| ==> slot[i] < |doms|;
    hide AreComponents, PairwiseDisjoint, Covers;
    var image := seq(|f|, k requires 0 <= k < |f| => slot[held[k]] as int);
    forall k, l | 0 <= k < l < |f| ensures image[k] != image[l] {
      HoldersApart(m, doms, slot, f, held[k], k, held[l], l);
    }
    SizeOfDistinct(image);
    SubsetSize((set x | x in image), Below(|doms|));
  }

  ghost function Below(n: nat): (r: set<int>)
    ensures |r| == n && forall x :: x in r <==> 0 <= x < n
  {
    if n == 0 then {} else Below(n - 1) + {n - 1}
  }
}
