/** The two indexes over the css_sets: the hash table by css pointers and, per cgroup, the list
    of css_sets linked to it. */
module CssIndex {
  import opened Hierarchy
  import opened Lists
  import opened Options
  import opened CssSets
  import opened SetFacts

  const BUCKETS: nat := 128

  // ---------------------------------------------------------------- hash table

  /** Each entry sits once, in the bucket `at` gives it, and nothing else is in the table. */
  ghost predicate TableOk(table: seq<seq<nat>>, at: map<nat, nat>) {
    && |table| == BUCKETS
    && (forall id :: id in at ==> at[id] < BUCKETS && id in table[at[id]])
    && (forall b, i :: 0 <= b < BUCKETS && 0 <= i < |table[b]| ==> table[b][i] in at && at[table[b][i]] == b)
    && (forall b :: 0 <= b < BUCKETS ==> Distinct(table[b]))
  }

  function HashAdd(table: seq<seq<nat>>, b: nat, id: nat): seq<seq<nat>>
    requires b < |table|
  {
    table[b := [id] + table[b]]
  }

  function HashDel(table: seq<seq<nat>>, b: nat, id: nat): seq<seq<nat>>
    requires b < |table|
  {
    table[b := Without(table[b], id)]
  }

  lemma HashAddOk(table: seq<seq<nat>>, at: map<nat, nat>, b: nat, id: nat)
    requires TableOk(table, at) && id !in at && b < BUCKETS
    ensures TableOk(HashAdd(table, b, id), at[id := b])
  {
  }

  lemma HashDelOk(table: seq<seq<nat>>, at: map<nat, nat>, id: nat)
    requires TableOk(table, at) && id in at
    ensures TableOk(HashDel(table, at[id], id), at - {id})
  {
    var b, t := at[id], HashDel(table, at[id], id);
    WithoutDistinct(table[b], id);
    forall c, i | 0 <= c < BUCKETS && 0 <= i < |t[c]| ensures t[c][i] in at - {id} && at[t[c][i]] == c {
      assert t[c][i] in t[c];
      assert t[c][i] in table[c];
      assert t[c][i] == table[c][IndexOf(table[c], t[c][i])];
    }
  }

  // ---------------------------------------------------------------- links from the cgroup side

  /** cgrp->cset_links lists exactly the css_sets that link to the cgroup, once each. */
  ghost predicate BackOk(back: map<Cgroup, seq<nat>>, csets: map<nat, CssSet>) {
    && (forall g :: g in back ==> Distinct(back[g]))
    && (forall g, id :: g in back ==> (id in back[g] <==> id in csets && g in csets[id].links))
  }

  /** link_css_set for each of `links`, newest first. */
  function LinkBack(back: map<Cgroup, seq<nat>>, links: seq<Cgroup>, id: nat): map<Cgroup, seq<nat>> {
    map g | g in back :: if g in links then [id] + back[g] else back[g]
  }

  function UnlinkBack(back: map<Cgroup, seq<nat>>, links: seq<Cgroup>, id: nat): map<Cgroup, seq<nat>> {
    map g | g in back :: if g in links then Without(back[g], id) else back[g]
  }

  lemma LinkBackOk(back: map<Cgroup, seq<nat>>, csets: map<nat, CssSet>, id: nat, c: CssSet)
    requires BackOk(back, csets) && id !in csets
    ensures BackOk(LinkBack(back, c.links, id), csets[id := c]) && LinkBack(back, c.links, id).Keys == back.Keys
  {
    var back' := LinkBack(back, c.links, id);
    forall g | g in back' ensures Distinct(back'[g]) {
      assert id !in back[g];
      ConcatDistinct([id], back[g]);
    }
    forall g, x | g in back' ensures x in back'[g] <==> x in csets[id := c] && g in csets[id := c][x].links {
      assert x in back[g] <==> x in csets && g in csets[x].links;
    }
  }

  lemma UnlinkBackOk(back: map<Cgroup, seq<nat>>, csets: map<nat, CssSet>, id: nat)
    requires BackOk(back, csets) && id in csets
    ensures BackOk(UnlinkBack(back, csets[id].links, id), csets - {id})
    ensures UnlinkBack(back, csets[id].links, id).Keys == back.Keys
  {
    var back' := UnlinkBack(back, csets[id].links, id);
    forall g | g in back' ensures Distinct(back'[g]) {
      WithoutDistinct(back[g], id);
    }
    forall g, x | g in back' ensures x in back'[g] <==> x in csets - {id} && g in csets[x].links {
      assert x in back[g] <==> x in csets && g in csets[x].links;
    }
  }

  // ---------------------------------------------------------------- the class

  function BucketOf(hash: map<nat, nat> -> nat, subsys: map<nat, nat>): (b: nat)
    ensures b < BUCKETS
  {
    hash(subsys) % BUCKETS
  }

  ghost function At(hash: map<nat, nat> -> nat, csets: map<nat, CssSet>): map<nat, nat> {
    map id | id in csets :: BucketOf(hash, csets[id].subsys)
  }

  lemma AlignedLinks(s: State, id: nat)
    requires Inv(s) && id in s.csets
    ensures Aligned(s.f, s.csets[id].links) && CanSubstAny(s, id) && Distinct(s.f.roots)
  {
    hide CssAt;
  }

  ghost predicate CanSubstAny(s: State, old0: nat) {
    forall g :: g in s.f.css ==> g.root in s.f.roots && CanSubst(s, old0, g)
  }

  /** A css_set for the substituted choice has the template's pointers, so it is in the
      template's bucket. */
  lemma MatchHasTemplate(s: State, old0: nat, g: Cgroup, id: nat)
    requires Inv(s) && CanSubst(s, old0, g) && Matches(s, old0, g, id)
    ensures s.csets[id].subsys == NewCset(s, old0, g).subsys
  {
    hide FrameOk, CsetOk, Counted, Template, Unique, InitOk;
    TemplateIsDetermined(s.f, s.csets[old0].links, s.csets[old0].subsys, g);
    assert CsetOk(s.f, s.csets[id].links, s.csets[id].subsys);
    PointersDetermined(s.f, s.csets[id].links, s.csets[id].subsys, NewCset(s, old0, g).subsys);
  }

  lemma PointersDetermined(f: Frame, links: seq<Cgroup>, a: map<nat, nat>, b: map<nat, nat>)
    requires FrameOk(f) && CsetOk(f, links, a) && CsetOk(f, links, b)
    ensures a == b
  {
  }

  /** The hash table, the back links, css_set_count, cgroup_root_count, and an address from
      which on none is in use. */
  datatype Index = Index(table: seq<seq<nat>>, back: map<Cgroup, seq<nat>>, count: int, rootCount: int, next: nat)

  ghost predicate IndexOk(hash: map<nat, nat> -> nat, x: Index, f: Frame, csets: map<nat, CssSet>) {
    && TableOk(x.table, At(hash, csets)) && BackOk(x.back, csets) && x.back.Keys == f.css.Keys
    && x.count == |csets| && x.rootCount == |f.roots| && forall id :: id in csets ==> id < x.next
  }

  /** Entering a new css_set in both indexes. */
  lemma EnterIndexOk(hash: map<nat, nat> -> nat, x: Index, f: Frame, csets: map<nat, CssSet>, c: CssSet)
    requires IndexOk(hash, x, f, csets)
    ensures |x.table| == BUCKETS && x.next !in csets
    ensures IndexOk(hash, Index(HashAdd(x.table, BucketOf(hash, c.subsys), x.next), LinkBack(x.back, c.links, x.next),
                                x.count + 1, x.rootCount, x.next + 1), f, csets[x.next := c])
  {
    AtAdd(hash, csets, x.next, c);
    HashAddOk(x.table, At(hash, csets), BucketOf(hash, c.subsys), x.next);
    LinkBackOk(x.back, csets, x.next, c);
    hide TableOk, BackOk, LinkBack, HashAdd, At;
  }

  /** Removing one. */
  lemma LeaveIndexOk(hash: map<nat, nat> -> nat, x: Index, f: Frame, csets: map<nat, CssSet>, id: nat)
    requires IndexOk(hash, x, f, csets) && id in csets
    ensures |x.table| == BUCKETS
    ensures IndexOk(hash, Index(HashDel(x.table, BucketOf(hash, csets[id].subsys), id), UnlinkBack(x.back, csets[id].links, id),
                                x.count - 1, x.rootCount, x.next), f, csets - {id})
  {
    assert |x.table| == BUCKETS;
    hide TableOk, BackOk, UnlinkBack, HashDel, At;
    AtDel(hash, csets, id);
    HashDelOk(x.table, At(hash, csets), id);
    UnlinkBackOk(x.back, csets, id);
    assert (csets - {id}).Keys == csets.Keys - {id};
  }

  lemma AtDel(hash: map<nat, nat> -> nat, csets: map<nat, CssSet>, id: nat)
    requires id in csets
    ensures At(hash, csets - {id}) == At(hash, csets) - {id}
    ensures id in At(hash, csets) && At(hash, csets)[id] == BucketOf(hash, csets[id].subsys)
  {
  }

  /** Counts do not matter to the indexes. */
  lemma RecountIndexOk(hash: map<nat, nat> -> nat, x: Index, f: Frame, csets: map<nat, CssSet>, csets': map<nat, CssSet>)
    requires IndexOk(hash, x, f, csets) && csets'.Keys == csets.Keys && SameShape(csets, csets')
    ensures IndexOk(hash, x, f, csets')
  {
    assert At(hash, csets') == At(hash, csets);
    assert |csets'.Keys| == |csets.Keys|;
    hide TableOk, At;
  }

  ghost predicate InOrder(roots: seq<nat>, links: seq<Cgroup>) {
    |links| == |roots| && forall i :: 0 <= i < |links| ==> links[i].root == roots[i]
  }

  /** The list walk of compare_css_sets, with its BUG_ONs as assertions. */
  method CompareLinks(l1: seq<Cgroup>, l2: seq<Cgroup>, g: Cgroup, ghost roots: seq<nat>) returns (same: bool)
    requires Distinct(roots) && InOrder(roots, l1) && InOrder(roots, l2) && g.root in roots
    ensures same <==> l1 == Subst(roots, l2, g)
  {
    hide IndexOf;
    ghost var want := Subst(roots, l2, g);
    var i := 0;
    while i < |l1|
      invariant 0 <= i <= |l1|
      invariant forall k :: 0 <= k < i ==> l1[k] == want[k]
    {
      assert i < |l2|;                      // BUG_ON(l2 == &old_cset->cgrp_links)
      var cgrp1, cgrp2 := l1[i], l2[i];
      assert cgrp1.root == cgrp2.root;      // BUG_ON(cgrp1->root != cgrp2->root)
      IndexIn(roots, i);
      if cgrp1.root == g.root {
        if cgrp1 != g { return false; }
      } else {
        if cgrp1 != cgrp2 { return false; }
      }
      i := i + 1;
    }
    assert i == |l2|;                       // BUG_ON(l2 != &old_cset->cgrp_links)
    assert l1 == want;
    same := true;
  }

  lemma MatchInBucket(hash: map<nat, nat> -> nat, table: seq<seq<nat>>, s: State, old0: nat, g: Cgroup, id: nat)
    requires Inv(s) && TableOk(table, At(hash, s.csets)) && CanSubst(s, old0, g) && g.root in s.f.roots
    requires |s.csets[old0].links| == |s.f.roots| && Matches(s, old0, g, id)
    ensures id in table[BucketOf(hash, NewCset(s, old0, g).subsys)]
  {
    hide Inv, CanSubst, NewCset;
    MatchHasTemplate(s, old0, g, id);
    assert id in At(hash, s.csets);
  }

  class CgroupCore {
    const hash: map<nat, nat> -> nat   // css_set_hash: any function of the css pointers
    var f: Frame
    var csets: map<nat, CssSet>
    var tasks: map<nat, Task>
    ghost var held: multiset<nat>
    var table: seq<seq<nat>>           // css_set_table
    var back: map<Cgroup, seq<nat>>    // each cgroup's cset_links
    var count: int                     // css_set_count
    var rootCount: int                 // cgroup_root_count
    var next: nat                      // no address from here on is in use

    ghost function View(): State
      reads this
    {
      State(f, csets, tasks, held)
    }

    ghost predicate Indexed()
      reads this
    {
      IndexOk(hash, Index(table, back, count, rootCount, next), f, csets)
    }

    ghost predicate Valid()
      reads this
    {
      Inv(View()) && Indexed()
    }

    /** cgroup_init_early and cgroup_init. */
    constructor (hash: map<nat, nat> -> nat, ptrs: map<nat, nat>)
      ensures Valid() && View() == Boot(ptrs)
      ensures f.roots == [DUMMY] && f.css == map[Top(DUMMY) := ptrs] && f.owner == map ss | ss in ptrs :: DUMMY
      ensures csets == map[INIT := CssSet(1, [Top(DUMMY)], ptrs)] && tasks == map[0 := Task(INIT, Running)] && held == multiset{}
    {
      hide Inv, IndexOk;
      this.hash := hash;
      f := Frame([DUMMY], map[Top(DUMMY) := ptrs], map ss | ss in ptrs :: DUMMY);
      csets := map[INIT := CssSet(1, [Top(DUMMY)], ptrs)];
      tasks := map[0 := Task(INIT, Running)];
      held := multiset{};
      table := seq(BUCKETS, b => [])[BucketOf(hash, ptrs) := [INIT]];
      back := map[Top(DUMMY) := [INIT]];
      count, rootCount, next := 1, 1, 1;
      new;
      BootInv(ptrs);
      BootIndexOk(this.hash, ptrs);
    }

    /** cgroup_create. */
    method MakeCgroup(g: Cgroup, ptrs: map<nat, nat>)
      requires Valid() && CanCreate(f, g, ptrs)
      modifies `f, `back
      ensures Valid() && View() == CreateCgroup(old(View()), g, ptrs)
      ensures f == Frame(old(f.roots), old(f.css)[g := ptrs], old(f.owner)) && back == old(back)[g := []]
    {
      hide Inv, IndexOk, FrameOk, CsetsOk;
      InvParts(View());
      CreateKeepsInv(View(), g, ptrs);
      CreateIndexOk(hash, Index(table, back, count, rootCount, next), View(), g, ptrs);
      f := f.(css := f.css[g := ptrs]);
      back := back[g := []];
    }

    /** cgroup_destroy_locked: refused while a css_set is linked or a child is not dead. */
    method RemoveCgroup(g: Cgroup, childDead: seq<bool>) returns (busy: bool)
      requires Valid() && g in f.css && g.num != 0
      modifies `f, `back
      ensures Valid() && (busy <==> !CanDestroy(old(View()), g) || exists i :: 0 <= i < |childDead| && !childDead[i])
      ensures busy <==> (exists id :: id in csets && g in csets[id].links) || exists i :: 0 <= i < |childDead| && !childDead[i]
      ensures View() == if busy then old(View()) else DestroyCgroup(old(View()), g)
      ensures f == if busy then old(f) else Frame(old(f.roots), old(f.css) - {g}, old(f.owner))
    {
      hide Inv, IndexOk;
      DestroyIndexOk(hash, Index(table, back, count, rootCount, next), View(), g);
      if back[g] != [] { return true; }
      var i := 0;
      while i < |childDead|
        invariant i <= |childDead| && f == old(f) && back == old(back)
        invariant forall k :: 0 <= k < i ==> childDead[k]
      {
        if !childDead[i] { return true; }
        i := i + 1;
      }
      DestroyKeepsInv(View(), g);
      f := f.(css := f.css - {g});
      back := back - {g};
      return false;
    }

    /** find_existing_css_set's first loop. */
    method BuildTemplate(old0: nat, g: Cgroup) returns (template: map<nat, nat>)
      requires CanSubst(View(), old0, g)
      ensures template == NewCset(View(), old0, g).subsys
    {
      template := Template(f, csets[old0].subsys, g);
    }

    method CompareCssSets(id: nat, old0: nat, g: Cgroup, template: map<nat, nat>) returns (same: bool)
      requires Inv(View()) && id in csets && old0 in csets && CanSubst(View(), old0, g) && g.root in f.roots
      requires template == NewCset(View(), old0, g).subsys && |csets[old0].links| == |f.roots|
      ensures same <==> Matches(View(), old0, g, id)
    {
      hide Inv, CanSubst, NewCset, CanSubstAny, Subst;
      if template != csets[id].subsys {
        if Matches(View(), old0, g, id) { MatchHasTemplate(View(), old0, g, id); }
        return false;
      }
      AlignedLinks(View(), id);
      AlignedLinks(View(), old0);
      same := CompareLinks(csets[id].links, csets[old0].links, g, f.roots);
    }

    /** find_existing_css_set finds the match if there is one. */
    method FindExisting(old0: nat, g: Cgroup) returns (r: Option<nat>, template: map<nat, nat>)
      requires Valid() && old0 in csets && CanSubst(View(), old0, g) && g.root in f.roots && |csets[old0].links| == |f.roots|
      ensures template == NewCset(View(), old0, g).subsys
      ensures r.Some? ==> Matches(View(), old0, g, r.value)
      ensures r.None? ==> forall x :: !Matches(View(), old0, g, x)
    {
      hide Inv, CanSubst, NewCset, Matches, BackOk;
      template := BuildTemplate(old0, g);
      var bucket := table[BucketOf(hash, template)];
      forall x | Matches(View(), old0, g, x) ensures x in bucket { MatchInBucket(hash, table, View(), old0, g, x); }
      var i := 0;
      while i < |bucket|
        invariant 0 <= i <= |bucket|
        invariant forall k :: 0 <= k < i ==> !Matches(View(), old0, g, bucket[k])
      {
        assert bucket[i] in At(hash, csets);
        var same := CompareCssSets(bucket[i], old0, g, template);
        if same { return Some(bucket[i]), template; }
        i := i + 1;
      }
      r := None;
    }
  
    /** The link loop of find_css_set; `tmp` counts the preallocated links. */
    method LinkAll(links0: seq<Cgroup>, g: Cgroup, id: nat) returns (links: seq<Cgroup>)
      requires Distinct(f.roots) && InOrder(f.roots, links0) && g.root in f.roots && rootCount == |f.roots|
      requires g in back && forall i :: 0 <= i < |links0| ==> links0[i] in back
      modifies `back
      ensures links == Subst(f.roots, links0, g)
      ensures back == LinkBack(old(back), links, id)
    {
      ghost var want := Subst(f.roots, links0, g);
      SubstAt(f.roots, links0, g);
      hide Subst, LinkBack;
      assert back == LinkBack(back, [], id) by { LinkBackNone(back, id); }
      links := [];
      var tmp := rootCount;
      var i := 0;
      while i < |links0|
        invariant 0 <= i <= |links0| == |want| && tmp == rootCount - i && links == want[..i]
        invariant back == LinkBack(old(back), links, id)
      {
        var c := if links0[i].root == g.root then g else links0[i];
        assert tmp > 0;                     // BUG_ON(list_empty(tmp_links))
        tmp := tmp - 1;
        LinkBackStep(old(back), f.roots, want, i, id);
        back := back[c := [id] + back[c]];
        links := links + [c];
        i := i + 1;
      }
      assert tmp == 0;                      // BUG_ON(!list_empty(&tmp_links))
    }

    /** find_css_set; `allocOk` says the css_set and its links could be allocated. */
    method FindCssSet(old0: nat, g: Cgroup, allocOk: bool) returns (r: Option<nat>)
      requires Valid() && old0 in csets && g in f.css
      modifies `csets, `held, `table, `back, `count, `next
      ensures Valid()
      ensures r.None? <==> !allocOk && NoMatch(old(View()), old0, g)
      ensures r.None? ==> View() == old(View())
      ensures r.Some? ==> Found(old(View()), old0, g, r.value, View())
      ensures r.Some? ==> Chosen(old(csets), old(held), old0, g, r.value, csets, held)
    {
      AlignedLinks(View(), old0);
      ghost var s0 := View();
      hide Inv, IndexOk, Chosen;
      var template;
      r, template := FindExisting(old0, g);
      if r.Some? {
        TakeRef(r.value);
        FoundMeans(s0, old0, g, r.value, View());
        return;
      }
      if !allocOk { return; }
      var id := next;
      NewEntry(id, old0, g, template);
      FoundMeans(s0, old0, g, id, View());
      r := Some(id);
    }

    method TakeRef(id: nat)
      requires Valid() && id in csets
      modifies `csets, `held
      ensures Valid() && View() == Acquire(old(View()), id)
      ensures csets == old(csets)[id := old(csets)[id].(refs := old(csets)[id].refs + 1)] && held == old(held) + multiset{id}
    {
      hide Inv, IndexOk;
      AcquireKeepsInv(View(), id);
      RecountIndexOk(hash, Index(table, back, count, rootCount, next), f, csets, GetRef(csets, id));
      csets := GetRef(csets, id);
      held := held + multiset{id};
    }

    method NewEntry(id: nat, old0: nat, g: Cgroup, template: map<nat, nat>)
      requires Valid() && id == next && old0 in csets && g in f.css && NoMatch(View(), old0, g)
      requires template == NewCset(View(), old0, g).subsys
      modifies `csets, `held, `table, `back, `count, `next
      ensures Valid() && View() == Install(old(View()), old0, g, id)
    {
      hide Inv, IndexOk, CanSubst, Subst, HashAdd, LinkBack, NoMatch, Template, InOrder, Distinct;
      ghost var s0 := View();
      LinkAllReady(hash, Index(table, back, count, rootCount, next), s0, old0, g);
      EnterIndexOk(hash, Index(table, back, count, rootCount, next), f, csets, NewCset(s0, old0, g));
      NoMatchInstall(s0, old0, g, id);
      var links := LinkAll(csets[old0].links, g, id);
      csets := csets[id := CssSet(1, links, template)];
      held := held + multiset{id};
      count, next := count + 1, next + 1;
      table := HashAdd(table, BucketOf(hash, template), id);
    }

    /** The unlink loop of __put_css_set. */
    method UnlinkAll(links: seq<Cgroup>, id: nat)
      requires forall i :: 0 <= i < |links| ==> links[i] in back
      requires forall i, j :: 0 <= i < j < |links| ==> links[i] != links[j]
      modifies `back
      ensures back == UnlinkBack(old(back), links, id)
    {
      hide Without;
      var i := 0;
      while i < |links|
        invariant 0 <= i <= |links|
        invariant back == UnlinkBack(old(back), links[..i], id)
      {
        UnlinkBackStep(old(back), links, i, id);
        back := back[links[i] := Without(back[links[i]], id)];
        i := i + 1;
      }
      assert links[..i] == links;
    }

    /** __put_css_set. */
    method PutCssSet(id: nat)
      requires Indexed() && id in csets && Aligned(f, csets[id].links) && Distinct(f.roots)
      modifies `csets, `table, `back, `count
      ensures csets == PutRef(old(csets), id) && Indexed()
      ensures csets == if old(csets)[id].refs == 1 then old(csets) - {id}
                       else old(csets)[id := old(csets)[id].(refs := old(csets)[id].refs - 1)]
    {
      assert back.Keys == f.css.Keys && |table| == BUCKETS;
      hide IndexOk, UnlinkBack, HashDel;
      ghost var x := Index(table, back, count, rootCount, next);
      var c := csets[id];
      if c.refs != 1 {
        RecountIndexOk(hash, x, f, csets, PutRef(csets, id));
        csets := csets[id := c.(refs := c.refs - 1)];
        return;
      }
      LeaveIndexOk(hash, x, f, csets, id);
      table := HashDel(table, BucketOf(hash, c.subsys), id);
      count := count - 1;
      UnlinkAll(c.links, id);
      csets := csets - {id};
    }

    method ReleaseRef(id: nat)
      requires Valid() && id in held
      modifies `csets, `held, `table, `back, `count
      ensures Valid() && id in old(csets) && View() == Release(old(View()), id)
      ensures held == old(held) - multiset{id}
    {
      hide Inv, IndexOk, CanSubstAny;
      ReleaseKeepsInv(View(), id);
      AlignedLinks(View(), id);
      held := held - multiset{id};
      PutCssSet(id);
    }

    /** cgroup_task_migrate. */
    method MigrateTask(t: nat, id: nat)
      requires Valid() && id in held && t in tasks && t != 0 && tasks[t].phase == Running
      modifies `csets, `tasks, `held, `table, `back, `count
      ensures Valid() && old(tasks)[t].cset in old(csets) && View() == Migrate(old(View()), t, id)
      ensures tasks == old(tasks)[t := Task(id, Running)] && held == old(held) - multiset{id}
      ensures var o := old(tasks)[t].cset;
              csets == if old(csets)[o].refs == 1 then old(csets) - {o}
                       else old(csets)[o := old(csets)[o].(refs := old(csets)[o].refs - 1)]
    {
      hide Inv, IndexOk, CanSubstAny;
      MigrateKeepsInv(View(), t, id);
      var oldCset := tasks[t].cset;
      AlignedLinks(View(), oldCset);
      tasks := tasks[t := Task(id, Running)];
      held := held - multiset{id};
      PutCssSet(oldCset);
    }

    method ForkTask(p: nat, c: nat)
      requires Valid() && p in tasks && tasks[p].phase == Running && c !in tasks
      modifies `csets, `tasks
      ensures Valid() && old(tasks)[p].cset in old(csets) && View() == Fork(old(View()), p, c)
      ensures tasks == old(tasks)[c := Task(old(tasks)[p].cset, Running)]
      ensures var o := old(tasks)[p].cset;
              csets == old(csets)[o := old(csets)[o].(refs := old(csets)[o].refs + 1)]
    {
      hide Inv, IndexOk;
      ForkKeepsInv(View(), p, c);
      RecountIndexOk(hash, Index(table, back, count, rootCount, next), f, csets, GetRef(csets, tasks[p].cset));
      csets := GetRef(csets, tasks[p].cset);
      tasks := tasks[c := Task(tasks[p].cset, Running)];
    }

    /** PF_EXITING is set before cgroup_exit is reached. */
    method StartExitTask(t: nat)
      requires Valid() && t in tasks && t != 0 && tasks[t].phase != Gone
      modifies `tasks
      ensures Valid() && View() == StartExit(old(View()), t)
      ensures tasks == old(tasks)[t := Task(old(tasks)[t].cset, Exiting)]
    {
      hide Inv, IndexOk;
      StartExitKeepsInv(View(), t);
      tasks := tasks[t := tasks[t].(phase := Exiting)];
    }

    /** cgroup_exit. */
    method ExitTask(t: nat)
      requires Valid() && t in tasks && t != 0 && tasks[t].phase != Gone
      modifies `csets, `tasks, `table, `back, `count
      ensures Valid() && old(tasks)[t].cset in old(csets) && View() == Exit(old(View()), t)
      ensures tasks == old(tasks)[t := Task(INIT, Gone)]
      ensures var o := old(tasks)[t].cset;
              csets == if old(csets)[o].refs == 1 then old(csets) - {o}
                       else old(csets)[o := old(csets)[o].(refs := old(csets)[o].refs - 1)]
    {
      hide Inv, IndexOk, CanSubstAny;
      ExitKeepsInv(View(), t);
      var oldCset := tasks[t].cset;
      AlignedLinks(View(), oldCset);
      tasks := tasks[t := Task(INIT, Gone)];
      PutCssSet(oldCset);
    }

    /** task_cgroup_from_root: the initial css_set stands for the tops without a walk. */
    method TaskCgroupFromRoot(t: nat, r: nat) returns (res: Cgroup)
      requires Inv(View()) && t in tasks && tasks[t].cset in csets && r in f.roots
      requires |csets[tasks[t].cset].links| == |f.roots|
      ensures res == csets[tasks[t].cset].links[IndexOf(f.roots, r)]
    {
      hide Inv, CanSubstAny, IndexOf;
      var id := tasks[t].cset;
      if id == INIT {
        InitLinks(View(), r);
        return Top(r);
      }
      AlignedLinks(View(), id);
      var links := csets[id].links;
      var i := 0;
      while i < |links| && links[i].root != r
        invariant 0 <= i <= |links|
        invariant forall k :: 0 <= k < i ==> links[k].root != r
      {
        i := i + 1;
      }
      assert links[IndexOf(f.roots, r)].root == r;
      assert i < |links|;                   // BUG_ON(!res)
      IndexIn(f.roots, i);
      res := links[i];
    }

    /** Step 0 of cgroup_attach_task: the threads that live elsewhere and are not exiting. */
    method Select(g: Cgroup, group: seq<nat>) returns (sel: seq<nat>)
      requires Inv(View()) && g in f.css && Distinct(group) && forall i :: 0 <= i < |group| ==> group[i] in tasks
      ensures Distinct(sel) && |sel| <= |group| && sel == Movers(View(), g, group)
      ensures forall t :: t in sel <==> t in group && Selected(View(), g, t)
    {
      hide Inv, Selected, Movers;
      MoversNone(View(), g, group);
      sel := [];
      var i := 0;
      while i < |group|
        invariant 0 <= i <= |group| && |sel| <= i && Distinct(sel) && sel == Movers(View(), g, group[..i])
        invariant forall t :: t in sel <==> t in group[..i] && Selected(View(), g, t)
      {
        var t := group[i];
        assert group[..i + 1] == group[..i] + [t] && t !in group[..i];
        SelectedIs(View(), g, t);
        MoversPlus(View(), g, group, i);
        if tasks[t].phase == Running {
          assert |sel| < |group|;           // BUG_ON(i >= group_size)
          var cur := TaskCgroupFromRoot(t, g.root);
          if cur != g {
            ConcatDistinct(sel, [t]);
            sel := sel + [t];
          }
        }
        i := i + 1;
      }
      assert group[..i] == group;
    }

    /** Step 2: a css_set for every selected thread, or none. */
    method FindAll(g: Cgroup, sel: seq<nat>, alloc: nat -> bool) returns (found: seq<nat>)
      requires Valid() && held == multiset{} && g in f.css
      requires forall i :: 0 <= i < |sel| ==> sel[i] in tasks
      modifies `csets, `held, `table, `back, `count, `next
      ensures Valid() && |found| <= |sel| && held == multiset(found)
      ensures forall i :: 0 <= i < |found| ==> alloc(sel[i]) || !Lacks(old(View()), g, sel, i)
      ensures |found| < |sel| ==> !alloc(sel[|found|]) && Lacks(old(View()), g, sel, |found|)
      ensures Extends(old(csets), csets)
      ensures forall i :: 0 <= i < |found| ==> Targets(old(View()), g, sel[i], found[i], csets)
    {
      hide Inv, IndexOk, Extends, Targets, Found, Chosen, NoMatch, Lacks, Within;
      found := [];
      WithinRefl(csets);
      ExtendsRefl(csets);
      var i := 0;
      while i < |sel|
        invariant 0 <= i <= |sel| && |found| == i
        invariant Valid() && held == multiset(found)
        invariant Extends(old(csets), csets) && Within(old(csets), found, csets)
        invariant forall k :: 0 <= k < i ==> Targets(old(View()), g, sel[k], found[k], csets)
        invariant forall k :: 0 <= k < i ==> alloc(sel[k]) || !Lacks(old(View()), g, sel, k)
      {
        SelectedIs(View(), g, sel[i]);
        SelectedIs(old(View()), g, sel[i]);
        ghost var s1 := View();
        LacksIs(old(View()), s1, g, sel, found);
        var r := FindCssSet(tasks[sel[i]].cset, g, alloc(sel[i]));
        if r.None? { return; }
        WithinPlus(old(csets), found, s1.csets, s1.held, tasks[sel[i]].cset, g, r.value, csets, held);
        FoundExtends(s1, old(View()), g, sel[i], r.value, View());
        forall k | 0 <= k < i ensures Targets(old(View()), g, sel[k], found[k], csets) {
          TargetsPersist(old(View()), g, sel[k], found[k], s1.csets, csets);
        }
        found := found + [r.value];
        i := i + 1;
      }
    }

    /** out_put_css_set_refs: give every reference back. */
    method PutAll(found: seq<nat>)
      requires Valid() && held == multiset(found)
      modifies `csets, `held, `table, `back, `count
      ensures Valid() && held == multiset{} && SameShape(old(csets), csets)
    {
      hide Inv, IndexOk, SameShape, PutRef;
      var i := 0;
      ShapeRefl(csets);
      while i < |found|
        invariant 0 <= i <= |found|
        invariant Valid() && held == multiset(found[i..]) && SameShape(old(csets), csets)
      {
        assert found[i..] == [found[i]] + found[i + 1..];
        ghost var csets1 := csets;
        ReleaseRef(found[i]);
        PutShape(old(csets), csets1, found[i]);
        i := i + 1;
      }
    }

    /** Step 3, the commit: every selected thread takes over its reference. */
    method MigrateAll(sel: seq<nat>, found: seq<nat>)
      requires Valid() && held == multiset(found) && |found| == |sel| && Distinct(sel)
      requires forall i :: 0 <= i < |sel| ==> sel[i] in tasks && sel[i] != 0 && tasks[sel[i]].phase == Running
      modifies `csets, `tasks, `held, `table, `back, `count
      ensures Valid() && held == multiset{} && SameShape(old(csets), csets) && tasks.Keys == old(tasks).Keys
      ensures forall i :: 0 <= i < |sel| ==> tasks[sel[i]] == Task(found[i], Running)
      ensures forall t :: t in tasks && t !in sel ==> tasks[t] == old(tasks)[t]
    {
      hide Inv, IndexOk, SameShape, MovedSoFar;
      var i := 0;
      MovedNone(tasks, sel, found);
      ShapeRefl(csets);
      while i < |sel|
        invariant 0 <= i <= |sel|
        invariant Valid() && held == multiset(found[i..]) && SameShape(old(csets), csets)
        invariant MovedSoFar(old(tasks), tasks, sel, found, i)
      {
        assert found[i..] == [found[i]] + found[i + 1..];
        MovedStep(old(tasks), tasks, sel, found, i);
        ghost var csets1 := csets;
        MigrateTask(sel[i], found[i]);
        PutShape(old(csets), csets1, old(tasks)[sel[i]].cset);
        i := i + 1;
      }
      MovedEnd(old(tasks), tasks, sel, found);
    }

    /** Step 1 of cgroup_attach_task: ask the controllers in turn, up to the first that refuses. */
    method AskAll(controllers: seq<nat>, agrees: nat -> bool) returns (failed: nat, log: seq<Callback>)
      ensures FirstRefusal(controllers, agrees, failed) && failed <= |controllers|
      ensures if failed < |controllers| then !agrees(controllers[failed])
              else forall i :: 0 <= i < |controllers| ==> agrees(controllers[i])
      ensures log == Calls(CanAttach, controllers[..if failed < |controllers| then failed + 1 else failed])
    {
      failed, log := 0, [];
      while failed < |controllers|
        invariant failed <= |controllers| && log == Calls(CanAttach, controllers[..failed])
        invariant forall i :: 0 <= i < failed ==> agrees(controllers[i])
      {
        CallsPlus(CanAttach, controllers, failed);
        log := log + [Callback(CanAttach, controllers[failed])];
        if !agrees(controllers[failed]) { return; }
        failed := failed + 1;
      }
    }

    /** attach, or cancel_attach, of the first `n` controllers. */
    method CallAll(kind: Kind, controllers: seq<nat>, n: nat, log: seq<Callback>) returns (log': seq<Callback>)
      requires n <= |controllers|
      ensures log' == log + Calls(kind, controllers[..n])
    {
      log' := log;
      var i := 0;
      while i < n
        invariant i <= n && log' == log + Calls(kind, controllers[..i])
      {
        CallsPlus(kind, controllers, i);
        log' := log' + [Callback(kind, controllers[i])];
        i := i + 1;
      }
    }

    /**
     * cgroup_attach_task for the threads `group`; `agrees` is what each controller answers, `alloc` whether
     * there is memory for a css_set when a thread needs one.  All or nothing, and every controller that agreed
     * hears of it.  It fails exactly if a controller refuses, or a new choice meets no memory.
     */
    method Attach(g: Cgroup, group: seq<nat>, controllers: seq<nat>, agrees: nat -> bool, alloc: nat -> bool)
      returns (err: AttachError, log: seq<Callback>)
      requires Valid() && held == multiset{} && g in f.css && Distinct(group)
      requires forall i :: 0 <= i < |group| ==> group[i] in tasks && group[i] != 0
      modifies `csets, `tasks, `held, `table, `back, `count, `next
      ensures Valid() && held == multiset{}
      ensures err != Attached ==> View() == old(View())
      ensures err == Attached ==> AllMoved(old(View()), g, group, View())
      ensures err == Refused <==>
              Movers(old(View()), g, group) != [] && exists i :: 0 <= i < |controllers| && !agrees(controllers[i])
      ensures err == NoMemory <==>
              var sel := Movers(old(View()), g, group);
              err != Refused && exists i :: 0 <= i < |sel| && !alloc(sel[i]) && Lacks(old(View()), g, sel, i)
      ensures if exists t :: t in group && Selected(old(View()), g, t) then Heard(controllers, agrees, err, log) else log == []
    {
      ghost var s0 := View();
      hide Inv, IndexOk, Extends, Targets, Selected, SameShape, Calls, FirstRefusal, Heard, Movers, Lacks, AllMoved;
      var sel := Select(g, group);
      if |sel| == 0 {
        NoneMoved(s0, g, group);
        return Attached, [];
      }
      assert sel[0] in sel && sel[0] in group && Selected(s0, g, sel[0]);
      var failed;
      failed, log := AskAll(controllers, agrees);
      if failed < |controllers| {
        log := CallAll(CancelAttach, controllers, failed, log);
        Hears(controllers, agrees, failed, Refused, log);
        return Refused, log;
      }
      forall i | 0 <= i < |sel| ensures sel[i] in tasks && sel[i] != 0 && tasks[sel[i]].phase == Running {
        assert sel[i] in sel && sel[i] in group;
        SelectedIs(s0, g, sel[i]);
      }
      var found := FindAll(g, sel, alloc);
      ghost var s1 := View();
      if |found| < |sel| {
        PutAll(found);
        RollbackIsExact(s0, s1.csets, View());
        log := CallAll(CancelAttach, controllers, |controllers|, log);
        Hears(controllers, agrees, failed, NoMemory, log);
        return NoMemory, log;
      }
      MigrateAll(sel, found);
      MovedAll(s0, s1.csets, g, group, sel, found, View());
      log := CallAll(DidAttach, controllers, |controllers|, log);
      Hears(controllers, agrees, failed, Attached, log);
      return Attached, log;
    }

    /** Linking the new top cgroup into every css_set, bucket by bucket; `tmp` counts the
        links allocated beforehand from css_set_count. */
    method LinkEverywhere(g: Cgroup) returns (list: seq<nat>)
      requires Indexed()
      modifies `csets, `back
      ensures csets == Linked(old(csets), g)
      ensures back == old(back)[g := list] && ListsAll(list, old(csets))
    {
      hide TableOk, BackOk, LinkedSoFar;
      ghost var at := At(hash, csets);
      list := [];
      var tmp := count;
      LinkedNone(csets, g);
      PassedEnds(table, at);
      var b := 0;
      while b < BUCKETS
        invariant 0 <= b <= BUCKETS && tmp == count - |list| && back == old(back)
        invariant LinkedSoFar(old(csets), csets, g, list) && forall id :: id in list <==> id in Passed(table, at, b, 0)
      {
        var i := 0;
        while i < |table[b]|
          invariant 0 <= i <= |table[b]| && tmp == count - |list| && back == old(back)
          invariant LinkedSoFar(old(csets), csets, g, list) && forall id :: id in list <==> id in Passed(table, at, b, i)
        {
          var id := table[b][i];
          PassedStep(table, at, b, i);
          RoomForLink(old(csets), csets, g, list, id);
          assert tmp > 0;                   // BUG_ON(list_empty(tmp_links))
          tmp := tmp - 1;
          csets := csets[id := csets[id].(links := csets[id].links + [g])];
          list := [id] + list;
          i := i + 1;
        }
        PassedBucket(table, at, b);
        b := b + 1;
      }
      LinkedAll(old(csets), csets, g, list);
      back := back[g := list];
    }

    /** cgroup_mount of a new hierarchy. */
    method MountHierarchy(r: nat, mask: set<nat>)
      requires Valid() && CanMount(f, r, mask)
      modifies this
      ensures Valid() && View() == Mount(old(View()), r, mask)
      ensures tasks == old(tasks) && held == old(held) && Mounted(old(f), old(csets), r, mask, f, csets)
    {
      hide Inv, IndexOk, CanMount, MountFrame, Linked, ListsAll, Mounted;
      ghost var s0 := View();
      ghost var x0 := Index(table, back, count, rootCount, next);
      MountKeepsInv(s0, r, mask);
      MountMeans(s0, r, mask);
      CanMountFrame(s0, r, mask);
      var list := LinkEverywhere(Top(r));
      MountIndexOk(hash, x0, s0, r, mask, list);
      f := MountFrame(f, r, mask);
      rootCount := rootCount + 1;
    }

    /** cgroup_kill_sb: release the links of the hierarchy's top cgroup, then the hierarchy. */
    method KillHierarchy(r: nat)
      requires Valid() && CanUnmount(f, r)
      modifies this
      ensures Valid() && r in old(f.roots) && UniformLinks(old(View())) && View() == Unmount(old(View()), r)
      ensures tasks == old(tasks) && held == old(held) && Unmounted(old(f), old(csets), r, f, csets)
    {
      hide Inv, IndexOk, CanUnmount, UnmountFrame, Unlinked, UnlinkedSoFar, ListsAll, IndexOf, Unmounted;
      ghost var s0 := View();
      ghost var x0 := Index(table, back, count, rootCount, next);
      UnmountKeepsInv(s0, r);
      UnmountReady(hash, x0, s0, r);
      UnmountMeans(s0, r);
      var g, k := Top(r), IndexOf(f.roots, r);
      var list := back[g];
      UnlinkedNone(csets, k);
      var i := 0;
      while i < |list|
        invariant 0 <= i <= |list| && f == old(f) && tasks == old(tasks) && held == old(held)
        invariant x0 == Index(table, back, count, rootCount, next)
        invariant UnlinkedSoFar(s0.csets, csets, k, list[..i])
      {
        var id := list[i];
        UnlinkedStep(s0.csets, csets, k, list, i);
        assert id in s0.csets && s0.csets[id].links[k] == g;
        csets := csets[id := csets[id].(links := Drop(csets[id].links, k))];
        i := i + 1;
      }
      UnlinkedAll(s0.csets, csets, k, list);
      UnmountIndexOk(hash, x0, s0, r);
      back := back - {g};
      rootCount := rootCount - 1;
      f := UnmountFrame(f, r);
    }

    /** Take one css_set out of its bucket, change a pointer, and put it where it now belongs. */
    method Rehash(id: nat, subsys: map<nat, nat>)
      requires TableOk(table, At(hash, csets)) && id in csets
      modifies `csets, `table
      ensures csets == old(csets)[id := old(csets)[id].(subsys := subsys)]
      ensures TableOk(table, At(hash, csets))
      ensures forall b, x :: 0 <= b < BUCKETS && x in old(table[b]) && x != id ==> x in table[b]
    {
      assert |table| == BUCKETS;
      RehashOk(hash, table, csets, id, subsys);
      hide TableOk, At, Without;
      table := HashDel(table, BucketOf(hash, csets[id].subsys), id);
      csets := csets[id := csets[id].(subsys := subsys)];
      table := HashAdd(table, BucketOf(hash, subsys), id);
    }

    /** The rehash loop of cgroup_load_subsys: entries moved ahead of the walk are met again
        and skipped because their pointer is already set. */
    method EntangleAll(ss: nat, c: nat)
      requires TableOk(table, At(hash, csets)) && forall id :: id in csets ==> ss !in csets[id].subsys
      modifies `csets, `table
      ensures csets == Entangled(old(csets), ss, c) && TableOk(table, At(hash, csets))
    {
      hide TableOk, EntangledSoFar, At;
      EntangledNone(csets, ss, c);
      var b := 0;
      while b < BUCKETS
        invariant 0 <= b <= BUCKETS && TableOk(table, At(hash, csets)) && EntangledSoFar(old(csets), csets, ss, c)
        invariant forall id :: id in csets && ss !in csets[id].subsys ==> b <= BucketOf(hash, csets[id].subsys)
      {
        TableSize(table, At(hash, csets));
        var bucket := table[b];             // hash_for_each_safe: head insertions are not seen
        AllInBucket(hash, table, csets, b);
        var i := 0;
        while i < |bucket|
          invariant 0 <= i <= |bucket| && TableOk(table, At(hash, csets)) && EntangledSoFar(old(csets), csets, ss, c)
          invariant forall k :: 0 <= k < |bucket| ==> bucket[k] in csets
          invariant forall id :: id in csets && ss !in csets[id].subsys ==> b <= BucketOf(hash, csets[id].subsys)
          invariant forall id :: id in csets && ss !in csets[id].subsys && BucketOf(hash, csets[id].subsys) == b ==> id in bucket[i..]
        {
          var id := bucket[i];
          assert bucket[i..] == [id] + bucket[i + 1..];
          if ss !in csets[id].subsys {
            EntangledStep(old(csets), csets, ss, c, id);
            Rehash(id, csets[id].subsys[ss := c]);
          }
          i := i + 1;
        }
        b := b + 1;
      }
      EntangledAll(old(csets), csets, ss, c);
    }

    method LoadSubsys(ss: nat, c: nat)
      requires Valid() && ss !in f.owner
      modifies this
      ensures Valid() && Top(DUMMY) in old(f.css) && View() == Load(old(View()), ss, c)
      ensures tasks == old(tasks) && held == old(held)
      ensures var ptrs: map<nat, nat> := old(f.css)[Top(DUMMY)][ss := c];
              f == Frame(old(f.roots), old(f.css)[Top(DUMMY) := ptrs], old(f.owner)[ss := DUMMY])
      ensures csets == map id | id in old(csets) ::
                CssSet(old(csets)[id].refs, old(csets)[id].links, old(csets)[id].subsys[ss := c])
    {
      hide Inv, IndexOk, TableOk, At;
      ghost var s0 := View();
      ghost var x0 := Index(table, back, count, rootCount, next);
      LoadKeepsInv(s0, ss, c);
      LoadReady(hash, x0, s0, ss);
      EntangleAll(ss, c);
      LoadIndexOk(hash, x0, s0, ss, c, table);
      f := LoadFrame(f, ss, c);
    }

    /** cgroup_unload_subsys: rehash every css_set on the dummy top's list, which is all of them. */
    method UnloadSubsys(ss: nat)
      requires Valid() && ss in f.owner && f.owner[ss] == DUMMY
      modifies this
      ensures Valid() && Top(DUMMY) in old(f.css) && View() == Unload(old(View()), ss)
      ensures tasks == old(tasks) && held == old(held)
      ensures f == Frame(old(f.roots), old(f.css)[Top(DUMMY) := old(f.css)[Top(DUMMY)] - {ss}], old(f.owner) - {ss})
      ensures csets == map id | id in old(csets) ::
                CssSet(old(csets)[id].refs, old(csets)[id].links, old(csets)[id].subsys - {ss})
    {
      hide Inv, IndexOk, TableOk, At, DisentangledSoFar, ListsAll;
      ghost var s0 := View();
      ghost var x0 := Index(table, back, count, rootCount, next);
      UnloadKeepsInv(s0, ss);
      UnloadReady(hash, x0, s0);
      var list := back[Top(DUMMY)];
      DisentangledNone(csets, ss);
      var i := 0;
      while i < |list|
        invariant 0 <= i <= |list| && f == old(f) && tasks == old(tasks) && held == old(held)
        invariant x0.(table := table) == Index(table, back, count, rootCount, next)
        invariant TableOk(table, At(hash, csets)) && DisentangledSoFar(s0.csets, csets, ss, list[..i])
      {
        DisentangledStep(s0.csets, csets, ss, list, i);
        Rehash(list[i], csets[list[i]].subsys - {ss});
        i := i + 1;
      }
      DisentangledAll(s0.csets, csets, ss, list);
      UnloadIndexOk(hash, x0, s0, ss, table);
      f := UnloadFrame(f, ss);
    }
  }

  /** `id` is held once more. It stands for the choice of `old0` with `g` in its hierarchy's place, no other
      css_set changed, and it is new, with that one reference, only if no css_set stood for the choice. */
  ghost predicate Chosen(csets: map<nat, CssSet>, held: multiset<nat>, old0: nat, g: Cgroup, id: nat,
                         csets': map<nat, CssSet>, held': multiset<nat>)
  {
    && old0 in csets && csets'.Keys == csets.Keys + {id} && held' == held + multiset{id}
    && (forall x :: x in csets && x != id ==> csets'[x] == csets[x])
    && Substituted(csets[old0].links, g, csets'[id].links)
    && (if id in csets then csets'[id] == csets[id].(refs := csets[id].refs + 1) else csets'[id].refs == 1)
    && ((exists x :: x in csets && csets[x].links == csets'[id].links) ==> id in csets)
  }

  predicate Substituted(links: seq<Cgroup>, g: Cgroup, got: seq<Cgroup>) {
    |got| == |links| && forall i :: 0 <= i < |got| ==> got[i] == if links[i].root == g.root then g else links[i]
  }

  lemma TakenIsChosen(csets: map<nat, CssSet>, held: multiset<nat>, old0: nat, g: Cgroup, id: nat)
    requires old0 in csets && id in csets && Substituted(csets[old0].links, g, csets[id].links)
    ensures Chosen(csets, held, old0, g, id, GetRef(csets, id), held + multiset{id})
  {
  }

  lemma NewIsChosen(csets: map<nat, CssSet>, held: multiset<nat>, old0: nat, g: Cgroup, id: nat, c: CssSet)
    requires old0 in csets && id !in csets && c.refs == 1 && Substituted(csets[old0].links, g, c.links)
    requires forall x :: x in csets ==> csets[x].links != c.links
    ensures Chosen(csets, held, old0, g, id, csets[id := c], held + multiset{id})
  {
  }

  lemma WantedIs(s: State, old0: nat, g: Cgroup)
    requires Inv(s) && CanSubst(s, old0, g)
    ensures old0 in s.csets && g.root in s.f.roots && |s.csets[old0].links| == |s.f.roots|
    ensures Substituted(s.csets[old0].links, g, Subst(s.f.roots, s.csets[old0].links, g))
  {
    hide Inv, Subst, CssOk, CsetOk;
    AlignedLinks(s, old0);
    SubstAt(s.f.roots, s.csets[old0].links, g);
  }

  lemma FoundMeans(s: State, old0: nat, g: Cgroup, id: nat, t: State)
    requires Inv(s) && Found(s, old0, g, id, t)
    ensures Chosen(s.csets, s.held, old0, g, id, t.csets, t.held)
  {
    hide Inv, Chosen, Subst, Template, CanSubst, Substituted;
    WantedIs(s, old0, g);
    if Matches(s, old0, g, id) {
      TakenIsChosen(s.csets, s.held, old0, g, id);
    } else {
      var c := NewCset(s, old0, g);
      forall x | x in s.csets ensures s.csets[x].links != c.links { assert !Matches(s, old0, g, x); }
      NewIsChosen(s.csets, s.held, old0, g, id, c);
    }
  }

  /** The hierarchy `r` is last, owns `mask`, takes over their root css, and every css_set is linked to its top. */
  ghost predicate Mounted(f: Frame, csets: map<nat, CssSet>, r: nat, mask: set<nat>, f': Frame, csets': map<nat, CssSet>) {
    && f'.roots == f.roots + [r] && f'.css.Keys == f.css.Keys + {Top(r)} && f'.owner.Keys == f.owner.Keys
    && (forall g :: g in f.css && g != Top(r) ==> f'.css[g] == f.css[g])
    && Top(DUMMY) in f.css && f'.css[Top(r)].Keys == mask
    && (forall ss :: ss in mask ==> ss in f.css[Top(DUMMY)] && f'.css[Top(r)][ss] == f.css[Top(DUMMY)][ss])
    && (forall ss :: ss in f.owner ==> f'.owner[ss] == if ss in mask then r else f.owner[ss])
    && csets'.Keys == csets.Keys
    && (forall id :: id in csets ==> csets'[id] == CssSet(csets[id].refs, csets[id].links + [Top(r)], csets[id].subsys))
  }

  lemma MountMeans(s: State, r: nat, mask: set<nat>)
    requires Inv(s) && CanMount(s.f, r, mask)
    ensures Mounted(s.f, s.csets, r, mask, Mount(s, r, mask).f, Mount(s, r, mask).csets)
  {
    hide CsetsOk, Unique, InitOk, Counted;
  }

  /** The hierarchy `r` is gone, with its top cgroup, from its place in every list; its subsystems are the dummy's. */
  ghost predicate Unmounted(f: Frame, csets: map<nat, CssSet>, r: nat, f': Frame, csets': map<nat, CssSet>) {
    && f'.css == f.css - {Top(r)} && f'.owner.Keys == f.owner.Keys
    && (forall ss :: ss in f.owner ==> f'.owner[ss] == if f.owner[ss] == r then DUMMY else f.owner[ss])
    && csets'.Keys == csets.Keys
    && exists k: nat :: k < |f.roots| && f.roots[k] == r && UnmountedAt(f, csets, k, f', csets')
  }

  ghost predicate UnmountedAt(f: Frame, csets: map<nat, CssSet>, k: nat, f': Frame, csets': map<nat, CssSet>)
    requires k < |f.roots| && csets'.Keys == csets.Keys
  {
    && f'.roots == f.roots[..k] + f.roots[k + 1..]
    && forall id :: id in csets ==>
         && k < |csets[id].links| && csets[id].links[k] == Top(f.roots[k])
         && csets'[id] == CssSet(csets[id].refs, csets[id].links[..k] + csets[id].links[k + 1..], csets[id].subsys)
  }

  lemma UnmountMeans(s: State, r: nat)
    requires Inv(s) && CanUnmount(s.f, r) && UniformLinks(s)
    ensures Unmounted(s.f, s.csets, r, Unmount(s, r).f, Unmount(s, r).csets)
  {
    hide Inv, IndexOf, Unmounted;
    forall id | id in s.csets ensures s.csets[id].links[IndexOf(s.f.roots, r)] == Top(r) { TopLinked(s, r, id); }
    DroppedIsUnmounted(s.f, s.csets, r);
  }

  lemma DroppedIsUnmounted(f: Frame, csets: map<nat, CssSet>, r: nat)
    requires r in f.roots
    requires forall id :: id in csets ==>
               |csets[id].links| == |f.roots| && csets[id].links[IndexOf(f.roots, r)] == Top(r)
    ensures Unmounted(f, csets, r, UnmountFrame(f, r), Unlinked(csets, IndexOf(f.roots, r)))
  {
    var k := IndexOf(f.roots, r);
    hide IndexOf;
    assert UnmountedAt(f, csets, k, UnmountFrame(f, r), Unlinked(csets, k));
  }

  lemma TopLinked(s: State, r: nat, id: nat)
    requires Inv(s) && CanUnmount(s.f, r) && id in s.csets && |s.csets[id].links| == |s.f.roots|
    ensures s.csets[id].links[IndexOf(s.f.roots, r)] == Top(r)
  {
    AlignedLinks(s, id);
    hide Inv, CanSubstAny, IndexOf;
  }

  /** The css_sets in `list` have lost their pointer for `ss`. */
  ghost predicate DisentangledSoFar(csets0: map<nat, CssSet>, csets: map<nat, CssSet>, ss: nat, list: seq<nat>) {
    && csets.Keys == csets0.Keys
    && forall id :: id in csets ==>
         csets[id] == if id in list then csets0[id].(subsys := csets0[id].subsys - {ss}) else csets0[id]
  }

  lemma DisentangledNone(csets: map<nat, CssSet>, ss: nat)
    ensures DisentangledSoFar(csets, csets, ss, [])
  {
  }

  lemma DisentangledStep(csets0: map<nat, CssSet>, csets: map<nat, CssSet>, ss: nat, list: seq<nat>, i: nat)
    requires i < |list| && DisentangledSoFar(csets0, csets, ss, list[..i]) && ListsAll(list, csets0)
    ensures list[i] in csets
    ensures DisentangledSoFar(csets0, csets[list[i] := csets[list[i]].(subsys := csets[list[i]].subsys - {ss})], ss, list[..i + 1])
  {
  }

  lemma DisentangledAll(csets0: map<nat, CssSet>, csets: map<nat, CssSet>, ss: nat, list: seq<nat>)
    requires DisentangledSoFar(csets0, csets, ss, list[..|list|]) && ListsAll(list, csets0)
    ensures csets == Disentangled(csets0, ss)
  {
    assert list[..|list|] == list;
  }

  /** Every css_set is on the dummy top's list. */
  lemma UnloadReady(hash: map<nat, nat> -> nat, x: Index, s: State)
    requires Inv(s) && IndexOk(hash, x, s.f, s.csets)
    ensures Top(DUMMY) in s.f.css && Top(DUMMY) in x.back && ListsAll(x.back[Top(DUMMY)], s.csets)
    ensures TableOk(x.table, At(hash, s.csets))
  {
    hide Inv, TableOk, BackOk, ListsAll, IndexOf;
    forall id | id in s.csets ensures Top(DUMMY) in s.csets[id].links {
      DummyLinked(s, id);
      assert s.csets[id].links[0] in s.csets[id].links;
    }
    InitLinked(s);
    BackListsAll(x.back, s.csets, Top(DUMMY));
  }

  lemma DummyLinked(s: State, id: nat)
    requires Inv(s) && id in s.csets
    ensures |s.csets[id].links| > 0 && s.csets[id].links[0] == Top(DUMMY) && Top(DUMMY) in s.f.css
  {
    hide Counted, Unique, CssAt, IndexOf;
    assert CsetOk(s.f, s.csets[id].links, s.csets[id].subsys);
    DummyLink(s.f, s.csets[id].links);
  }

  lemma InitLinked(s: State)
    requires Inv(s)
    ensures INIT in s.csets && Top(DUMMY) in s.f.css
  {
    hide CsetsOk, Counted, Unique;
  }

  lemma LoadReady(hash: map<nat, nat> -> nat, x: Index, s: State, ss: nat)
    requires Inv(s) && IndexOk(hash, x, s.f, s.csets) && ss !in s.f.owner
    ensures Top(DUMMY) in s.f.css && TableOk(x.table, At(hash, s.csets))
    ensures forall id :: id in s.csets ==> ss !in s.csets[id].subsys
  {
    hide Inv, TableOk, BackOk;
    OwnedOnly(s);
    InitLinked(s);
  }

  lemma SoleEntry(b: nat, id: nat)
    requires b < BUCKETS
    ensures TableOk(seq(BUCKETS, k => [])[b := [id]], map[id := b])
  {
  }

  lemma BootIndexOk(hash: map<nat, nat> -> nat, ptrs: map<nat, nat>)
    ensures IndexOk(hash, Index(seq(BUCKETS, b => [])[BucketOf(hash, ptrs) := [INIT]], map[Top(DUMMY) := [INIT]], 1, 1, 1),
                    Boot(ptrs).f, Boot(ptrs).csets)
  {
    assert BackOk(map[Top(DUMMY) := [INIT]], Boot(ptrs).csets);
    SoleEntry(BucketOf(hash, ptrs), INIT);
    hide TableOk, BackOk, BucketOf;
    assert At(hash, Boot(ptrs).csets) == map[INIT := BucketOf(hash, ptrs)];
    assert Boot(ptrs).csets.Keys == {INIT};
  }

  lemma InvParts(s: State)
    requires Inv(s)
    ensures FrameOk(s.f) && CsetsOk(s.f, s.csets)
  {
  }

  lemma CreateBackOk(back: map<Cgroup, seq<nat>>, csets: map<nat, CssSet>, g: Cgroup)
    requires BackOk(back, csets) && forall id :: id in csets ==> g !in csets[id].links
    ensures BackOk(back[g := []], csets)
  {
  }

  lemma CreateIndexOk(hash: map<nat, nat> -> nat, x: Index, s: State, g: Cgroup, ptrs: map<nat, nat>)
    requires FrameOk(s.f) && CsetsOk(s.f, s.csets) && IndexOk(hash, x, s.f, s.csets) && g !in s.f.css
    ensures IndexOk(hash, x.(back := x.back[g := []]), s.f.(css := s.f.css[g := ptrs]), s.csets)
  {
    hide TableOk, At, FrameOk, CsetsOk, BackOk;
    LinksLive(s.f, s.csets);
    CreateBackOk(x.back, s.csets, g);
  }

  lemma DestroyBackOk(back: map<Cgroup, seq<nat>>, csets: map<nat, CssSet>, g: Cgroup)
    requires BackOk(back, csets) && g in back
    ensures back[g] == [] <==> forall id :: id in csets ==> g !in csets[id].links
    ensures BackOk(back - {g}, csets)
  {
    if back[g] != [] {
      var id := back[g][0];
      assert id in csets && g in csets[id].links;
    }
  }

  lemma DestroyIndexOk(hash: map<nat, nat> -> nat, x: Index, s: State, g: Cgroup)
    requires IndexOk(hash, x, s.f, s.csets) && g in s.f.css && g.num != 0
    ensures g in x.back && (CanDestroy(s, g) <==> x.back[g] == [])
    ensures IndexOk(hash, x.(back := x.back - {g}), s.f.(css := s.f.css - {g}), s.csets)
  {
    hide TableOk, At, BackOk;
    DestroyBackOk(x.back, s.csets, g);
  }

  lemma RehashOk(hash: map<nat, nat> -> nat, table: seq<seq<nat>>, csets: map<nat, CssSet>, id: nat, subsys: map<nat, nat>)
    requires TableOk(table, At(hash, csets)) && id in csets && |table| == BUCKETS
    ensures TableOk(HashAdd(HashDel(table, BucketOf(hash, csets[id].subsys), id), BucketOf(hash, subsys), id),
                    At(hash, csets[id := csets[id].(subsys := subsys)]))
  {
    hide TableOk, HashAdd, HashDel, BucketOf;
    AtDel(hash, csets, id);
    HashDelOk(table, At(hash, csets), id);
    var at := At(hash, csets) - {id};
    HashAddOk(HashDel(table, BucketOf(hash, csets[id].subsys), id), at, BucketOf(hash, subsys), id);
    assert At(hash, csets[id := csets[id].(subsys := subsys)]) == at[id := BucketOf(hash, subsys)];
  }

  lemma TableSize(table: seq<seq<nat>>, at: map<nat, nat>)
    requires TableOk(table, at)
    ensures |table| == BUCKETS
  {
  }

  lemma AllInBucket(hash: map<nat, nat> -> nat, table: seq<seq<nat>>, csets: map<nat, CssSet>, b: nat)
    requires TableOk(table, At(hash, csets)) && b < BUCKETS && |table| == BUCKETS
    ensures forall k :: 0 <= k < |table[b]| ==> table[b][k] in csets
    ensures forall id :: id in csets && BucketOf(hash, csets[id].subsys) == b ==> id in table[b]
  {
    forall k | 0 <= k < |table[b]| ensures table[b][k] in csets { assert table[b][k] in At(hash, csets); }
    forall id | id in csets && BucketOf(hash, csets[id].subsys) == b ensures id in table[b] {
      assert id in At(hash, csets);
    }
  }

  /** The css_sets that have a pointer for `ss` are the ones already changed. */
  ghost predicate EntangledSoFar(csets0: map<nat, CssSet>, csets: map<nat, CssSet>, ss: nat, c: nat) {
    && csets.Keys == csets0.Keys
    && (forall id :: id in csets0 ==> ss !in csets0[id].subsys)
    && forall id :: id in csets ==>
         csets[id] == if ss in csets[id].subsys then csets0[id].(subsys := csets0[id].subsys[ss := c]) else csets0[id]
  }

  lemma EntangledNone(csets: map<nat, CssSet>, ss: nat, c: nat)
    requires forall id :: id in csets ==> ss !in csets[id].subsys
    ensures EntangledSoFar(csets, csets, ss, c)
  {
  }

  lemma EntangledStep(csets0: map<nat, CssSet>, csets: map<nat, CssSet>, ss: nat, c: nat, id: nat)
    requires EntangledSoFar(csets0, csets, ss, c) && id in csets && ss !in csets[id].subsys
    ensures EntangledSoFar(csets0, csets[id := csets[id].(subsys := csets[id].subsys[ss := c])], ss, c)
  {
  }

  lemma EntangledAll(csets0: map<nat, CssSet>, csets: map<nat, CssSet>, ss: nat, c: nat)
    requires EntangledSoFar(csets0, csets, ss, c) && forall id :: id in csets ==> ss in csets[id].subsys
    ensures csets == Entangled(csets0, ss, c)
  {
  }

  /** A css_set has pointers for loaded subsystems only. */
  lemma OwnedOnly(s: State)
    requires Inv(s)
    ensures forall id, ss :: id in s.csets && ss in s.csets[id].subsys ==> ss in s.f.owner
  {
    hide FrameOk, Counted, Unique, InitOk, Aligned, CssAt;
    forall id | id in s.csets ensures s.csets[id].subsys.Keys == s.f.owner.Keys {
      assert CsetOk(s.f, s.csets[id].links, s.csets[id].subsys);
    }
  }

  lemma LoadIndexOk(hash: map<nat, nat> -> nat, x: Index, s: State, ss: nat, c: nat, table: seq<seq<nat>>)
    requires IndexOk(hash, x, s.f, s.csets) && Top(DUMMY) in s.f.css && TableOk(table, At(hash, Entangled(s.csets, ss, c)))
    ensures IndexOk(hash, x.(table := table), LoadFrame(s.f, ss, c), Entangled(s.csets, ss, c))
  {
    hide TableOk, At;
    assert Entangled(s.csets, ss, c).Keys == s.csets.Keys;
  }

  lemma UnloadIndexOk(hash: map<nat, nat> -> nat, x: Index, s: State, ss: nat, table: seq<seq<nat>>)
    requires IndexOk(hash, x, s.f, s.csets) && Top(DUMMY) in s.f.css && TableOk(table, At(hash, Disentangled(s.csets, ss)))
    ensures IndexOk(hash, x.(table := table), UnloadFrame(s.f, ss), Disentangled(s.csets, ss))
  {
    hide TableOk, At;
    assert Disentangled(s.csets, ss).Keys == s.csets.Keys;
  }

  /** The css_sets in `list` have lost their link at position `k`. */
  ghost predicate UnlinkedSoFar(csets0: map<nat, CssSet>, csets: map<nat, CssSet>, k: nat, list: seq<nat>) {
    && csets.Keys == csets0.Keys && (forall id :: id in csets0 ==> k < |csets0[id].links|)
    && forall id :: id in csets ==> csets[id] == if id in list then csets0[id].(links := Drop(csets0[id].links, k)) else csets0[id]
  }

  lemma UnlinkedNone(csets: map<nat, CssSet>, k: nat)
    requires forall id :: id in csets ==> k < |csets[id].links|
    ensures UnlinkedSoFar(csets, csets, k, [])
  {
  }

  lemma UnlinkedStep(csets0: map<nat, CssSet>, csets: map<nat, CssSet>, k: nat, list: seq<nat>, i: nat)
    requires i < |list| && UnlinkedSoFar(csets0, csets, k, list[..i]) && ListsAll(list, csets0)
    ensures list[i] in csets0 && list[i] in csets && csets[list[i]] == csets0[list[i]] && k < |csets[list[i]].links|
    ensures UnlinkedSoFar(csets0, csets[list[i] := csets[list[i]].(links := Drop(csets[list[i]].links, k))], k, list[..i + 1])
  {
  }

  lemma UnlinkedAll(csets0: map<nat, CssSet>, csets: map<nat, CssSet>, k: nat, list: seq<nat>)
    requires UnlinkedSoFar(csets0, csets, k, list[..|list|]) && ListsAll(list, csets0)
    ensures csets == Unlinked(csets0, k)
  {
  }

  /** Every css_set has the lone cgroup of the hierarchy at the hierarchy's position. */
  lemma LoneLink(s: State, r: nat, id: nat)
    requires Inv(s) && CanUnmount(s.f, r) && id in s.csets
    ensures r in s.f.roots && |s.csets[id].links| == |s.f.roots| && s.csets[id].links[IndexOf(s.f.roots, r)] == Top(r)
  {
    hide Inv, IndexOf, CanSubstAny;
    AlignedLinks(s, id);
    assert s.csets[id].links[IndexOf(s.f.roots, r)] in s.f.css;
  }

  lemma UnmountReady(hash: map<nat, nat> -> nat, x: Index, s: State, r: nat)
    requires Inv(s) && IndexOk(hash, x, s.f, s.csets) && CanUnmount(s.f, r)
    ensures r in s.f.roots && Top(r) in x.back && UniformLinks(s)
    ensures forall id :: id in s.csets ==> IndexOf(s.f.roots, r) < |s.csets[id].links| && s.csets[id].links[IndexOf(s.f.roots, r)] == Top(r)
    ensures ListsAll(x.back[Top(r)], s.csets)
  {
    hide Inv, TableOk, BackOk, IndexOf, ListsAll, CanUnmount;
    TopLive(s, r);
    forall id | id in s.csets
      ensures IndexOf(s.f.roots, r) < |s.csets[id].links| == |s.f.roots| && s.csets[id].links[IndexOf(s.f.roots, r)] == Top(r)
    {
      LoneLink(s, r, id);
    }
    BackListsAll(x.back, s.csets, Top(r));
  }

  lemma TopLive(s: State, r: nat)
    requires Inv(s) && CanUnmount(s.f, r)
    ensures r in s.f.roots && Top(r) in s.f.css
  {
    hide CsetsOk, Counted, Unique, CssOk, InitOk;
  }

  lemma BackListsAll(back: map<Cgroup, seq<nat>>, csets: map<nat, CssSet>, g: Cgroup)
    requires BackOk(back, csets) && g in back && forall id :: id in csets ==> g in csets[id].links
    ensures ListsAll(back[g], csets)
  {
  }

  lemma UnmountBackOk(back: map<Cgroup, seq<nat>>, csets: map<nat, CssSet>, k: nat, g: Cgroup)
    requires BackOk(back, csets) && forall id :: id in csets ==> k < |csets[id].links| && csets[id].links[k] == g
    ensures BackOk(back - {g}, Unlinked(csets, k))
  {
  }

  lemma UnmountIndexOk(hash: map<nat, nat> -> nat, x: Index, s: State, r: nat)
    requires Inv(s) && IndexOk(hash, x, s.f, s.csets) && CanUnmount(s.f, r) && r in s.f.roots && UniformLinks(s)
    ensures IndexOk(hash, Index(x.table, x.back - {Top(r)}, x.count, x.rootCount - 1, x.next),
                    UnmountFrame(s.f, r), Unlinked(s.csets, IndexOf(s.f.roots, r)))
  {
    hide Inv, TableOk, BackOk, IndexOf, CanUnmount;
    UnmountReady(hash, x, s, r);
    var k := IndexOf(s.f.roots, r);
    UnmountBackOk(x.back, s.csets, k, Top(r));
    var csets' := Unlinked(s.csets, k);
    assert At(hash, csets') == At(hash, s.csets);
    assert csets'.Keys == s.csets.Keys;
  }

  /** What a table walk has passed when it stands at entry `i` of bucket `b`. */
  ghost function Passed(table: seq<seq<nat>>, at: map<nat, nat>, b: nat, i: nat): set<nat>
    requires |table| == BUCKETS && (b < BUCKETS ==> i <= |table[b]|)
  {
    set id | id in at && (at[id] < b || (at[id] == b < BUCKETS && id in table[b][..i]))
  }

  lemma PassedEnds(table: seq<seq<nat>>, at: map<nat, nat>)
    requires TableOk(table, at)
    ensures |table| == BUCKETS && Passed(table, at, 0, 0) == {} && Passed(table, at, BUCKETS, 0) == at.Keys
  {
  }

  lemma PassedStep(table: seq<seq<nat>>, at: map<nat, nat>, b: nat, i: nat)
    requires TableOk(table, at) && b < BUCKETS && i < |table[b]|
    ensures table[b][i] in at && table[b][i] !in Passed(table, at, b, i)
    ensures Passed(table, at, b, i + 1) == Passed(table, at, b, i) + {table[b][i]}
  {
  }

  lemma PassedBucket(table: seq<seq<nat>>, at: map<nat, nat>, b: nat)
    requires TableOk(table, at) && b < BUCKETS
    ensures Passed(table, at, b, |table[b]|) == Passed(table, at, b + 1, 0)
  {
  }

  /** The css_sets in `list` have been linked to `g`. */
  ghost predicate LinkedSoFar(csets0: map<nat, CssSet>, csets: map<nat, CssSet>, g: Cgroup, list: seq<nat>) {
    && csets.Keys == csets0.Keys && Distinct(list)
    && forall id :: id in csets ==> csets[id] == if id in list then csets0[id].(links := csets0[id].links + [g]) else csets0[id]
  }

  lemma LinkedNone(csets: map<nat, CssSet>, g: Cgroup)
    ensures LinkedSoFar(csets, csets, g, [])
  {
  }

  lemma RoomForLink(csets0: map<nat, CssSet>, csets: map<nat, CssSet>, g: Cgroup, list: seq<nat>, id: nat)
    requires LinkedSoFar(csets0, csets, g, list) && id in csets0 && id !in list && forall x :: x in list ==> x in csets0
    ensures |list| < |csets0| && id in csets
    ensures LinkedSoFar(csets0, csets[id := csets[id].(links := csets[id].links + [g])], g, [id] + list)
  {
    ConcatDistinct([id], list);
    SizeOfDistinct([id] + list);
    SubsetSize((set x | x in [id] + list), csets0.Keys);
  }

  lemma LinkedAll(csets0: map<nat, CssSet>, csets: map<nat, CssSet>, g: Cgroup, list: seq<nat>)
    requires LinkedSoFar(csets0, csets, g, list) && forall id :: id in list <==> id in csets0
    ensures csets == Linked(csets0, g) && ListsAll(list, csets0)
  {
  }

  ghost predicate ListsAll(l: seq<nat>, csets: map<nat, CssSet>) {
    Distinct(l) && forall id :: id in l <==> id in csets
  }

  lemma CanMountFrame(s: State, r: nat, mask: set<nat>)
    requires Inv(s) && CanMount(s.f, r, mask)
    ensures FrameOk(s.f) && Top(r) !in s.f.css && Top(DUMMY) in s.f.css && forall ss :: ss in mask ==> ss in s.f.css[Top(DUMMY)]
  {
    hide CsetsOk, Unique, Counted, InitOk;
  }

  lemma MountBackOk(back: map<Cgroup, seq<nat>>, csets: map<nat, CssSet>, g: Cgroup, l: seq<nat>)
    requires BackOk(back, csets) && g !in back && ListsAll(l, csets)
    ensures BackOk(back[g := l], Linked(csets, g))
  {
  }

  lemma MountIndexOk(hash: map<nat, nat> -> nat, x: Index, s: State, r: nat, mask: set<nat>, l: seq<nat>)
    requires Inv(s) && IndexOk(hash, x, s.f, s.csets) && CanMount(s.f, r, mask) && ListsAll(l, s.csets)
    ensures FrameOk(s.f)
    ensures IndexOk(hash, Index(x.table, x.back[Top(r) := l], x.count, x.rootCount + 1, x.next),
                    MountFrame(s.f, r, mask), Linked(s.csets, Top(r)))
  {
    hide Inv, TableOk, CanMount, BackOk, ListsAll, FrameOk;
    CanMountFrame(s, r, mask);
    MountBackOk(x.back, s.csets, Top(r), l);
    assert At(hash, Linked(s.csets, Top(r))) == At(hash, s.csets);
    assert Linked(s.csets, Top(r)).Keys == s.csets.Keys;
  }

  /** The first `i` selected threads have been repointed. */
  ghost predicate MovedSoFar(tasks0: map<nat, Task>, tasks: map<nat, Task>, sel: seq<nat>, found: seq<nat>, i: nat) {
    && i <= |sel| == |found| && tasks.Keys == tasks0.Keys
    && (forall k :: 0 <= k < i ==> sel[k] in tasks && tasks[sel[k]] == Task(found[k], Running))
    && (forall t :: t in tasks && t !in sel[..i] ==> tasks[t] == tasks0[t])
  }

  lemma MovedNone(tasks: map<nat, Task>, sel: seq<nat>, found: seq<nat>)
    requires |sel| == |found|
    ensures MovedSoFar(tasks, tasks, sel, found, 0)
  {
  }

  lemma MovedStep(tasks0: map<nat, Task>, tasks: map<nat, Task>, sel: seq<nat>, found: seq<nat>, i: nat)
    requires MovedSoFar(tasks0, tasks, sel, found, i) && i < |sel| && Distinct(sel) && sel[i] in tasks0
    ensures sel[i] in tasks && tasks[sel[i]] == tasks0[sel[i]]
    ensures MovedSoFar(tasks0, tasks[sel[i] := Task(found[i], Running)], sel, found, i + 1)
  {
  }

  lemma MovedEnd(tasks0: map<nat, Task>, tasks: map<nat, Task>, sel: seq<nat>, found: seq<nat>)
    requires MovedSoFar(tasks0, tasks, sel, found, |sel|)
    ensures |sel| == |found| && tasks.Keys == tasks0.Keys
    ensures forall i :: 0 <= i < |sel| ==> sel[i] in tasks && tasks[sel[i]] == Task(found[i], Running)
    ensures forall t :: t in tasks && t !in sel ==> tasks[t] == tasks0[t]
  {
  }

  lemma ShapeRefl(csets: map<nat, CssSet>)
    ensures SameShape(csets, csets)
  {
  }

  lemma PutShape(csets0: map<nat, CssSet>, csets: map<nat, CssSet>, id: nat)
    requires SameShape(csets0, csets) && id in csets
    ensures SameShape(csets0, PutRef(csets, id))
  {
  }

  datatype AttachError = Attached | Refused | NoMemory

  /** Callbacks into the controllers; one without a callback agrees and does nothing. */
  datatype Kind = CanAttach | CancelAttach | DidAttach
  datatype Callback = Callback(kind: Kind, ss: nat)

  function Calls(kind: Kind, controllers: seq<nat>): (r: seq<Callback>)
    ensures |r| == |controllers| && forall i :: 0 <= i < |r| ==> r[i] == Callback(kind, controllers[i])
  {
    seq(|controllers|, i requires 0 <= i < |controllers| => Callback(kind, controllers[i]))
  }

  lemma CallsPlus(kind: Kind, controllers: seq<nat>, i: nat)
    requires i < |controllers|
    ensures Calls(kind, controllers[..i + 1]) == Calls(kind, controllers[..i]) + [Callback(kind, controllers[i])]
  {
  }

  /** The position of the first controller that refuses, or the number of controllers. */
  ghost predicate FirstRefusal(controllers: seq<nat>, agrees: nat -> bool, n: nat) {
    && n <= |controllers| && (forall i :: 0 <= i < n ==> agrees(controllers[i]))
    && (n < |controllers| ==> !agrees(controllers[n]))
  }

  /** What the controllers hear when `n` of them agreed: the question, and then the outcome. */
  ghost predicate HeardWith(controllers: seq<nat>, n: nat, err: AttachError, log: seq<Callback>) {
    && n <= |controllers| && (n < |controllers| <==> err == Refused)
    && log == Calls(CanAttach, controllers[..if n < |controllers| then n + 1 else n])
              + Calls(if err == Attached then DidAttach else CancelAttach, controllers[..n])
  }

  ghost predicate Heard(controllers: seq<nat>, agrees: nat -> bool, err: AttachError, log: seq<Callback>) {
    exists n: nat :: FirstRefusal(controllers, agrees, n) && HeardWith(controllers, n, err, log)
  }

  lemma Hears(controllers: seq<nat>, agrees: nat -> bool, n: nat, err: AttachError, log: seq<Callback>)
    requires FirstRefusal(controllers, agrees, n) && HeardWith(controllers, n, err, log)
    ensures Heard(controllers, agrees, err, log)
  {
  }

  /** A controller is told the outcome exactly once if it was asked and agreed, and otherwise never. */
  lemma ToldOnce(controllers: seq<nat>, agrees: nat -> bool, err: AttachError, log: seq<Callback>, ss: nat)
    requires Distinct(controllers) && Heard(controllers, agrees, err, log)
    ensures var told := Callback(if err == Attached then DidAttach else CancelAttach, ss);
            multiset(log)[told] == if Callback(CanAttach, ss) in log && agrees(ss) then 1 else 0
    ensures multiset(log)[Callback(if err == Attached then CancelAttach else DidAttach, ss)] == 0
  {
    hide HeardWith;
    var n: nat :| FirstRefusal(controllers, agrees, n) && HeardWith(controllers, n, err, log);
    var told := Callback(if err == Attached then DidAttach else CancelAttach, ss);
    HeardCount(controllers, n, err, log, Callback(CanAttach, ss));
    HeardCount(controllers, n, err, log, told);
    HeardCount(controllers, n, err, log, Callback(if err == Attached then CancelAttach else DidAttach, ss));
    assert ss in controllers[..n] <==> ss in controllers[..if n < |controllers| then n + 1 else n] && agrees(ss);
  }

  lemma HeardCount(controllers: seq<nat>, n: nat, err: AttachError, log: seq<Callback>, c: Callback)
    requires Distinct(controllers) && HeardWith(controllers, n, err, log)
    ensures multiset(log)[c] ==
            (if c.kind == CanAttach && c.ss in controllers[..if n < |controllers| then n + 1 else n] then 1 else 0)
            + if c.kind == (if err == Attached then DidAttach else CancelAttach) && c.ss in controllers[..n] then 1 else 0
  {
    var a := Calls(CanAttach, controllers[..if n < |controllers| then n + 1 else n]);
    var b := Calls(if err == Attached then DidAttach else CancelAttach, controllers[..n]);
    CallsCount(CanAttach, controllers[..if n < |controllers| then n + 1 else n], c);
    CallsCount(if err == Attached then DidAttach else CancelAttach, controllers[..n], c);
    assert multiset(log) == multiset(a) + multiset(b);
  }

  lemma {:induction false} CallsCount(kind: Kind, controllers: seq<nat>, c: Callback)
    requires Distinct(controllers)
    ensures multiset(Calls(kind, controllers))[c] == if c.kind == kind && c.ss in controllers then 1 else 0
  {
    if controllers != [] {
      var last := |controllers| - 1;
      var most := controllers[..last];
      CallsCount(kind, most, c);
      CallsPlus(kind, controllers, last);
      assert controllers[..last + 1] == controllers;
      assert Calls(kind, controllers) == Calls(kind, most) + [Callback(kind, controllers[last])];
    }
  }

  /** Every selected thread is in its old choice with `g` substituted; nothing else moved. */
  ghost predicate AllMoved(s: State, g: Cgroup, group: seq<nat>, t: State) {
    && t.f == s.f && t.tasks.Keys == s.tasks.Keys
    && (forall x :: x in s.tasks && !(x in group && Selected(s, g, x)) ==> t.tasks[x] == s.tasks[x])
    && (forall x :: x in group && Selected(s, g, x) ==>
          x in t.tasks && t.tasks[x].phase == Running && Targets(s, g, x, t.tasks[x].cset, t.csets))
    && (forall id :: id in s.csets && id in t.csets ==> t.csets[id].links == s.csets[id].links)
  }

  lemma NoneMoved(s: State, g: Cgroup, group: seq<nat>)
    requires forall t :: t in group ==> !Selected(s, g, t)
    ensures AllMoved(s, g, group, s)
  {
  }

  /** Taking and putting back references leaves no trace. */
  lemma RollbackIsExact(s: State, csets1: map<nat, CssSet>, t: State)
    requires Inv(s) && Inv(t) && t.f == s.f && t.tasks == s.tasks && s.held == multiset{} && t.held == multiset{}
    requires Extends(s.csets, csets1) && SameShape(csets1, t.csets)
    ensures t == s
  {
    hide Inv;
    TasksDetermineCsets(s, t);
  }

  lemma MovedAll(s: State, csets1: map<nat, CssSet>, g: Cgroup, group: seq<nat>, sel: seq<nat>, found: seq<nat>, t: State)
    requires Inv(t) && t.f == s.f && t.tasks.Keys == s.tasks.Keys && |found| == |sel|
    requires Extends(s.csets, csets1) && SameShape(csets1, t.csets)
    requires forall x :: x in sel <==> x in group && Selected(s, g, x)
    requires forall i :: 0 <= i < |sel| ==> Targets(s, g, sel[i], found[i], csets1)
    requires forall i :: 0 <= i < |sel| ==> sel[i] in t.tasks && t.tasks[sel[i]] == Task(found[i], Running)
    requires forall x :: x in t.tasks && x !in sel ==> t.tasks[x] == s.tasks[x]
    ensures AllMoved(s, g, group, t)
  {
    hide Selected, FrameOk, CsetsOk, Unique, InitOk, Users, Subst;
    forall x | x in group && Selected(s, g, x)
      ensures x in t.tasks && t.tasks[x].phase == Running && Targets(s, g, x, t.tasks[x].cset, t.csets)
    {
      assert x in sel;
      var i := IndexOf(sel, x);
      assert Targets(s, g, sel[i], found[i], csets1);
      assert t.tasks[x].cset in t.csets;
    }
  }

  /** Every css_set of before is still there with its links. */
  ghost predicate Extends(csets: map<nat, CssSet>, csets': map<nat, CssSet>) {
    forall id :: id in csets ==>
      id in csets' && csets'[id].links == csets[id].links && csets'[id].subsys == csets[id].subsys
  }

  lemma ExtendsRefl(csets: map<nat, CssSet>)
    ensures Extends(csets, csets)
  {
  }

  /** `id` is the css_set that task `t` of state `s` should move to. */
  ghost predicate Targets(s: State, g: Cgroup, t: nat, id: nat, csets: map<nat, CssSet>) {
    && t in s.tasks && s.tasks[t].cset in s.csets && g.root in s.f.roots
    && |s.csets[s.tasks[t].cset].links| == |s.f.roots|
    && id in csets && csets[id].links == Subst(s.f.roots, s.csets[s.tasks[t].cset].links, g)
  }

  ghost predicate Wants(s: State, g: Cgroup, t: nat) {
    && t in s.tasks && s.tasks[t].cset in s.csets && g.root in s.f.roots
    && |s.csets[s.tasks[t].cset].links| == |s.f.roots|
  }

  /** The choice thread `t` should move to: its own with `g` in its hierarchy's place. */
  ghost function Wanted(s: State, g: Cgroup, t: nat): seq<Cgroup>
    requires Wants(s, g, t)
  {
    Subst(s.f.roots, s.csets[s.tasks[t].cset].links, g)
  }

  /** Thread `i` of `sel` wants a choice for which there is no css_set, and none of those before it does. */
  ghost predicate Lacks(s: State, g: Cgroup, sel: seq<nat>, i: nat)
    requires i < |sel|
  {
    && (forall k :: 0 <= k <= i ==> Wants(s, g, sel[k]))
    && (forall id :: id in s.csets ==> s.csets[id].links != Wanted(s, g, sel[i]))
    && (forall k :: 0 <= k < i ==> Wanted(s, g, sel[k]) != Wanted(s, g, sel[i]))
  }

  ghost predicate Within(csets: map<nat, CssSet>, found: seq<nat>, csets': map<nat, CssSet>) {
    forall id :: id in csets' ==> id in csets || id in found
  }

  lemma WithinRefl(csets: map<nat, CssSet>)
    ensures Within(csets, [], csets)
  {
  }

  lemma WithinPlus(csets0: map<nat, CssSet>, found: seq<nat>, csets: map<nat, CssSet>, held: multiset<nat>, old0: nat, g: Cgroup,
                   id: nat, csets': map<nat, CssSet>, held': multiset<nat>)
    requires Within(csets0, found, csets) && Chosen(csets, held, old0, g, id, csets', held')
    ensures Within(csets0, found + [id], csets')
  {
  }

  /** With css_sets at hand for the threads before, a search fails exactly if the thread's choice is lacking. */
  lemma LacksIs(s: State, s1: State, g: Cgroup, sel: seq<nat>, found: seq<nat>)
    requires |found| < |sel| && s1.f == s.f && s1.tasks == s.tasks && Inv(s1) && g in s.f.css
    requires Extends(s.csets, s1.csets) && Within(s.csets, found, s1.csets) && Wants(s, g, sel[|found|])
    requires forall k :: 0 <= k < |found| ==> Targets(s, g, sel[k], found[k], s1.csets)
    ensures NoMatch(s1, s.tasks[sel[|found|]].cset, g) <==> Lacks(s, g, sel, |found|)
  {
    hide Inv, Subst, CanSubst;
    var i := |found|;
    AlignedLinks(s1, s.tasks[sel[i]].cset);
    hide CanSubstAny;
    forall id | id in s1.csets
      ensures Matches(s1, s.tasks[sel[i]].cset, g, id) <==> s1.csets[id].links == Wanted(s, g, sel[i])
    {
    }
    if Lacks(s, g, sel, i) {
      forall id | id in s1.csets ensures s1.csets[id].links != Wanted(s, g, sel[i]) {
        if id !in s.csets {
          var k :| 0 <= k < |found| && found[k] == id;
          assert Targets(s, g, sel[k], found[k], s1.csets);
        }
      }
    }
    if NoMatch(s1, s.tasks[sel[i]].cset, g) {
      forall id | id in s.csets ensures s.csets[id].links != Wanted(s, g, sel[i]) {
        assert !Matches(s1, s.tasks[sel[i]].cset, g, id);
      }
      forall k | 0 <= k < i ensures Wants(s, g, sel[k]) && Wanted(s, g, sel[k]) != Wanted(s, g, sel[i]) {
        assert Targets(s, g, sel[k], found[k], s1.csets) && !Matches(s1, s.tasks[sel[i]].cset, g, found[k]);
      }
    }
  }

  lemma TargetsPersist(s: State, g: Cgroup, t: nat, id: nat, csets: map<nat, CssSet>, csets': map<nat, CssSet>)
    requires Targets(s, g, t, id, csets) && Extends(csets, csets')
    ensures Targets(s, g, t, id, csets')
  {
  }

  lemma FoundExtends(s: State, s0: State, g: Cgroup, t: nat, id: nat, s': State)
    requires t in s.tasks && Found(s, s.tasks[t].cset, g, id, s')
    requires s.f == s0.f && s.tasks == s0.tasks && Extends(s0.csets, s.csets) && s0.tasks[t].cset in s0.csets
    ensures Extends(s.csets, s'.csets) && Extends(s0.csets, s'.csets)
    ensures Targets(s0, g, t, id, s'.csets) && s'.held == s.held + multiset{id}
    ensures s'.f == s.f && s'.tasks == s.tasks
  {
    hide CanSubst, Subst, Template;
  }

  lemma InitLinks(s: State, r: nat)
    requires Inv(s) && r in s.f.roots
    ensures INIT in s.csets && |s.csets[INIT].links| == |s.f.roots|
    ensures s.csets[INIT].links[IndexOf(s.f.roots, r)] == Top(r)
  {
    hide IndexOf, FrameOk, CsetsOk, Unique, Counted;
  }

  /** Task `t` is not exiting and not in `g` already. */
  ghost predicate Selected(s: State, g: Cgroup, t: nat) {
    && t in s.tasks && s.tasks[t].phase == Running && s.tasks[t].cset in s.csets
    && g.root in s.f.roots && |s.csets[s.tasks[t].cset].links| == |s.f.roots|
    && s.csets[s.tasks[t].cset].links[IndexOf(s.f.roots, g.root)] != g
  }

  /** The threads of `group` that move, in their order. */
  ghost function Movers(s: State, g: Cgroup, group: seq<nat>): (sel: seq<nat>)
    ensures forall t :: t in sel <==> t in group && Selected(s, g, t)
  {
    if group == [] then [] else
      var t := group[|group| - 1];
      Movers(s, g, group[..|group| - 1]) + if Selected(s, g, t) then [t] else []
  }

  lemma MoversNone(s: State, g: Cgroup, group: seq<nat>)
    ensures Movers(s, g, group[..0]) == []
  {
  }

  lemma MoversPlus(s: State, g: Cgroup, group: seq<nat>, i: nat)
    requires i < |group|
    ensures Movers(s, g, group[..i + 1]) == Movers(s, g, group[..i]) + if Selected(s, g, group[i]) then [group[i]] else []
  {
    assert group[..i + 1][..i] == group[..i];
  }

  lemma SelectedIs(s: State, g: Cgroup, t: nat)
    requires Inv(s) && t in s.tasks && g in s.f.css
    ensures g.root in s.f.roots && s.tasks[t].cset in s.csets && |s.csets[s.tasks[t].cset].links| == |s.f.roots|
    ensures Selected(s, g, t) <==>
            s.tasks[t].phase == Running && s.csets[s.tasks[t].cset].links[IndexOf(s.f.roots, g.root)] != g
  {
    hide IndexOf, CanSubst, CssOk, CsetsOk, Users;
    AlignedLinks(s, s.tasks[t].cset);
  }

  /** With no reference held, the tasks alone say which css_sets exist and how often they count. */
  lemma TasksDetermineCsets(s: State, t: State)
    requires Inv(s) && Inv(t) && t.f == s.f && t.tasks == s.tasks && s.held == multiset{} && t.held == multiset{}
    requires forall id :: id in s.csets && id in t.csets ==>
               t.csets[id].links == s.csets[id].links && t.csets[id].subsys == s.csets[id].subsys
    ensures t.csets == s.csets
  {
    hide FrameOk, CsetsOk, Unique, InitOk, Counted, Users;
    UsedExactly(s.csets, s.tasks);
    UsedExactly(t.csets, t.tasks);
    assert forall id :: id in t.csets <==> id in s.csets;
  }

  lemma UsedExactly(csets: map<nat, CssSet>, tasks: map<nat, Task>)
    requires Counted(csets, tasks, multiset{})
    ensures forall id :: id in csets <==> Users(tasks, id) != {}
    ensures forall id :: id in csets ==> csets[id].refs == |Users(tasks, id)|
  {
  }

  lemma UnlinkBackStep(back: map<Cgroup, seq<nat>>, links: seq<Cgroup>, i: nat, id: nat)
    requires i < |links| && links[i] in back && forall j, k :: 0 <= j < k < |links| ==> links[j] != links[k]
    ensures var b := UnlinkBack(back, links[..i], id);
            b[links[i] := Without(b[links[i]], id)] == UnlinkBack(back, links[..i + 1], id)
  {
  }

  lemma LinkAllReady(hash: map<nat, nat> -> nat, x: Index, s: State, old0: nat, g: Cgroup)
    requires Inv(s) && IndexOk(hash, x, s.f, s.csets) && old0 in s.csets && g in s.f.css
    ensures Distinct(s.f.roots) && InOrder(s.f.roots, s.csets[old0].links) && g.root in s.f.roots
    ensures x.rootCount == |s.f.roots| && x.back.Keys == s.f.css.Keys && g in x.back && CanSubst(s, old0, g)
    ensures forall i :: 0 <= i < |s.csets[old0].links| ==> s.csets[old0].links[i] in x.back
  {
    hide Inv, CanSubst, TableOk, BackOk;
    AlignedLinks(s, old0);
  }

  lemma NoMatchInstall(s: State, old0: nat, g: Cgroup, id: nat)
    requires Inv(s) && NoMatch(s, old0, g) && id !in s.csets
    ensures CanSubst(s, old0, g) && Inv(Install(s, old0, g, id))
  {
    InstallKeepsInv(s, old0, g, id);
  }

  lemma AtAdd(hash: map<nat, nat> -> nat, csets: map<nat, CssSet>, id: nat, c: CssSet)
    ensures At(hash, csets[id := c]) == At(hash, csets)[id := BucketOf(hash, c.subsys)]
    ensures id in At(hash, csets) <==> id in csets
  {
  }

  /** `t` is `s` with a reference taken on `id`, the one css_set for the substituted choice. */
  ghost predicate Found(s: State, old0: nat, g: Cgroup, id: nat, t: State) {
    && CanSubst(s, old0, g) && g.root in s.f.roots && |s.csets[old0].links| == |s.f.roots|
    && if Matches(s, old0, g, id) then t == Acquire(s, id)
       else id !in s.csets && NoMatch(s, old0, g) && t == Install(s, old0, g, id)
  }

  lemma SubstAt(roots: seq<nat>, links: seq<Cgroup>, g: Cgroup)
    requires Distinct(roots) && InOrder(roots, links) && g.root in roots
    ensures var want := Subst(roots, links, g);
            InOrder(roots, want) && forall i :: 0 <= i < |links| ==> want[i] == if links[i].root == g.root then g else links[i]
  {
  }

  lemma LinkBackNone(back: map<Cgroup, seq<nat>>, id: nat)
    ensures back == LinkBack(back, [], id)
  {
  }

  lemma LinkBackStep(back: map<Cgroup, seq<nat>>, roots: seq<nat>, want: seq<Cgroup>, i: nat, id: nat)
    requires Distinct(roots) && InOrder(roots, want) && i < |want| && want[i] in back
    ensures want[..i] + [want[i]] == want[..i + 1] && want[i] in LinkBack(back, want[..i], id)
    ensures var b := LinkBack(back, want[..i], id);
            b[want[i] := [id] + b[want[i]]] == LinkBack(back, want[..i + 1], id)
  {
  }
}
