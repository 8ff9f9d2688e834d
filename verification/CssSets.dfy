/** css_sets: which combination of cgroups, one per mounted hierarchy, each task is in. */
module CssSets {
  import opened Hierarchy
  import opened Lists
  import opened SetFacts

  const DUMMY: nat := 0   // the hierarchy of unmounted subsystems
  const INIT: nat := 0    // init_css_set

  /** A cgroup knows its hierarchy; number 0 is the hierarchy's top cgroup. */
  datatype Cgroup = Cgroup(root: nat, num: nat)

  function Top(r: nat): Cgroup { Cgroup(r, 0) }

  /** `links` holds the cgroup of each hierarchy, in the order of cgrp_links; `subsys` the
      non-NULL css pointers by subsystem. */
  datatype CssSet = CssSet(refs: int, links: seq<Cgroup>, subsys: map<nat, nat>)

  /** A task is Exiting once PF_EXITING is set and Gone once cgroup_exit has taken it off its css_set. */
  datatype Phase = Running | Exiting | Gone
  datatype Task = Task(cset: nat, phase: Phase)

  /** The mounted hierarchies in creation order, the css pointers of each live cgroup and the
      hierarchy each loaded subsystem is bound to. */
  datatype Frame = Frame(roots: seq<nat>, css: map<Cgroup, map<nat, nat>>, owner: map<nat, nat>)

  /** Also the css_sets, the tasks, and the css_set references that an attach under way holds. */
  datatype State = State(f: Frame, csets: map<nat, CssSet>, tasks: map<nat, Task>, held: multiset<nat>)

  // ---------------------------------------------------------------- the invariant

  /** The dummy hierarchy comes first and has no cgroup but its top. */
  ghost predicate RootsOk(f: Frame) {
    && |f.roots| > 0 && f.roots[0] == DUMMY && Distinct(f.roots)
    && (forall i :: 0 <= i < |f.roots| ==> Top(f.roots[i]) in f.css)
    && (forall g :: g in f.css ==> g.root in f.roots)
    && (forall g :: g in f.css && g.root == DUMMY ==> g == Top(DUMMY))
  }

  /** Every cgroup carries a css for each subsystem bound to its hierarchy; the dummy top keeps
      the root css of every subsystem, wherever it is bound. */
  ghost predicate CssOk(f: Frame) {
    && Top(DUMMY) in f.css
    && (forall ss {:trigger f.owner[ss]} :: ss in f.owner ==>
          && f.owner[ss] in f.roots && ss in f.css[Top(DUMMY)] && Top(f.owner[ss]) in f.css
          && ss in f.css[Top(f.owner[ss])] && f.css[Top(f.owner[ss])][ss] == f.css[Top(DUMMY)][ss])
    && (forall g, ss {:trigger ss in f.css[g]} :: g in f.css && ss in f.owner && f.owner[ss] == g.root ==> ss in f.css[g])
  }

  ghost predicate FrameOk(f: Frame) {
    RootsOk(f) && CssOk(f)
  }

  /** One link per hierarchy, in the order of the hierarchies. */
  ghost predicate Aligned(f: Frame, links: seq<Cgroup>) {
    && |links| == |f.roots|
    && forall i :: 0 <= i < |links| ==> links[i] in f.css && links[i].root == f.roots[i]
  }

  /** The css pointer of subsystem `ss` that a choice of cgroups determines. */
  ghost function CssAt(f: Frame, links: seq<Cgroup>, ss: nat): nat
    requires FrameOk(f) && Aligned(f, links) && ss in f.owner
  {
    var g := links[IndexOf(f.roots, f.owner[ss])];
    assert ss in f.css[g];
    f.css[g][ss]
  }

  /** The links are aligned and determine the css pointers. */
  ghost predicate CsetOk(f: Frame, links: seq<Cgroup>, subsys: map<nat, nat>)
    requires FrameOk(f)
  {
    && Aligned(f, links) && subsys.Keys == f.owner.Keys
    && forall ss :: ss in f.owner ==> subsys[ss] == CssAt(f, links, ss)
  }

  ghost predicate CsetsOk(f: Frame, csets: map<nat, CssSet>)
    requires FrameOk(f)
  {
    forall id :: id in csets ==> CsetOk(f, csets[id].links, csets[id].subsys)
  }

  /** No two css_sets stand for the same choice. */
  ghost predicate Unique(csets: map<nat, CssSet>) {
    forall a, b :: a in csets && b in csets && csets[a].links == csets[b].links ==> a == b
  }

  /** The tasks that count towards a css_set: one that is gone is on the initial one uncounted. */
  ghost function Users(tasks: map<nat, Task>, id: nat): set<nat> {
    set t | t in tasks && tasks[t].cset == id && tasks[t].phase != Gone
  }

  /** refcount == tasks using it + references held, and never zero. */
  ghost predicate Counted(csets: map<nat, CssSet>, tasks: map<nat, Task>, held: multiset<nat>) {
    && (forall id :: id in csets ==> csets[id].refs == |Users(tasks, id)| + held[id] && csets[id].refs > 0)
    && (forall id :: id in held ==> id in csets)
    && (forall t :: t in tasks ==> tasks[t].cset in csets && (tasks[t].phase == Gone ==> tasks[t].cset == INIT))
  }

  ghost predicate IdleRuns(tasks: map<nat, Task>) {
    0 in tasks && tasks[0] == Task(INIT, Running)
  }

  /** The initial css_set holds every hierarchy's top cgroup. */
  ghost predicate InitOk(f: Frame, csets: map<nat, CssSet>) {
    && INIT in csets && |csets[INIT].links| == |f.roots|
    && forall i :: 0 <= i < |f.roots| ==> csets[INIT].links[i] == Top(f.roots[i])
  }

  ghost predicate Inv(s: State) {
    && FrameOk(s.f) && CsetsOk(s.f, s.csets) && Unique(s.csets) && InitOk(s.f, s.csets)
    && Counted(s.csets, s.tasks, s.held) && IdleRuns(s.tasks)
  }

  // ---------------------------------------------------------------- substitution

  lemma IndexIn(roots: seq<nat>, i: nat)
    requires Distinct(roots) && i < |roots|
    ensures IndexOf(roots, roots[i]) == i
  {
  }

  /** `links` with the cgroup `g` in its hierarchy's place. */
  function Subst(roots: seq<nat>, links: seq<Cgroup>, g: Cgroup): seq<Cgroup>
    requires g.root in roots && |links| == |roots|
  {
    links[IndexOf(roots, g.root) := g]
  }

  /** The template built by find_existing_css_set. */
  function Template(f: Frame, subsys: map<nat, nat>, g: Cgroup): map<nat, nat>
    requires g in f.css
    requires forall ss :: ss in f.owner ==> if f.owner[ss] == g.root then ss in f.css[g] else ss in subsys
  {
    map ss | ss in f.owner :: if f.owner[ss] == g.root then f.css[g][ss] else subsys[ss]
  }

  /** The template is what the substituted choice determines. */
  lemma TemplateIsDetermined(f: Frame, links: seq<Cgroup>, subsys: map<nat, nat>, g: Cgroup)
    requires FrameOk(f) && CsetOk(f, links, subsys) && g in f.css
    ensures CsetOk(f, Subst(f.roots, links, g), Template(f, subsys, g))
  {
    hide IndexOf;
    var links', subsys' := Subst(f.roots, links, g), Template(f, subsys, g);
    assert Aligned(f, links');
    forall ss | ss in f.owner ensures subsys'[ss] == CssAt(f, links', ss) {
      var i, k := IndexOf(f.roots, f.owner[ss]), IndexOf(f.roots, g.root);
      assert i == k <==> f.owner[ss] == g.root;
    }
  }

  // ---------------------------------------------------------------- reference counting

  function GetRef(csets: map<nat, CssSet>, id: nat): map<nat, CssSet>
    requires id in csets
  {
    csets[id := csets[id].(refs := csets[id].refs + 1)]
  }

  /** __put_css_set: the last reference releases the css_set. */
  function PutRef(csets: map<nat, CssSet>, id: nat): map<nat, CssSet>
    requires id in csets
  {
    if csets[id].refs == 1 then csets - {id} else csets[id := csets[id].(refs := csets[id].refs - 1)]
  }

  lemma GetRefCounted(csets: map<nat, CssSet>, tasks: map<nat, Task>, held: multiset<nat>, id: nat)
    requires Counted(csets, tasks, held) && id in csets
    ensures Counted(GetRef(csets, id), tasks, held + multiset{id})
  {
    hide Users;
  }

  lemma NoUsers(tasks: map<nat, Task>, id: nat)
    requires |Users(tasks, id)| == 0
    ensures forall t :: t in tasks ==> tasks[t].cset != id || tasks[t].phase == Gone
  {
    assert Users(tasks, id) == {};
    assert forall t :: t in tasks && tasks[t].cset == id && tasks[t].phase != Gone ==> t in Users(tasks, id);
  }

  /** Dropping a held reference keeps the counts; what is released had no user left, and it
      is never the initial css_set. */
  lemma PutRefCounted(csets: map<nat, CssSet>, tasks: map<nat, Task>, held: multiset<nat>, id: nat)
    requires Counted(csets, tasks, held) && id in held && IdleRuns(tasks)
    ensures Counted(PutRef(csets, id), tasks, held - multiset{id}) && INIT in PutRef(csets, id)
  {
    hide Users;
    assert tasks[0].cset in csets;
    if csets[id].refs == 1 {
      LastRefCounted(csets, tasks, held, id);
    } else {
      OtherRefsCounted(csets, tasks, held, id);
    }
  }

  lemma LastRefCounted(csets: map<nat, CssSet>, tasks: map<nat, Task>, held: multiset<nat>, id: nat)
    requires Counted(csets, tasks, held) && id in held && IdleRuns(tasks) && csets[id].refs == 1
    ensures Counted(csets - {id}, tasks, held - multiset{id}) && id != INIT
  {
    NoUsers(tasks, id);
    hide Users;
  }

  lemma OtherRefsCounted(csets: map<nat, CssSet>, tasks: map<nat, Task>, held: multiset<nat>, id: nat)
    requires Counted(csets, tasks, held) && id in held && csets[id].refs != 1
    ensures Counted(csets[id := csets[id].(refs := csets[id].refs - 1)], tasks, held - multiset{id})
  {
    hide Users;
  }

  ghost function LiveRef(tasks: map<nat, Task>, t: nat): multiset<nat> {
    if t in tasks && tasks[t].phase != Gone then multiset{tasks[t].cset} else multiset{}
  }

  lemma LiveRefCounts(tasks: map<nat, Task>, t: nat, id: nat)
    ensures LiveRef(tasks, t)[id] == if t in Users(tasks, id) then 1 else 0
  {
  }

  lemma UsersUpdate(tasks: map<nat, Task>, t: nat, x: Task, id: nat)
    ensures |Users(tasks[t := x], id)| + LiveRef(tasks, t)[id] == |Users(tasks, id)| + LiveRef(tasks[t := x], t)[id]
  {
    hide Users, LiveRef;
    var a, b := Users(tasks, id), Users(tasks[t := x], id);
    LiveRefCounts(tasks, t, id);
    LiveRefCounts(tasks[t := x], t, id);
    OthersUnmoved(tasks, t, x, id);
    SizeWithout(a, t);
    SizeWithout(b, t);
  }

  lemma OthersUnmoved(tasks: map<nat, Task>, t: nat, x: Task, id: nat)
    ensures Users(tasks, id) - {t} == Users(tasks[t := x], id) - {t}
  {
  }

  /** Repointing a task trades its old reference for one that was held. */
  lemma RetaskCounted(csets: map<nat, CssSet>, tasks: map<nat, Task>, held: multiset<nat>, t: nat, x: Task)
    requires Counted(csets, tasks, held) && x.cset in csets && (x.phase == Gone ==> x.cset == INIT)
    requires x.phase != Gone ==> x.cset in held
    ensures Counted(csets, tasks[t := x], held + LiveRef(tasks, t) - LiveRef(tasks[t := x], t))
  {
    hide Users;
    forall id | id in csets
      ensures csets[id].refs == |Users(tasks[t := x], id)| + (held + LiveRef(tasks, t) - LiveRef(tasks[t := x], t))[id]
    {
      UsersUpdate(tasks, t, x, id);
    }
  }

  // ---------------------------------------------------------------- steps on tasks and css_sets

  /** Nothing is added and nothing but reference counts changes. */
  ghost predicate SameShape(csets: map<nat, CssSet>, csets': map<nat, CssSet>) {
    forall id :: id in csets' ==>
      id in csets && csets'[id].links == csets[id].links && csets'[id].subsys == csets[id].subsys
  }

  lemma SameShapeKeepsInv(s: State, t: State)
    requires Inv(s) && t.f == s.f && SameShape(s.csets, t.csets)
    requires Counted(t.csets, t.tasks, t.held) && INIT in t.csets && IdleRuns(t.tasks)
    ensures Inv(t)
  {
    hide FrameOk, CsetOk, Counted;
  }

  /** find_css_set, the match found: take a reference. */
  function Acquire(s: State, id: nat): State
    requires id in s.csets
  {
    s.(csets := GetRef(s.csets, id), held := s.held + multiset{id})
  }

  /** `id` stands for the choice of `old0` with `g` substituted. */
  ghost predicate Matches(s: State, old0: nat, g: Cgroup, id: nat)
    requires g.root in s.f.roots && old0 in s.csets && |s.csets[old0].links| == |s.f.roots|
  {
    id in s.csets && s.csets[id].links == Subst(s.f.roots, s.csets[old0].links, g)
  }

  ghost predicate CanSubst(s: State, old0: nat, g: Cgroup) {
    && FrameOk(s.f) && old0 in s.csets && g in s.f.css
    && CsetOk(s.f, s.csets[old0].links, s.csets[old0].subsys)
  }

  ghost function NewCset(s: State, old0: nat, g: Cgroup): CssSet
    requires CanSubst(s, old0, g)
  {
    CssSet(1, Subst(s.f.roots, s.csets[old0].links, g), Template(s.f, s.csets[old0].subsys, g))
  }

  /** find_css_set, no match: a new css_set with one reference. */
  ghost function Install(s: State, old0: nat, g: Cgroup, id: nat): State
    requires CanSubst(s, old0, g)
  {
    s.(csets := s.csets[id := NewCset(s, old0, g)], held := s.held + multiset{id})
  }

  /** put_css_set of a held reference. */
  function Release(s: State, id: nat): State
    requires id in s.csets
  {
    s.(csets := PutRef(s.csets, id), held := s.held - multiset{id})
  }

  /** cgroup_task_migrate: the task takes over a held reference and its old one is put. */
  function Migrate(s: State, t: nat, id: nat): State
    requires t in s.tasks && s.tasks[t].cset in s.csets
  {
    s.(tasks := s.tasks[t := Task(id, Running)], csets := PutRef(s.csets, s.tasks[t].cset), held := s.held - multiset{id})
  }

  /** cgroup_fork. */
  function Fork(s: State, p: nat, c: nat): State
    requires p in s.tasks && s.tasks[p].cset in s.csets
  {
    s.(tasks := s.tasks[c := Task(s.tasks[p].cset, Running)], csets := GetRef(s.csets, s.tasks[p].cset))
  }

  /** PF_EXITING is set. */
  function StartExit(s: State, t: nat): State
    requires t in s.tasks
  {
    s.(tasks := s.tasks[t := s.tasks[t].(phase := Exiting)])
  }

  /** cgroup_exit. */
  function Exit(s: State, t: nat): State
    requires t in s.tasks && s.tasks[t].cset in s.csets
  {
    s.(tasks := s.tasks[t := Task(INIT, Gone)], csets := PutRef(s.csets, s.tasks[t].cset))
  }

  lemma AcquireKeepsInv(s: State, id: nat)
    requires Inv(s) && id in s.csets
    ensures Inv(Acquire(s, id))
  {
    hide FrameOk, CsetsOk, Unique, Counted;
    GetRefCounted(s.csets, s.tasks, s.held, id);
    SameShapeKeepsInv(s, Acquire(s, id));
  }

  lemma ReleaseKeepsInv(s: State, id: nat)
    requires Inv(s) && id in s.held
    ensures id in s.csets && Inv(Release(s, id))
  {
    hide FrameOk, CsetsOk, Unique, Users;
    PutRefCounted(s.csets, s.tasks, s.held, id);
    SameShapeKeepsInv(s, Release(s, id));
  }

  lemma SwapHeld(held: multiset<nat>, o: nat, id: nat)
    requires id in held
    ensures o in held + multiset{o} - multiset{id}
    ensures held + multiset{o} - multiset{id} - multiset{o} == held - multiset{id}
  {
  }

  lemma MigrateCounted(csets: map<nat, CssSet>, tasks: map<nat, Task>, held: multiset<nat>, t: nat, id: nat)
    requires Counted(csets, tasks, held) && IdleRuns(tasks) && id in held && t in tasks && t != 0 && tasks[t].phase == Running
    ensures tasks[t].cset in csets
    ensures var csets' := PutRef(csets, tasks[t].cset);
            Counted(csets', tasks[t := Task(id, Running)], held - multiset{id}) && INIT in csets'
  {
    var o := tasks[t].cset;
    RetaskCounted(csets, tasks, held, t, Task(id, Running));
    SwapHeld(held, o, id);
    assert o in csets;
    hide Counted, Users;
    assert LiveRef(tasks, t) == multiset{o} && LiveRef(tasks[t := Task(id, Running)], t) == multiset{id};
    PutRefCounted(csets, tasks[t := Task(id, Running)], held + multiset{o} - multiset{id}, o);
  }

  lemma ForkCounted(csets: map<nat, CssSet>, tasks: map<nat, Task>, held: multiset<nat>, id: nat, c: nat)
    requires Counted(csets, tasks, held) && id in csets && c !in tasks
    ensures Counted(GetRef(csets, id), tasks[c := Task(id, Running)], held)
  {
    GetRefCounted(csets, tasks, held, id);
    hide Counted, Users;
    RetaskCounted(GetRef(csets, id), tasks, held + multiset{id}, c, Task(id, Running));
    assert LiveRef(tasks, c) == multiset{} && LiveRef(tasks[c := Task(id, Running)], c) == multiset{id};
    assert held + multiset{id} + multiset{} - multiset{id} == held;
  }

  lemma ExitCounted(csets: map<nat, CssSet>, tasks: map<nat, Task>, held: multiset<nat>, t: nat)
    requires Counted(csets, tasks, held) && IdleRuns(tasks) && t in tasks && t != 0 && tasks[t].phase != Gone
    ensures tasks[t].cset in csets
    ensures var csets' := PutRef(csets, tasks[t].cset);
            Counted(csets', tasks[t := Task(INIT, Gone)], held) && INIT in csets'
  {
    var o := tasks[t].cset;
    assert o in csets && tasks[0].cset in csets;
    RetaskCounted(csets, tasks, held, t, Task(INIT, Gone));
    hide Counted, Users;
    assert LiveRef(tasks, t) == multiset{o} && LiveRef(tasks[t := Task(INIT, Gone)], t) == multiset{};
    assert held + multiset{o} - multiset{} == held + multiset{o};
    PutRefCounted(csets, tasks[t := Task(INIT, Gone)], held + multiset{o}, o);
    assert held + multiset{o} - multiset{o} == held;
  }

  lemma MigrateKeepsInv(s: State, t: nat, id: nat)
    requires Inv(s) && id in s.held && t in s.tasks && t != 0 && s.tasks[t].phase == Running
    ensures s.tasks[t].cset in s.csets && Inv(Migrate(s, t, id))
  {
    hide FrameOk, CsetsOk, Unique, Counted;
    MigrateCounted(s.csets, s.tasks, s.held, t, id);
    SameShapeKeepsInv(s, Migrate(s, t, id));
  }

  lemma ForkKeepsInv(s: State, p: nat, c: nat)
    requires Inv(s) && p in s.tasks && s.tasks[p].phase == Running && c !in s.tasks
    ensures s.tasks[p].cset in s.csets && Inv(Fork(s, p, c))
    ensures var id := s.tasks[p].cset;
            && Fork(s, p, c).tasks == s.tasks[c := Task(id, Running)]
            && Fork(s, p, c).csets == s.csets[id := CssSet(s.csets[id].refs + 1, s.csets[id].links, s.csets[id].subsys)]
            && Fork(s, p, c).f == s.f && Fork(s, p, c).held == s.held
  {
    hide FrameOk, CsetsOk, Unique, Users;
    ForkCounted(s.csets, s.tasks, s.held, s.tasks[p].cset, c);
    SameShapeKeepsInv(s, Fork(s, p, c));
  }

  lemma ExitKeepsInv(s: State, t: nat)
    requires Inv(s) && t in s.tasks && t != 0 && s.tasks[t].phase != Gone
    ensures s.tasks[t].cset in s.csets && Inv(Exit(s, t))
  {
    hide FrameOk, CsetsOk, Unique, Counted;
    ExitCounted(s.csets, s.tasks, s.held, t);
    SameShapeKeepsInv(s, Exit(s, t));
  }

  /** A task that starts to exit stays on its css_set and keeps counting. */
  lemma StartExitKeepsInv(s: State, t: nat)
    requires Inv(s) && t in s.tasks && t != 0 && s.tasks[t].phase != Gone
    ensures Inv(StartExit(s, t))
  {
    hide FrameOk, CsetsOk, Unique, InitOk;
    var tasks' := StartExit(s, t).tasks;
    forall id ensures Users(tasks', id) == Users(s.tasks, id) { }
    hide Users;
  }

  lemma AddKeepsInv(s: State, id: nat, c: CssSet)
    requires Inv(s) && id !in s.csets && c.refs == 1 && CsetOk(s.f, c.links, c.subsys)
    requires forall x :: x in s.csets ==> s.csets[x].links != c.links
    ensures Inv(s.(csets := s.csets[id := c], held := s.held + multiset{id}))
  {
    hide FrameOk, CsetOk, Users;
    InstallCounted(s.csets, s.tasks, s.held, id, c);
    hide Counted;
  }

  /** A css_set is only made when no other stands for the same choice. */
  lemma InstallKeepsInv(s: State, old0: nat, g: Cgroup, id: nat)
    requires Inv(s) && CanSubst(s, old0, g) && id !in s.csets && forall x :: !Matches(s, old0, g, x)
    ensures Inv(Install(s, old0, g, id))
  {
    hide Counted, CsetsOk, IndexOf, CssAt;
    TemplateIsDetermined(s.f, s.csets[old0].links, s.csets[old0].subsys, g);
    forall x | x in s.csets ensures s.csets[x].links != NewCset(s, old0, g).links {
      assert !Matches(s, old0, g, x);
    }
    AddKeepsInv(s, id, NewCset(s, old0, g));
  }

  lemma InstallCounted(csets: map<nat, CssSet>, tasks: map<nat, Task>, held: multiset<nat>, id: nat, c: CssSet)
    requires Counted(csets, tasks, held) && id !in csets && c.refs == 1
    ensures Counted(csets[id := c], tasks, held + multiset{id})
  {
  }

  // ---------------------------------------------------------------- steps on hierarchies and subsystems

  /** cgroup_mount of a new hierarchy `r` with the subsystems `mask`, free until now: its top
      cgroup takes over their root css, and every css_set is linked to it. */
  ghost predicate CanMount(f: Frame, r: nat, mask: set<nat>) {
    r !in f.roots && forall ss :: ss in mask ==> ss in f.owner && f.owner[ss] == DUMMY
  }

  function MountFrame(f: Frame, r: nat, mask: set<nat>): Frame
    requires Top(DUMMY) in f.css && forall ss :: ss in mask ==> ss in f.css[Top(DUMMY)]
  {
    Frame(f.roots + [r], f.css[Top(r) := map ss | ss in mask :: f.css[Top(DUMMY)][ss]],
          map ss | ss in f.owner :: if ss in mask then r else f.owner[ss])
  }

  function Linked(csets: map<nat, CssSet>, g: Cgroup): map<nat, CssSet> {
    map id | id in csets :: csets[id].(links := csets[id].links + [g])
  }

  ghost function Mount(s: State, r: nat, mask: set<nat>): State
    requires FrameOk(s.f) && CanMount(s.f, r, mask)
  {
    s.(f := MountFrame(s.f, r, mask), csets := Linked(s.csets, Top(r)))
  }

  /** cgroup_kill_sb: only the top cgroup is left; its subsystems go back to the dummy hierarchy. */
  ghost predicate CanUnmount(f: Frame, r: nat) {
    r in f.roots && r != DUMMY && forall g :: g in f.css && g.root == r ==> g == Top(r)
  }

  function Drop<T>(xs: seq<T>, k: nat): seq<T>
    requires k < |xs|
  {
    xs[..k] + xs[k + 1..]
  }

  function UnmountFrame(f: Frame, r: nat): Frame
    requires r in f.roots
  {
    Frame(Drop(f.roots, IndexOf(f.roots, r)), f.css - {Top(r)},
          map ss | ss in f.owner :: if f.owner[ss] == r then DUMMY else f.owner[ss])
  }

  function Unlinked(csets: map<nat, CssSet>, k: nat): map<nat, CssSet>
    requires forall id :: id in csets ==> k < |csets[id].links|
  {
    map id | id in csets :: csets[id].(links := Drop(csets[id].links, k))
  }

  ghost function Unmount(s: State, r: nat): State
    requires r in s.f.roots && forall id :: id in s.csets ==> |s.csets[id].links| == |s.f.roots|
  {
    s.(f := UnmountFrame(s.f, r), csets := Unlinked(s.csets, IndexOf(s.f.roots, r)))
  }

  /** cgroup_load_subsys: the new root css enters every css_set. */
  function LoadFrame(f: Frame, ss: nat, c: nat): Frame
    requires Top(DUMMY) in f.css
  {
    var ptrs: map<nat, nat> := f.css[Top(DUMMY)][ss := c];
    f.(owner := f.owner[ss := DUMMY], css := f.css[Top(DUMMY) := ptrs])
  }

  function Entangled(csets: map<nat, CssSet>, ss: nat, c: nat): map<nat, CssSet> {
    map id | id in csets :: csets[id].(subsys := csets[id].subsys[ss := c])
  }

  function Load(s: State, ss: nat, c: nat): State
    requires Top(DUMMY) in s.f.css
  {
    s.(f := LoadFrame(s.f, ss, c), csets := Entangled(s.csets, ss, c))
  }

  /** cgroup_unload_subsys of a subsystem bound to no mounted hierarchy. */
  function UnloadFrame(f: Frame, ss: nat): Frame
    requires Top(DUMMY) in f.css
  {
    f.(owner := f.owner - {ss}, css := f.css[Top(DUMMY) := f.css[Top(DUMMY)] - {ss}])
  }

  function Disentangled(csets: map<nat, CssSet>, ss: nat): map<nat, CssSet> {
    map id | id in csets :: csets[id].(subsys := csets[id].subsys - {ss})
  }

  function Unload(s: State, ss: nat): State
    requires Top(DUMMY) in s.f.css
  {
    s.(f := UnloadFrame(s.f, ss), csets := Disentangled(s.csets, ss))
  }

  /** cgroup_create: a css is made for each subsystem of the hierarchy. */
  ghost predicate CanCreate(f: Frame, g: Cgroup, ptrs: map<nat, nat>) {
    && g !in f.css && g.root in f.roots && g.root != DUMMY
    && forall ss :: ss in f.owner && f.owner[ss] == g.root ==> ss in ptrs
  }

  function CreateCgroup(s: State, g: Cgroup, ptrs: map<nat, nat>): State {
    s.(f := s.f.(css := s.f.css[g := ptrs]))
  }

  /** cgroup_destroy_locked: no css_set is linked to it. */
  ghost predicate CanDestroy(s: State, g: Cgroup) {
    g in s.f.css && g.num != 0 && forall id :: id in s.csets ==> g !in s.csets[id].links
  }

  function DestroyCgroup(s: State, g: Cgroup): State {
    s.(f := s.f.(css := s.f.css - {g}))
  }

  /** Changing links or pointers but not counts keeps the counts. */
  lemma RelinkedCounted(csets: map<nat, CssSet>, csets': map<nat, CssSet>, tasks: map<nat, Task>, held: multiset<nat>)
    requires Counted(csets, tasks, held) && csets'.Keys == csets.Keys
    requires forall id :: id in csets ==> csets'[id].refs == csets[id].refs
    ensures Counted(csets', tasks, held)
  {
  }

  lemma IndexAppend(roots: seq<nat>, r: nat, x: nat)
    requires Distinct(roots + [r]) && x in roots + [r]
    ensures IndexOf(roots + [r], x) == if x == r then |roots| else IndexOf(roots, x)
  {
    var i := if x == r then |roots| else IndexOf(roots, x);
    assert (roots + [r])[i] == x;
    IndexIn(roots + [r], i);
  }

  lemma MountRootsOk(f: Frame, r: nat, mask: set<nat>)
    requires FrameOk(f) && CanMount(f, r, mask)
    ensures RootsOk(MountFrame(f, r, mask))
  {
  }

  lemma MountCssOk(f: Frame, r: nat, mask: set<nat>)
    requires FrameOk(f) && CanMount(f, r, mask)
    ensures CssOk(MountFrame(f, r, mask))
  {
  }

  lemma MountFrameOk(f: Frame, r: nat, mask: set<nat>)
    requires FrameOk(f) && CanMount(f, r, mask)
    ensures FrameOk(MountFrame(f, r, mask))
  {
    MountRootsOk(f, r, mask);
    MountCssOk(f, r, mask);
  }

  lemma MountAligned(f: Frame, r: nat, mask: set<nat>, links: seq<Cgroup>)
    requires FrameOk(f) && CanMount(f, r, mask) && Aligned(f, links)
    ensures Aligned(MountFrame(f, r, mask), links + [Top(r)])
  {
  }

  lemma MountCsetOk(f: Frame, r: nat, mask: set<nat>, links: seq<Cgroup>, subsys: map<nat, nat>)
    requires FrameOk(f) && CanMount(f, r, mask) && CsetOk(f, links, subsys)
    ensures FrameOk(MountFrame(f, r, mask)) && CsetOk(MountFrame(f, r, mask), links + [Top(r)], subsys)
  {
    assert Top(DUMMY) in f.css && forall ss :: ss in mask ==> ss in f.css[Top(DUMMY)];
    hide FrameOk, Aligned, CssAt, CanMount;
    MountFrameOk(f, r, mask);
    MountAligned(f, r, mask, links);
    assert MountFrame(f, r, mask).owner.Keys == f.owner.Keys;
    forall ss | ss in f.owner ensures subsys[ss] == CssAt(MountFrame(f, r, mask), links + [Top(r)], ss) {
      MountCssAt(f, r, mask, links, ss);
    }
  }

  lemma MountCssAt(f: Frame, r: nat, mask: set<nat>, links: seq<Cgroup>, ss: nat)
    requires FrameOk(f) && CanMount(f, r, mask) && Aligned(f, links) && ss in f.owner
    requires FrameOk(MountFrame(f, r, mask)) && Aligned(MountFrame(f, r, mask), links + [Top(r)])
    ensures CssAt(MountFrame(f, r, mask), links + [Top(r)], ss) == CssAt(f, links, ss)
  {
    hide IndexOf;
    var f' := MountFrame(f, r, mask);
    IndexAppend(f.roots, r, f'.owner[ss]);
    if ss in mask {
      IndexIn(f.roots, 0);
      assert links[0] in f.css && links[0].root == DUMMY;
    } else {
      assert f.owner[ss] in f.roots;
    }
  }

  /** A change of frame and links needs to keep the shape rules only. */
  lemma ReframeKeepsInv(s: State, t: State)
    requires Inv(s) && t.tasks == s.tasks && t.held == s.held && t.csets.Keys == s.csets.Keys
    requires forall id :: id in s.csets ==> t.csets[id].refs == s.csets[id].refs
    requires FrameOk(t.f) && CsetsOk(t.f, t.csets) && Unique(t.csets) && InitOk(t.f, t.csets)
    ensures Inv(t)
  {
    hide FrameOk, CsetsOk, Unique, InitOk, Users;
    RelinkedCounted(s.csets, t.csets, s.tasks, s.held);
  }

  lemma MountUnique(csets: map<nat, CssSet>, g: Cgroup)
    requires Unique(csets)
    ensures Unique(Linked(csets, g))
  {
    var csets' := Linked(csets, g);
    forall a, b | a in csets' && b in csets' && csets'[a].links == csets'[b].links ensures a == b {
      AppendInjective(csets[a].links, csets[b].links, g);
    }
  }

  lemma MountCsetsOk(f: Frame, r: nat, mask: set<nat>, csets: map<nat, CssSet>)
    requires FrameOk(f) && CanMount(f, r, mask) && CsetsOk(f, csets)
    ensures FrameOk(MountFrame(f, r, mask)) && CsetsOk(MountFrame(f, r, mask), Linked(csets, Top(r)))
  {
    MountFrameOk(f, r, mask);
    hide FrameOk, CsetOk, MountFrame, CanMount;
    forall id | id in csets ensures CsetOk(MountFrame(f, r, mask), csets[id].links + [Top(r)], csets[id].subsys) {
      MountCsetOk(f, r, mask, csets[id].links, csets[id].subsys);
    }
  }

  lemma MountInitOk(f: Frame, r: nat, mask: set<nat>, csets: map<nat, CssSet>)
    requires FrameOk(f) && CanMount(f, r, mask) && InitOk(f, csets)
    ensures InitOk(MountFrame(f, r, mask), Linked(csets, Top(r)))
  {
  }

  lemma MountKeepsInv(s: State, r: nat, mask: set<nat>)
    requires Inv(s) && CanMount(s.f, r, mask)
    ensures Inv(Mount(s, r, mask))
  {
    hide FrameOk, CsetsOk, Unique, Counted, InitOk, CanMount, MountFrame;
    MountCsetsOk(s.f, r, mask, s.csets);
    MountUnique(s.csets, Top(r));
    MountInitOk(s.f, r, mask, s.csets);
    ReframeKeepsInv(s, Mount(s, r, mask));
  }

  lemma AppendInjective(a: seq<Cgroup>, b: seq<Cgroup>, g: Cgroup)
    requires a + [g] == b + [g]
    ensures a == b
  {
    assert a == (a + [g])[..|a|];
    assert b == (b + [g])[..|b|];
  }

  // ---- unmount

  lemma IndexDrop(roots: seq<nat>, k: nat, x: nat)
    requires Distinct(roots) && k < |roots| && x in roots && x != roots[k]
    ensures Distinct(Drop(roots, k)) && x in Drop(roots, k)
    ensures IndexOf(Drop(roots, k), x) == if IndexOf(roots, x) < k then IndexOf(roots, x) else IndexOf(roots, x) - 1
  {
    var i := IndexOf(roots, x);
    var j := if i < k then i else i - 1;
    assert Drop(roots, k)[j] == x;
    IndexIn(Drop(roots, k), j);
  }

  lemma UnmountRootsOk(f: Frame, r: nat)
    requires FrameOk(f) && CanUnmount(f, r)
    ensures RootsOk(UnmountFrame(f, r)) && IndexOf(f.roots, r) > 0
  {
    hide CssOk;
    DropDistinct(f.roots, IndexOf(f.roots, r));
  }

  lemma DropDistinct<T>(xs: seq<T>, k: nat)
    requires Distinct(xs) && k < |xs|
    ensures Distinct(Drop(xs, k)) && forall x :: x in Drop(xs, k) <==> x in xs && x != xs[k]
  {
    assert xs == xs[..k] + [xs[k]] + xs[k + 1..];
  }

  lemma UnmountOwnerOk(f: Frame, r: nat, ss: nat)
    requires FrameOk(f) && CanUnmount(f, r) && ss in f.owner && Top(DUMMY) in UnmountFrame(f, r).css
    ensures var f' := UnmountFrame(f, r);
            && f'.owner[ss] in f'.roots && ss in f'.css[Top(DUMMY)] && Top(f'.owner[ss]) in f'.css
            && ss in f'.css[Top(f'.owner[ss])] && f'.css[Top(f'.owner[ss])][ss] == f'.css[Top(DUMMY)][ss]
  {
  }

  lemma UnmountCssOk(f: Frame, r: nat)
    requires FrameOk(f) && CanUnmount(f, r)
    ensures CssOk(UnmountFrame(f, r))
  {
    hide IndexOf, Drop;
    var f' := UnmountFrame(f, r);
    assert Top(DUMMY) in f'.css;
    forall ss | ss in f'.owner
      ensures f'.owner[ss] in f'.roots && ss in f'.css[Top(DUMMY)] && Top(f'.owner[ss]) in f'.css
              && ss in f'.css[Top(f'.owner[ss])] && f'.css[Top(f'.owner[ss])][ss] == f'.css[Top(DUMMY)][ss]
    {
      UnmountOwnerOk(f, r, ss);
    }
    forall g, ss | g in f'.css && ss in f'.owner && f'.owner[ss] == g.root ensures ss in f'.css[g] {
      if f.owner[ss] == r { assert g == Top(DUMMY); }
    }
  }

  lemma UnmountAligned(f: Frame, r: nat, links: seq<Cgroup>)
    requires FrameOk(f) && CanUnmount(f, r) && Aligned(f, links)
    ensures Aligned(UnmountFrame(f, r), Drop(links, IndexOf(f.roots, r)))
  {
  }

  lemma UnmountCssAt(f: Frame, r: nat, links: seq<Cgroup>, ss: nat)
    requires FrameOk(f) && CanUnmount(f, r) && Aligned(f, links) && ss in f.owner
    requires FrameOk(UnmountFrame(f, r)) && Aligned(UnmountFrame(f, r), Drop(links, IndexOf(f.roots, r)))
    ensures CssAt(UnmountFrame(f, r), Drop(links, IndexOf(f.roots, r)), ss) == CssAt(f, links, ss)
  {
    hide IndexOf, FrameOk, CanUnmount, CssAt;
    UnmountRootsOk(f, r);
    OwnerRoot(f, ss);
    if f.owner[ss] == r {
      UnmountMoved(f, r, links, ss);
    } else {
      UnmountKept(f, r, links, ss);
    }
  }

  lemma OwnerRoot(f: Frame, ss: nat)
    requires FrameOk(f) && ss in f.owner
    ensures f.owner[ss] in f.roots && Distinct(f.roots)
  {
  }

  lemma UnmountKept(f: Frame, r: nat, links: seq<Cgroup>, ss: nat)
    requires FrameOk(f) && r in f.roots && Aligned(f, links) && ss in f.owner && f.owner[ss] != r
    requires FrameOk(UnmountFrame(f, r)) && Aligned(UnmountFrame(f, r), Drop(links, IndexOf(f.roots, r)))
    ensures CssAt(UnmountFrame(f, r), Drop(links, IndexOf(f.roots, r)), ss) == CssAt(f, links, ss)
  {
    hide IndexOf, FrameOk;
    OwnerRoot(f, ss);
    IndexDrop(f.roots, IndexOf(f.roots, r), f.owner[ss]);
  }

  /** A subsystem of the hierarchy goes back to the dummy top, which still has its root css. */
  lemma UnmountMoved(f: Frame, r: nat, links: seq<Cgroup>, ss: nat)
    requires FrameOk(f) && CanUnmount(f, r) && Aligned(f, links) && ss in f.owner && f.owner[ss] == r
    requires FrameOk(UnmountFrame(f, r)) && Aligned(UnmountFrame(f, r), Drop(links, IndexOf(f.roots, r)))
    requires IndexOf(f.roots, r) > 0
    ensures CssAt(UnmountFrame(f, r), Drop(links, IndexOf(f.roots, r)), ss) == CssAt(f, links, ss)
  {
  }

  lemma UnmountSizes(f: Frame, r: nat, links: seq<Cgroup>, subsys: map<nat, nat>)
    requires CanUnmount(f, r) && FrameOk(f) && CsetOk(f, links, subsys)
    ensures |links| == |f.roots| && r in f.roots
  {
  }

  lemma UnmountCsetOk(f: Frame, r: nat, links: seq<Cgroup>, subsys: map<nat, nat>)
    requires FrameOk(f) && CanUnmount(f, r) && CsetOk(f, links, subsys)
    ensures FrameOk(UnmountFrame(f, r)) && CsetOk(UnmountFrame(f, r), Drop(links, IndexOf(f.roots, r)), subsys)
  {
    hide Aligned, CssAt, CanUnmount, IndexOf, Drop, RootsOk, CssOk;
    UnmountSizes(f, r, links, subsys);
    UnmountRootsOk(f, r);
    UnmountCssOk(f, r);
    UnmountAligned(f, r, links);
    assert UnmountFrame(f, r).owner.Keys == f.owner.Keys;
    forall ss | ss in f.owner ensures subsys[ss] == CssAt(UnmountFrame(f, r), Drop(links, IndexOf(f.roots, r)), ss) {
      UnmountCssAt(f, r, links, ss);
    }
  }

  /** Dropping the one cgroup that all choices share keeps them apart. */
  lemma DropInjective(a: seq<Cgroup>, b: seq<Cgroup>, k: nat)
    requires |a| == |b| && k < |a| && a[k] == b[k] && Drop(a, k) == Drop(b, k)
    ensures a == b
  {
    assert forall i :: 0 <= i < k ==> a[i] == Drop(a, k)[i] && b[i] == Drop(b, k)[i];
    assert forall i :: k < i < |a| ==> a[i] == Drop(a, k)[i - 1] && b[i] == Drop(b, k)[i - 1];
  }

  lemma UnmountUnique(f: Frame, r: nat, csets: map<nat, CssSet>)
    requires FrameOk(f) && CanUnmount(f, r) && CsetsOk(f, csets) && Unique(csets)
    ensures forall id :: id in csets ==> |csets[id].links| == |f.roots|
    ensures Unique(Unlinked(csets, IndexOf(f.roots, r)))
  {
    hide IndexOf, CssOk, CssAt;
    assert forall id :: id in csets ==> |csets[id].links| == |f.roots|;
    var k := IndexOf(f.roots, r);
    assert forall id :: id in csets ==> csets[id].links[k] in f.css && csets[id].links[k].root == r;
    hide CsetsOk, Drop;
    var csets' := Unlinked(csets, k);
    forall a, b | a in csets' && b in csets' && csets'[a].links == csets'[b].links ensures a == b {
      DropInjective(csets[a].links, csets[b].links, k);
    }
  }

  lemma UnmountCsetsOk(f: Frame, r: nat, csets: map<nat, CssSet>)
    requires FrameOk(f) && CanUnmount(f, r) && CsetsOk(f, csets)
    requires forall id :: id in csets ==> |csets[id].links| == |f.roots|
    ensures FrameOk(UnmountFrame(f, r)) && CsetsOk(UnmountFrame(f, r), Unlinked(csets, IndexOf(f.roots, r)))
  {
    UnmountRootsOk(f, r);
    UnmountCssOk(f, r);
    hide RootsOk, CssOk, CsetOk, UnmountFrame, CanUnmount, Drop, IndexOf;
    forall id | id in csets
      ensures CsetOk(UnmountFrame(f, r), Drop(csets[id].links, IndexOf(f.roots, r)), csets[id].subsys)
    {
      UnmountCsetOk(f, r, csets[id].links, csets[id].subsys);
    }
  }

  lemma UnmountInitOk(f: Frame, r: nat, csets: map<nat, CssSet>)
    requires r in f.roots && InitOk(f, csets) && forall id :: id in csets ==> |csets[id].links| == |f.roots|
    ensures InitOk(UnmountFrame(f, r), Unlinked(csets, IndexOf(f.roots, r)))
  {
  }

  lemma UnmountKeepsInv(s: State, r: nat)
    requires Inv(s) && CanUnmount(s.f, r)
    ensures (forall id :: id in s.csets ==> |s.csets[id].links| == |s.f.roots|) && Inv(Unmount(s, r))
  {
    hide FrameOk, CsetsOk, Unique, InitOk, Counted, IndexOf, Drop, UnmountFrame;
    UnmountUnique(s.f, r, s.csets);
    UnmountCsetsOk(s.f, r, s.csets);
    UnmountInitOk(s.f, r, s.csets);
    ReframeKeepsInv(s, Unmount(s, r));
  }

  // ---- load and unload of a subsystem

  lemma LoadFrameOk(f: Frame, ss: nat, c: nat)
    requires FrameOk(f) && ss !in f.owner
    ensures FrameOk(LoadFrame(f, ss, c))
  {
  }

  /** The dummy hierarchy's link is the dummy top in every css_set. */
  lemma DummyLink(f: Frame, links: seq<Cgroup>)
    requires RootsOk(f) && Aligned(f, links)
    ensures links[0] == Top(DUMMY) && DUMMY in f.roots && IndexOf(f.roots, DUMMY) == 0
  {
  }

  lemma LoadCsetOk(f: Frame, ss: nat, c: nat, links: seq<Cgroup>, subsys: map<nat, nat>)
    requires FrameOk(f) && ss !in f.owner && CsetOk(f, links, subsys)
    ensures FrameOk(LoadFrame(f, ss, c)) && CsetOk(LoadFrame(f, ss, c), links, subsys[ss := c])
  {
    LoadFrameOk(f, ss, c);
    var f' := LoadFrame(f, ss, c);
    assert Aligned(f', links);
    hide IndexOf;
    forall x | x in f'.owner ensures subsys[ss := c][x] == CssAt(f', links, x) { LoadCssAt(f, ss, c, links, x); }
  }

  lemma LoadCssAt(f: Frame, ss: nat, c: nat, links: seq<Cgroup>, x: nat)
    requires FrameOk(f) && ss !in f.owner && Aligned(f, links) && (x in f.owner || x == ss)
    requires FrameOk(LoadFrame(f, ss, c)) && Aligned(LoadFrame(f, ss, c), links)
    ensures CssAt(LoadFrame(f, ss, c), links, x) == if x == ss then c else CssAt(f, links, x)
  {
  }

  lemma LoadCsetsOk(f: Frame, ss: nat, c: nat, csets: map<nat, CssSet>)
    requires FrameOk(f) && ss !in f.owner && CsetsOk(f, csets)
    ensures FrameOk(LoadFrame(f, ss, c)) && CsetsOk(LoadFrame(f, ss, c), Entangled(csets, ss, c))
  {
    LoadFrameOk(f, ss, c);
    hide RootsOk, CssOk, CsetOk, LoadFrame;
    forall id | id in csets ensures CsetOk(LoadFrame(f, ss, c), csets[id].links, csets[id].subsys[ss := c]) {
      LoadCsetOk(f, ss, c, csets[id].links, csets[id].subsys);
    }
  }

  lemma LoadKeepsInv(s: State, ss: nat, c: nat)
    requires Inv(s) && ss !in s.f.owner
    ensures Top(DUMMY) in s.f.css && Inv(Load(s, ss, c))
  {
    hide RootsOk, CsetsOk, Counted;
    assert Top(DUMMY) in s.f.css;
    hide CssOk;
    LoadCsetsOk(s.f, ss, c, s.csets);
    ReframeKeepsInv(s, Load(s, ss, c));
  }

  lemma UnloadFrameOk(f: Frame, ss: nat)
    requires FrameOk(f) && ss in f.owner && f.owner[ss] == DUMMY
    ensures FrameOk(UnloadFrame(f, ss))
  {
  }

  lemma UnloadCsetOk(f: Frame, ss: nat, links: seq<Cgroup>, subsys: map<nat, nat>)
    requires FrameOk(f) && ss in f.owner && f.owner[ss] == DUMMY && CsetOk(f, links, subsys)
    ensures FrameOk(UnloadFrame(f, ss)) && CsetOk(UnloadFrame(f, ss), links, subsys - {ss})
  {
    UnloadFrameOk(f, ss);
    hide IndexOf;
    var f' := UnloadFrame(f, ss);
    assert Aligned(f', links);
    forall x | x in f'.owner ensures (subsys - {ss})[x] == CssAt(f', links, x) {
      assert f'.owner[x] == f.owner[x] && CssAt(f, links, x) == CssAt(f', links, x);
    }
  }

  lemma UnloadCsetsOk(f: Frame, ss: nat, csets: map<nat, CssSet>)
    requires FrameOk(f) && ss in f.owner && f.owner[ss] == DUMMY && CsetsOk(f, csets)
    ensures FrameOk(UnloadFrame(f, ss)) && CsetsOk(UnloadFrame(f, ss), Disentangled(csets, ss))
  {
    UnloadFrameOk(f, ss);
    hide RootsOk, CssOk, CsetOk, UnloadFrame;
    forall id | id in csets ensures CsetOk(UnloadFrame(f, ss), csets[id].links, csets[id].subsys - {ss}) {
      UnloadCsetOk(f, ss, csets[id].links, csets[id].subsys);
    }
  }

  lemma UnloadKeepsInv(s: State, ss: nat)
    requires Inv(s) && ss in s.f.owner && s.f.owner[ss] == DUMMY
    ensures Top(DUMMY) in s.f.css && Inv(Unload(s, ss))
  {
    hide RootsOk, CsetsOk, Counted;
    assert Top(DUMMY) in s.f.css;
    hide CssOk;
    UnloadCsetsOk(s.f, ss, s.csets);
    ReframeKeepsInv(s, Unload(s, ss));
  }

  // ---- creation and removal of a cgroup

  /** Frames that agree on a css_set's cgroups judge it alike. */
  lemma OtherCgroupCsetOk(f: Frame, f': Frame, links: seq<Cgroup>, subsys: map<nat, nat>)
    requires FrameOk(f) && FrameOk(f') && f'.roots == f.roots && f'.owner == f.owner && CsetOk(f, links, subsys)
    requires forall i :: 0 <= i < |links| ==> links[i] in f.css && links[i] in f'.css && f'.css[links[i]] == f.css[links[i]]
    ensures CsetOk(f', links, subsys)
  {
  }

  lemma OtherCgroupCsetsOk(f: Frame, f': Frame, csets: map<nat, CssSet>)
    requires FrameOk(f) && FrameOk(f') && f'.roots == f.roots && f'.owner == f.owner && CsetsOk(f, csets)
    requires forall id, i :: id in csets && 0 <= i < |csets[id].links| ==>
               var g := csets[id].links[i]; g in f.css && g in f'.css && f'.css[g] == f.css[g]
    ensures CsetsOk(f', csets)
  {
    hide RootsOk, CssOk, CsetOk;
    forall id | id in csets ensures CsetOk(f', csets[id].links, csets[id].subsys) {
      OtherCgroupCsetOk(f, f', csets[id].links, csets[id].subsys);
    }
  }

  lemma LinksLive(f: Frame, csets: map<nat, CssSet>)
    requires FrameOk(f) && CsetsOk(f, csets)
    ensures forall id, i :: id in csets && 0 <= i < |csets[id].links| ==> csets[id].links[i] in f.css
  {
  }

  lemma CreateFrameOk(f: Frame, g: Cgroup, ptrs: map<nat, nat>)
    requires FrameOk(f) && CanCreate(f, g, ptrs)
    ensures FrameOk(f.(css := f.css[g := ptrs]))
  {
  }

  lemma CreateKeepsInv(s: State, g: Cgroup, ptrs: map<nat, nat>)
    requires Inv(s) && CanCreate(s.f, g, ptrs)
    ensures Inv(CreateCgroup(s, g, ptrs))
  {
    hide RootsOk, CssOk, CsetsOk, Counted;
    CreateFrameOk(s.f, g, ptrs);
    LinksLive(s.f, s.csets);
    OtherCgroupCsetsOk(s.f, CreateCgroup(s, g, ptrs).f, s.csets);
    ReframeKeepsInv(s, CreateCgroup(s, g, ptrs));
  }

  lemma DestroyFrameOk(f: Frame, g: Cgroup)
    requires FrameOk(f) && g.num != 0
    ensures FrameOk(f.(css := f.css - {g}))
  {
  }

  lemma DestroyKeepsInv(s: State, g: Cgroup)
    requires Inv(s) && CanDestroy(s, g)
    ensures Inv(DestroyCgroup(s, g))
  {
    hide RootsOk, CssOk, CsetsOk, Counted;
    DestroyFrameOk(s.f, g);
    LinksLive(s.f, s.csets);
    OtherCgroupCsetsOk(s.f, DestroyCgroup(s, g).f, s.csets);
    ReframeKeepsInv(s, DestroyCgroup(s, g));
  }

  // ---------------------------------------------------------------- whole runs

  /** Every critical section as one step: an attach is a series of references taken
      (OpAcquire, OpInstall) and then used (OpMigrate) or put back (OpRelease), and forks and
      exits of other tasks may fall between any two of them. */
  datatype Op =
    | OpAcquire(id: nat)
    | OpInstall(old0: nat, g: Cgroup, id: nat)
    | OpRelease(id: nat)
    | OpMigrate(t: nat, id: nat)
    | OpFork(p: nat, c: nat)
    | OpExiting(t: nat)
    | OpExit(t: nat)
    | OpMount(r: nat, mask: set<nat>)
    | OpUnmount(r: nat)
    | OpLoad(ss: nat, c: nat)
    | OpUnload(ss: nat)
    | OpCreate(g: Cgroup, ptrs: map<nat, nat>)
    | OpDestroy(g: Cgroup)

  ghost predicate LiveTask(s: State, t: nat) {
    t in s.tasks && s.tasks[t].phase != Gone && s.tasks[t].cset in s.csets
  }

  ghost predicate NoMatch(s: State, old0: nat, g: Cgroup) {
    CanSubst(s, old0, g) && forall x :: !Matches(s, old0, g, x)
  }

  ghost predicate UniformLinks(s: State) {
    forall id :: id in s.csets ==> |s.csets[id].links| == |s.f.roots|
  }

  /** What each step needs.  That a task's css_set exists, that all css_sets have one link per hierarchy, that
      the frame is in order and that the dummy top exists hold in every state with Inv; they are named so that
      Apply is well defined by itself. */
  ghost predicate Enabled(s: State, op: Op) {
    match op
    case OpAcquire(id) => id in s.csets
    case OpInstall(old0, g, id) => id !in s.csets && NoMatch(s, old0, g)
    case OpRelease(id) => id in s.held && id in s.csets
    case OpMigrate(t, id) => id in s.held && LiveTask(s, t) && t != 0 && s.tasks[t].phase == Running
    case OpFork(p, c) => LiveTask(s, p) && s.tasks[p].phase == Running && c !in s.tasks
    case OpExiting(t) => LiveTask(s, t) && t != 0
    case OpExit(t) => LiveTask(s, t) && t != 0
    case OpMount(r, mask) => FrameOk(s.f) && CanMount(s.f, r, mask)
    case OpUnmount(r) => UniformLinks(s) && CanUnmount(s.f, r)
    case OpLoad(ss, c) => Top(DUMMY) in s.f.css && ss !in s.f.owner
    case OpUnload(ss) => Top(DUMMY) in s.f.css && ss in s.f.owner && s.f.owner[ss] == DUMMY
    case OpCreate(g, ptrs) => CanCreate(s.f, g, ptrs)
    case OpDestroy(g) => CanDestroy(s, g)
  }

  ghost function Apply(s: State, op: Op): State
    requires Enabled(s, op)
  {
    match op
    case OpAcquire(id) => Acquire(s, id)
    case OpInstall(old0, g, id) => Install(s, old0, g, id)
    case OpRelease(id) => Release(s, id)
    case OpMigrate(t, id) => Migrate(s, t, id)
    case OpFork(p, c) => Fork(s, p, c)
    case OpExiting(t) => StartExit(s, t)
    case OpExit(t) => Exit(s, t)
    case OpMount(r, mask) => Mount(s, r, mask)
    case OpUnmount(r) => Unmount(s, r)
    case OpLoad(ss, c) => Load(s, ss, c)
    case OpUnload(ss) => Unload(s, ss)
    case OpCreate(g, ptrs) => CreateCgroup(s, g, ptrs)
    case OpDestroy(g) => DestroyCgroup(s, g)
  }

  lemma ApplyKeepsInv(s: State, op: Op)
    requires Inv(s) && Enabled(s, op)
    ensures Inv(Apply(s, op))
  {
    hide Inv, CanMount, CanUnmount, CanCreate, CanDestroy, FrameOk, CanSubst, UniformLinks, Mount, Unmount, Install;
    match op
    case OpAcquire(id) => AcquireKeepsInv(s, id);
    case OpInstall(old0, g, id) => InstallKeepsInv(s, old0, g, id);
    case OpRelease(id) => ReleaseKeepsInv(s, id);
    case OpMigrate(t, id) => MigrateKeepsInv(s, t, id);
    case OpFork(p, c) => ForkKeepsInv(s, p, c);
    case OpExiting(t) => StartExitKeepsInv(s, t);
    case OpExit(t) => ExitKeepsInv(s, t);
    case OpMount(r, mask) => MountKeepsInv(s, r, mask);
    case OpUnmount(r) => UnmountKeepsInv(s, r);
    case OpLoad(ss, c) => LoadKeepsInv(s, ss, c);
    case OpUnload(ss) => UnloadKeepsInv(s, ss);
    case OpCreate(g, ptrs) => CreateKeepsInv(s, g, ptrs);
    case OpDestroy(g) => DestroyKeepsInv(s, g);
  }

  /** cgroup_init_early and cgroup_init with the built-in subsystems' root css pointers. */
  function Boot(ptrs: map<nat, nat>): State {
    State(Frame([DUMMY], map[Top(DUMMY) := ptrs], map ss | ss in ptrs :: DUMMY),
          map[INIT := CssSet(1, [Top(DUMMY)], ptrs)], map[0 := Task(INIT, Running)], multiset{})
  }

  lemma BootInv(ptrs: map<nat, nat>)
    ensures Inv(Boot(ptrs))
  {
    var s := Boot(ptrs);
    assert Users(s.tasks, INIT) == {0};
    assert s.f.roots[0] in s.f.roots;
  }

  /** The state after any sequence of steps from boot; a step that is not enabled is not taken. */
  ghost function Run(ops: seq<Op>, ptrs: map<nat, nat>): (s: State)
    ensures Inv(s)
  {
    if ops == [] then
      BootInv(ptrs);
      Boot(ptrs)
    else
      var s := Run(ops[..|ops| - 1], ptrs);
      var op := ops[|ops| - 1];
      if Enabled(s, op) then
        ApplyKeepsInv(s, op);
        Apply(s, op)
      else s
  }

  /**
   * In every reachable state each css_set has one link per hierarchy, all in the order of the hierarchies,
   * no two css_sets have the same links, each pointer is that of the linked cgroup, and the count of a
   * css_set is that of its tasks and of the references held.
   */
  lemma ReachableCssSets(ops: seq<Op>, ptrs: map<nat, nat>, id: nat)
    requires id in Run(ops, ptrs).csets
    ensures var s := Run(ops, ptrs); var c := s.csets[id];
            && |c.links| == |s.f.roots| && (forall i :: 0 <= i < |c.links| ==> c.links[i].root == s.f.roots[i])
            && (forall o :: o in s.csets && s.csets[o].links == c.links ==> o == id)
            && (forall ss :: ss in s.f.owner ==> ss in c.subsys && PointsAt(s.f, c.links, ss, c.subsys[ss]))
            && c.refs == |Users(s.tasks, id)| + s.held[id]
  {
    var s := Run(ops, ptrs);
    hide Run, FrameOk, InitOk, IdleRuns, CssAt, PointsAt, Users;
    PointersMean(s.f, s.csets[id].links, s.csets[id].subsys);
  }

  lemma PointersMean(f: Frame, links: seq<Cgroup>, subsys: map<nat, nat>)
    requires FrameOk(f) && CsetOk(f, links, subsys)
    ensures |links| == |f.roots| && forall i :: 0 <= i < |links| ==> links[i].root == f.roots[i]
    ensures forall ss :: ss in f.owner ==> ss in subsys && PointsAt(f, links, ss, subsys[ss])
  {
  }

  /** `css` is the css of subsystem `ss` in the cgroup linked for the hierarchy it is bound to. */
  ghost predicate PointsAt(f: Frame, links: seq<Cgroup>, ss: nat, css: nat) {
    && ss in f.owner
    && exists i :: 0 <= i < |links| && links[i].root == f.owner[ss] && links[i] in f.css
                   && ss in f.css[links[i]] && f.css[links[i]][ss] == css
  }

}
