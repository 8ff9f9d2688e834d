/** Several writers of freezer.state at once.

    A write walks its subtree in pre-order and locks one freezer at a time, so writes overlap
    with each other, with creation and removal of cgroups, with attach and with reads.  Each
    step here is what the code does under one freezer->lock, or one store outside of them. */
module FreezerWalks {
  import F = Freezers
  import opened Hierarchy
  import opened Options

  /** On reaching a freezer the writer locks it, looks at its parent, whose lock it does not
      take, and applies what it saw. */
  datatype Phase = Arrived | Looked(freezing: bool) | Left

  datatype Walk = Walk(root: nat, freeze: bool, pos: nat, phase: Phase)

  /** A freezer that freezer_css_online has put online below `p` and that its cgroup does not
      point to yet: online_css stores the pointer last, and a walk takes a cgroup without one
      for the end of the list. */
  datatype New = New(p: nat, f: F.Freezer)

  /** `creating`, like the attach that `sys.pending` stands for, holds cgroup_mutex.  `missed`
      are the cgroups that came into view too late for a walk, and that none has reached since. */
  datatype State = State(sys: F.Sys, creating: Option<New>, walks: map<nat, Walk>, missed: set<nat>)

  // ---------------------------------------------------------------- the invariant

  ghost predicate WalkOk(h: Hier, w: Walk)
    requires Valid(h)
  {
    w.root in h.parent && w.pos in h.parent && IsDescendant(h, w.pos, w.root)
  }

  ghost predicate WalksOk(h: Hier, walks: map<nat, Walk>)
    requires Valid(h)
  {
    forall id :: id in walks ==> WalkOk(h, walks[id])
  }

  /** The walk has yet to let `n` follow its parent. */
  ghost predicate Covers(h: Hier, w: Walk, n: nat)
    requires Valid(h) && WalkOk(h, w)
  {
    n != w.root && ((n == w.pos && w.phase != Left) || n in PreRest(h, w.pos, w.root))
  }

  /** Some walk, other than `but`, covers `n`. */
  ghost predicate Covered(h: Hier, walks: map<nat, Walk>, n: nat, but: Option<nat>)
    requires Valid(h) && WalksOk(h, walks)
  {
    exists id :: id in walks && Some(id) != but && Covers(h, walks[id], n)
  }

  ghost predicate Locked(walks: map<nat, Walk>, n: nat) {
    exists id :: id in walks && walks[id].phase.Looked? && walks[id].pos == n
  }

  predicate LookAtSame(v: Walk, w: Walk) {
    v.phase.Looked? && w.phase.Looked? && v.pos == w.pos
  }

  /** A lock has one holder. */
  ghost predicate OneEach(walks: map<nat, Walk>) {
    forall i, j :: i in walks && j in walks && LookAtSame(walks[i], walks[j]) ==> i == j
  }

  ghost predicate FlagsOk(h: Hier, fs: map<nat, F.Freezer>, n: nat)
    requires F.WellFormed(h, fs) && n in fs
  {
    if n == TOP then fs[n] == F.Freezer(true, false, false, false) else
      && (!fs[n].online ==> fs[n] == F.OFF)
      && (fs[n].frozen ==> F.Freezing(fs[n]))
      && (fs[n].online ==> fs[h.parent[n]].online)
  }

  /** An online freezer follows its parent, a walk is still to see to that, or all have missed it. */
  ghost predicate Follows(h: Hier, fs: map<nat, F.Freezer>, walks: map<nat, Walk>, missed: set<nat>, n: nat)
    requires F.WellFormed(h, fs) && WalksOk(h, walks) && n in h.parent
  {
    fs[n].online ==> (fs[n].parent <==> F.Freezing(fs[h.parent[n]])) || Covered(h, walks, n, None) || n in missed
  }

  /** What a walk saw is still so, or another walk is to follow. */
  ghost predicate Current(h: Hier, fs: map<nat, F.Freezer>, walks: map<nat, Walk>, id: nat)
    requires F.WellFormed(h, fs) && WalksOk(h, walks) && id in walks
  {
    var w := walks[id];
    assert WalkOk(h, w);
    w.phase.Looked? && w.pos != w.root && fs[w.pos].online ==>
      (w.phase.freezing <==> F.Freezing(fs[h.parent[w.pos]])) || Covered(h, walks, w.pos, Some(id))
  }

  ghost predicate FreezersOk(h: Hier, fs: map<nat, F.Freezer>, walks: map<nat, Walk>, missed: set<nat>) {
    && F.WellFormed(h, fs) && WalksOk(h, walks) && OneEach(walks)
    && (forall n {:trigger FlagsOk(h, fs, n)} :: n in fs ==> FlagsOk(h, fs, n))
    && (forall n {:trigger Follows(h, fs, walks, missed, n)} :: n in h.parent ==> Follows(h, fs, walks, missed, n))
    && (forall id {:trigger Current(h, fs, walks, id)} :: id in walks ==> Current(h, fs, walks, id))
  }

  function Weight(f: F.Freezer): int {
    if f.online && F.Freezing(f) then 1 else 0
  }

  ghost predicate Counted(t: State) {
    t.sys.cnt == |F.FreezingSet(t.sys.fs)| + if t.creating.Some? then Weight(t.creating.value.f) else 0
  }

  ghost predicate MutexOk(t: State) {
    && (t.sys.pending.Some? ==> t.sys.pending.value in t.sys.fs && t.creating.None?)
    && (t.creating.Some? ==>
          var New(p, f) := t.creating.value;
          p in t.sys.fs && t.sys.fs[p].online && f.online && !f.self && f.frozen == f.parent)
  }

  ghost predicate Inv(t: State) {
    FreezersOk(t.sys.h, t.sys.fs, t.walks, t.missed) && Counted(t) && MutexOk(t)
  }

  // ---------------------------------------------------------------- the steps

  function Start(t: State, id: nat, root: nat, freeze: bool): State {
    t.(walks := t.walks[id := Walk(root, freeze, root, Arrived)])
  }

  ghost function Look(t: State, id: nat): State
    requires Inv(t) && id in t.walks
  {
    var w := t.walks[id];
    assert WalkOk(t.sys.h, w);
    var freezing := if w.pos == w.root then w.freeze else F.Freezing(t.sys.fs[t.sys.h.parent[w.pos]]);
    t.(walks := t.walks[id := w.(phase := Looked(freezing))])
  }

  /** freezer_apply_state and the release of the lock. */
  function ApplyLook(t: State, id: nat): State
    requires id in t.walks && t.walks[id].phase.Looked? && t.walks[id].pos in t.sys.fs
  {
    var w := t.walks[id];
    var f := t.sys.fs[w.pos];
    var g := F.Applied(f, w.phase.freezing, w.pos == w.root);
    State(t.sys.(fs := t.sys.fs[w.pos := g], cnt := t.sys.cnt + Weight(g) - Weight(f)), t.creating,
          t.walks[id := w.(phase := Left)], Reached(t.missed, w))
  }

  function Reached(missed: set<nat>, w: Walk): set<nat> {
    if w.pos == w.root then missed else missed - {w.pos}
  }

  /** css_next_descendant_pre on the tree as it is by now. */
  ghost function Advance(t: State, id: nat): State
    requires Inv(t) && id in t.walks
  {
    var w := t.walks[id];
    assert WalkOk(t.sys.h, w);
    var rest := PreRest(t.sys.h, w.pos, w.root);
    t.(walks := if rest == [] then t.walks - {id} else t.walks[id := w.(pos := rest[0], phase := Arrived)])
  }

  /** freezer_css_online, under the locks of the new freezer and its parent. */
  function GoOnline(t: State, p: nat): State
    requires p in t.sys.fs
  {
    var f := F.OnlineState(t.sys.fs[p]);
    t.(sys := t.sys.(cnt := t.sys.cnt + Weight(f)), creating := Some(New(p, f)))
  }

  /** The walk has not left `p`'s subtree behind. */
  ghost predicate Unfinished(h: Hier, w: Walk, p: nat)
    requires Valid(h) && WalkOk(h, w)
  {
    p in PreRest(h, w.pos, w.root) || (IsDescendant(h, w.pos, p) && IsDescendant(h, p, w.root))
  }

  /** The parent has changed since the new freezer took after it, and each walk is done with the parent's subtree. */
  ghost predicate Late(t: State)
    requires Inv(t) && t.creating.Some?
  {
    var New(p, f) := t.creating.value;
    f.parent != F.Freezing(t.sys.fs[p]) && forall id :: id in t.walks ==> !Unfinished(t.sys.h, t.walks[id], p)
  }

  /** The cgroup, last in its parent's list, gets its pointer to the new freezer. */
  ghost function Publish(t: State): State
    requires Inv(t) && t.creating.Some?
  {
    var New(p, f) := t.creating.value;
    State(t.sys.(h := Create(t.sys.h, p), fs := t.sys.fs[t.sys.h.next := f]), None, t.walks,
          t.missed + if Late(t) then {t.sys.h.next} else {})
  }

  datatype Op =
    | OpStart(id: nat, root: nat, freeze: bool)
    | OpLook(id: nat)
    | OpApply(id: nat)
    | OpAdvance(id: nat)
    | OpOnline(p: nat)
    | OpPublish
    | OpOffline(n: nat)
    | OpAttach(n: nat, ntasks: nat)
    | OpAttachUp
    | OpUpdate(n: nat, tasksFrozen: bool)

  ghost predicate MutexFree(t: State) { t.creating.None? && t.sys.pending.None? }

  /** With `serial` neither a write nor a creation starts while a write or a creation is under
      way; the code does not ask for that. */
  ghost predicate Enabled(t: State, op: Op, serial: bool)
    requires Inv(t)
  {
    match op
    case OpStart(id, root, _) =>
      id !in t.walks && root in t.sys.h.parent && (serial ==> t.walks == map[] && t.creating.None?)
    case OpLook(id) => id in t.walks && t.walks[id].phase == Arrived && !Locked(t.walks, t.walks[id].pos)
    case OpApply(id) => id in t.walks && t.walks[id].phase.Looked?
    case OpAdvance(id) => id in t.walks && t.walks[id].phase == Left
    case OpOnline(p) =>
      MutexFree(t) && p in t.sys.fs && t.sys.fs[p].online && !Locked(t.walks, p) && (serial ==> t.walks == map[])
    case OpPublish => t.creating.Some?
    case OpOffline(n) => MutexFree(t) && F.CanGoOffline(t.sys, n) && !Locked(t.walks, n)
    case OpAttach(n, _) => MutexFree(t) && n in t.sys.fs && !Locked(t.walks, n)
    case OpAttachUp =>
      t.sys.pending.Some? &&
      (t.sys.pending.value in t.sys.h.parent ==> !Locked(t.walks, t.sys.h.parent[t.sys.pending.value]))
    case OpUpdate(n, _) => n in t.sys.fs && !Locked(t.walks, n)
  }

  ghost function Step(t: State, op: Op): State
    requires Inv(t) && Enabled(t, op, false)
  {
    hide FlagsOk, Follows, Current, OneEach, Locked;
    match op
    case OpStart(id, root, freeze) => Start(t, id, root, freeze)
    case OpLook(id) => Look(t, id)
    case OpApply(id) =>
      assert WalkOk(t.sys.h, t.walks[id]);
      ApplyLook(t, id)
    case OpAdvance(id) => Advance(t, id)
    case OpOnline(p) => GoOnline(t, p)
    case OpPublish => Publish(t)
    case OpOffline(n) => t.(sys := F.Offline(t.sys, n))
    case OpAttach(n, ntasks) => t.(sys := F.AttachStart(t.sys, n, ntasks))
    case OpAttachUp => t.(sys := F.AttachUp(t.sys))
    case OpUpdate(n, tasksFrozen) => t.(sys := F.UpdateIfFrozen(t.sys, n, tasksFrozen))
  }

  // ---------------------------------------------------------------- what lies ahead of a walk

  /** Once a subtree is done the walk goes on with the head of what remains. */
  lemma {:induction false} AfterSubtreeHead(h: Hier, pos: nat, root: nat)
    requires Valid(h) && IsDescendant(h, pos, root) && AfterSubtree(h, pos, root) != []
    ensures var n := AfterSubtree(h, pos, root)[0];
            n in h.parent && n != root && IsDescendant(h, n, root) && AfterSubtree(h, pos, root) == [n] + PreRest(h, n, root)
    decreases pos
  {
    var p := h.parent[pos];
    var k := IndexOf(h.kids[p], pos) + 1;
    if k == |h.kids[p]| {
      LastSiblingRest(h, pos, root);
      AfterSubtreeHead(h, p, root);
    } else {
      EnterChildPre(h, p, k, root);
      ChildDescends(h, p, k, root);
    }
  }

  lemma PreRestHead(h: Hier, pos: nat, root: nat)
    requires Valid(h) && IsDescendant(h, pos, root) && PreRest(h, pos, root) != []
    ensures var n := PreRest(h, pos, root)[0];
            n in h.parent && n != root && IsDescendant(h, n, root) && PreRest(h, pos, root) == [n] + PreRest(h, n, root)
  {
    if h.kids[pos] == [] {
      LeafRest(h, pos, root);
      AfterSubtreeHead(h, pos, root);
    } else {
      EnterChildPre(h, pos, 0, root);
      ChildDescends(h, pos, 0, root);
    }
  }

  /** The children of the node a walk is at lie ahead of it. */
  lemma ChildAhead(h: Hier, w: Walk, n: nat)
    requires Valid(h) && WalkOk(h, w) && n in h.parent && h.parent[n] == w.pos
    ensures Covers(h, w, n)
  {
    var k := IndexOf(h.kids[w.pos], n);
    assert IsDescendant(h, n, h.kids[w.pos][k]);
    PreKidsContents(h, w.pos, 0, n);
    DescendantNotSmaller(h, w.pos, w.root);
  }

  /** A new leaf takes nothing off what lies ahead. */
  lemma CreateKeepsKids(h: Hier, p: nat, q: nat, i: nat, d: nat)
    requires Valid(h) && p in h.kids && q in h.kids && i <= |h.kids[q]| && d in PreKids(h, q, i)
    ensures Valid(Create(h, p)) && i <= |Create(h, p).kids[q]| && d in PreKids(Create(h, p), q, i)
  {
    CreateValid(h, p);
    PreKidsContents(h, q, i, d);
    PreKidsContents(Create(h, p), q, i, d);
    var k :| i <= k < |h.kids[q]| && IsDescendant(h, d, h.kids[q][k]);
    CreateKeepsDescent(h, p, d, h.kids[q][k]);
    assert Create(h, p).kids[q][k] == h.kids[q][k];
  }

  /** Nor does it move an older child in its parent's list. */
  lemma CreateKeepsIndex(h: Hier, p: nat, c: nat)
    requires Valid(h) && p in h.kids && c in h.parent
    ensures var h' := Create(h, p);
            && Valid(h') && c in h'.parent && h'.parent[c] == h.parent[c]
            && IndexOf(h'.kids[h.parent[c]], c) == IndexOf(h.kids[h.parent[c]], c)
  {
    CreateValid(h, p);
    var k := IndexOf(h.kids[h.parent[c]], c);
    assert Create(h, p).kids[h.parent[c]][k] == c;
    IndexUnique(Create(h, p).kids[h.parent[c]], k);
  }

  lemma {:induction false} AfterMember(h: Hier, pos: nat, root: nat, d: nat)
    requires Valid(h) && IsDescendant(h, pos, root)
    ensures pos in h.kids && (pos == root ==> d !in AfterSubtree(h, pos, root))
    ensures pos != root ==>
              && pos in h.parent && h.parent[pos] in h.kids && pos in h.kids[h.parent[pos]] && h.parent[pos] < pos
              && IsDescendant(h, h.parent[pos], root)
              && (d in AfterSubtree(h, pos, root) <==>
                    || d in PreKids(h, h.parent[pos], IndexOf(h.kids[h.parent[pos]], pos) + 1)
                    || d in AfterSubtree(h, h.parent[pos], root))
  {
    hide PreKids;
    if pos != root {
      var q := h.parent[pos];
      assert AfterSubtree(h, pos, root) == PreKids(h, q, IndexOf(h.kids[q], pos) + 1) + AfterSubtree(h, q, root);
    }
  }

  lemma {:induction false} CreateKeepsAfter(h: Hier, p: nat, pos: nat, root: nat, d: nat)
    requires Valid(h) && p in h.kids && IsDescendant(h, pos, root) && d in AfterSubtree(h, pos, root)
    ensures Valid(Create(h, p)) && IsDescendant(Create(h, p), pos, root) && d in AfterSubtree(Create(h, p), pos, root)
    decreases pos
  {
    hide Create, Valid, AfterSubtree, PreKids, IsDescendant;
    AfterMember(h, pos, root, d);
    CreateKeepsDescent(h, p, pos, root);
    AfterMember(Create(h, p), pos, root, d);
    CreateKeepsIndex(h, p, pos);
    var q := h.parent[pos];
    if d in PreKids(h, q, IndexOf(h.kids[q], pos) + 1) {
      CreateKeepsKids(h, p, q, IndexOf(h.kids[q], pos) + 1, d);
    } else {
      CreateKeepsAfter(h, p, q, root, d);
    }
  }

  lemma CreateKeepsCover(h: Hier, p: nat, w: Walk, n: nat)
    requires Valid(h) && p in h.kids && WalkOk(h, w)
    ensures Valid(Create(h, p)) && WalkOk(Create(h, p), w) && (Covers(h, w, n) ==> Covers(Create(h, p), w, n))
  {
    CreateKeepsDescent(h, p, w.pos, w.root);
    if n in PreKids(h, w.pos, 0) {
      CreateKeepsKids(h, p, w.pos, 0, n);
    } else if n in AfterSubtree(h, w.pos, w.root) {
      CreateKeepsAfter(h, p, w.pos, w.root, n);
    }
  }

  lemma NewDescends(h: Hier, p: nat, a: nat)
    requires Valid(h) && p in h.kids && a in h.kids
    ensures Valid(Create(h, p)) && h.next !in h.kids
    ensures IsDescendant(Create(h, p), h.next, a) == IsDescendant(h, p, a)
  {
    CreateValid(h, p);
    CreateKeepsDescent(h, p, p, a);
  }

  /** The new leaf is listed with its parent's children, and wherever its parent is. */
  lemma NewInKids(h: Hier, p: nat, q: nat, i: nat)
    requires Valid(h) && p in h.kids && q in h.kids && i <= |h.kids[q]|
    ensures Valid(Create(h, p)) && i <= |Create(h, p).kids[q]|
    ensures h.next in PreKids(Create(h, p), q, i) <==> q == p || p in PreKids(h, q, i)
  {
    var h' := Create(h, p);
    CreateValid(h, p);
    PreKidsContents(h, q, i, p);
    PreKidsContents(h', q, i, h.next);
    forall k | 0 <= k < |h.kids[q]| ensures IsDescendant(h', h.next, h'.kids[q][k]) == IsDescendant(h, p, h.kids[q][k]) {
      NewDescends(h, p, h.kids[q][k]);
    }
    if q == p { assert IsDescendant(h', h.next, h'.kids[p][|h.kids[p]|]); }
  }

  /** `p` lies between `pos` and `root`. */
  ghost predicate Between(h: Hier, p: nat, pos: nat, root: nat)
    requires Valid(h)
  {
    p != pos && IsDescendant(h, pos, p) && IsDescendant(h, p, root)
  }

  lemma {:induction false} BetweenStep(h: Hier, p: nat, pos: nat, root: nat)
    requires Valid(h) && p in h.kids && IsDescendant(h, pos, root)
    ensures if pos == root then !Between(h, p, pos, root) else
              Between(h, p, pos, root) <==> p == h.parent[pos] || Between(h, p, h.parent[pos], root)
  {
    if pos == root {
      if Between(h, p, pos, root) {
        DescendantNotSmaller(h, pos, p);
        DescendantNotSmaller(h, p, root);
      }
    } else {
      var q := h.parent[pos];
      assert IsDescendant(h, q, root) && (IsDescendant(h, pos, p) <==> p == pos || IsDescendant(h, q, p));
      if IsDescendant(h, q, p) { DescendantNotSmaller(h, q, p); }
    }
  }

  lemma {:induction false} NewInAfter(h: Hier, p: nat, pos: nat, root: nat)
    requires Valid(h) && p in h.kids && IsDescendant(h, pos, root)
    ensures Valid(Create(h, p)) && IsDescendant(Create(h, p), pos, root)
    ensures h.next in AfterSubtree(Create(h, p), pos, root) <==>
            p in AfterSubtree(h, pos, root) || Between(h, p, pos, root)
    decreases pos
  {
    hide Create, Valid, AfterSubtree, PreKids, IsDescendant, Between;
    BetweenStep(h, p, pos, root);
    AfterMember(h, pos, root, p);
    CreateKeepsDescent(h, p, pos, root);
    AfterMember(Create(h, p), pos, root, h.next);
    if pos != root {
      CreateKeepsIndex(h, p, pos);
      var q := h.parent[pos];
      NewInKids(h, p, q, IndexOf(h.kids[q], pos) + 1);
      NewInAfter(h, p, q, root);
    }
  }

  /** A walk meets a new child exactly if it has not left the parent's subtree. */
  lemma NewAhead(h: Hier, p: nat, w: Walk)
    requires Valid(h) && p in h.kids && WalkOk(h, w)
    ensures Valid(Create(h, p)) && WalkOk(Create(h, p), w)
    ensures Covers(Create(h, p), w, h.next) <==> Unfinished(h, w, p)
  {
    CreateKeepsCover(h, p, w, 0);
    NewInKids(h, p, w.pos, 0);
    NewInAfter(h, p, w.pos, w.root);
  }

  /** Coverage lasts as long as each walk that gives it does. */
  lemma CoverLasts(h: Hier, walks: map<nat, Walk>, h': Hier, walks': map<nat, Walk>, n: nat, but: Option<nat>)
    requires Valid(h) && WalksOk(h, walks) && Valid(h') && WalksOk(h', walks')
    requires forall id :: id in walks && Some(id) != but && Covers(h, walks[id], n) ==>
               id in walks' && Covers(h', walks'[id], n)
    ensures Covered(h, walks, n, but) ==> Covered(h', walks', n, but)
  {
  }

  // ---------------------------------------------------------------- steps of a walk

  lemma StartKeeps(h: Hier, fs: map<nat, F.Freezer>, walks: map<nat, Walk>, missed: set<nat>, id: nat, root: nat, freeze: bool)
    requires FreezersOk(h, fs, walks, missed) && id !in walks && root in h.parent
    ensures FreezersOk(h, fs, walks[id := Walk(root, freeze, root, Arrived)], missed)
  {
    var walks' := walks[id := Walk(root, freeze, root, Arrived)];
    WalkOnlyKeeps(h, fs, walks, walks', missed, id);
  }

  /** A step that changes one walk, takes no coverage away and looks at nothing keeps the rules. */
  lemma WalkOnlyKeeps(h: Hier, fs: map<nat, F.Freezer>, walks: map<nat, Walk>, walks': map<nat, Walk>, missed: set<nat>, id: nat)
    requires FreezersOk(h, fs, walks, missed) && WalksOk(h, walks') && OneEach(walks')
    requires forall i :: i in walks' && i != id ==> i in walks && walks'[i] == walks[i]
    requires forall i, n :: i in walks && Covers(h, walks[i], n) ==> i in walks' && Covers(h, walks'[i], n)
    requires id in walks' ==> Current(h, fs, walks', id)
    ensures FreezersOk(h, fs, walks', missed)
  {
    hide Covers, FlagsOk, OneEach;
    forall n | n in h.parent ensures Follows(h, fs, walks', missed, n) {
      assert Follows(h, fs, walks, missed, n);
      CoverLasts(h, walks, h, walks', n, None);
    }
    forall i | i in walks' ensures Current(h, fs, walks', i) {
      if i != id {
        assert Current(h, fs, walks, i);
        CoverLasts(h, walks, h, walks', walks[i].pos, Some(i));
      }
    }
  }

  lemma LookKeeps(t: State, id: nat)
    requires Inv(t) && id in t.walks && t.walks[id].phase == Arrived && !Locked(t.walks, t.walks[id].pos)
    ensures Inv(Look(t, id))
  {
    WalkOnlyKeeps(t.sys.h, t.sys.fs, t.walks, Look(t, id).walks, t.missed, id);
  }

  /** Moving on to the head of what remains gives up no coverage. */
  lemma AdvanceCovers(h: Hier, w: Walk)
    requires Valid(h) && WalkOk(h, w) && w.phase == Left
    ensures var rest := PreRest(h, w.pos, w.root);
            if rest == [] then forall n :: !Covers(h, w, n) else
              var w' := w.(pos := rest[0], phase := Arrived);
              WalkOk(h, w') && forall n :: Covers(h, w, n) ==> Covers(h, w', n)
  {
    if PreRest(h, w.pos, w.root) != [] { PreRestHead(h, w.pos, w.root); }
  }

  lemma AdvanceKeeps(t: State, id: nat)
    requires Inv(t) && id in t.walks && t.walks[id].phase == Left
    ensures Inv(Advance(t, id))
  {
    hide Covers, Follows, FlagsOk;
    AdvanceCovers(t.sys.h, t.walks[id]);
    WalkOnlyKeeps(t.sys.h, t.sys.fs, t.walks, Advance(t, id).walks, t.missed, id);
  }

  // ---------------------------------------------------------------- applying

  ghost predicate CanApply(h: Hier, fs: map<nat, F.Freezer>, walks: map<nat, Walk>, missed: set<nat>, id: nat) {
    FreezersOk(h, fs, walks, missed) && id in walks && walks[id].phase.Looked?
  }

  ghost function AppliedFs(fs: map<nat, F.Freezer>, w: Walk): map<nat, F.Freezer>
    requires w.pos in fs && w.phase.Looked?
  {
    fs[w.pos := F.Applied(fs[w.pos], w.phase.freezing, w.pos == w.root)]
  }

  /** Leaving a freezer gives up nothing but that freezer. */
  lemma LeaveCovers(h: Hier, walks: map<nat, Walk>, id: nat, n: nat, but: Option<nat>)
    requires Valid(h) && WalksOk(h, walks) && id in walks && (n != walks[id].pos || n == walks[id].root || but == Some(id))
    ensures WalksOk(h, walks[id := walks[id].(phase := Left)])
    ensures Covered(h, walks, n, but) ==> Covered(h, walks[id := walks[id].(phase := Left)], n, but)
  {
    CoverLasts(h, walks, h, walks[id := walks[id].(phase := Left)], n, but);
  }

  lemma LeaveCoversChild(h: Hier, walks: map<nat, Walk>, id: nat, n: nat, but: Option<nat>)
    requires Valid(h) && WalksOk(h, walks) && id in walks && n in h.parent && h.parent[n] == walks[id].pos && but != Some(id)
    ensures WalksOk(h, walks[id := walks[id].(phase := Left)])
    ensures Covered(h, walks[id := walks[id].(phase := Left)], n, but)
  {
    assert WalkOk(h, walks[id]);
    ChildAhead(h, walks[id].(phase := Left), n);
  }

  lemma ApplyFollows(h: Hier, fs: map<nat, F.Freezer>, walks: map<nat, Walk>, missed: set<nat>, id: nat, n: nat)
    requires CanApply(h, fs, walks, missed, id) && n in h.parent && walks[id].pos in fs
    requires F.WellFormed(h, AppliedFs(fs, walks[id])) && WalksOk(h, walks[id := walks[id].(phase := Left)])
    ensures Follows(h, AppliedFs(fs, walks[id]), walks[id := walks[id].(phase := Left)], Reached(missed, walks[id]), n)
  {
    hide Covered, IsDescendant, OneEach;
    var w := walks[id];
    assert Follows(h, fs, walks, missed, n) && Current(h, fs, walks, id);
    if h.parent[n] == w.pos {
      LeaveCoversChild(h, walks, id, n, None);
    } else if n != w.pos || n == w.root {
      LeaveCovers(h, walks, id, n, None);
    } else {
      LeaveCovers(h, walks, id, n, Some(id));
      OtherCovers(h, walks[id := w.(phase := Left)], n, id);
    }
  }

  lemma OtherCovers(h: Hier, walks: map<nat, Walk>, n: nat, id: nat)
    requires Valid(h) && WalksOk(h, walks)
    ensures Covered(h, walks, n, Some(id)) ==> Covered(h, walks, n, None)
  {
  }

  lemma ApplyCurrent(h: Hier, fs: map<nat, F.Freezer>, walks: map<nat, Walk>, missed: set<nat>, id: nat, i: nat)
    requires CanApply(h, fs, walks, missed, id) && i in walks && walks[id].pos in fs
    requires F.WellFormed(h, AppliedFs(fs, walks[id])) && WalksOk(h, walks[id := walks[id].(phase := Left)])
    ensures Current(h, AppliedFs(fs, walks[id]), walks[id := walks[id].(phase := Left)], i)
  {
    hide Covered, IsDescendant;
    var w, v := walks[id], walks[i];
    assert Current(h, fs, walks, i);
    if i != id && v.phase.Looked? && v.pos != v.root && fs[v.pos].online {
      assert !LookAtSame(v, w);
      if h.parent[v.pos] == w.pos {
        LeaveCoversChild(h, walks, id, v.pos, Some(i));
      } else {
        LeaveCovers(h, walks, id, v.pos, Some(i));
      }
    }
  }

  lemma ApplyFlags(h: Hier, fs: map<nat, F.Freezer>, w: Walk, n: nat)
    requires F.WellFormed(h, fs) && WalkOk(h, w) && w.phase.Looked? && n in fs && w.pos in fs
    requires F.WellFormed(h, AppliedFs(fs, w)) && forall m :: m in fs ==> FlagsOk(h, fs, m)
    ensures FlagsOk(h, AppliedFs(fs, w), n)
  {
    assert FlagsOk(h, fs, n) && FlagsOk(h, fs, w.pos);
  }

  lemma ApplyFreezers(h: Hier, fs: map<nat, F.Freezer>, walks: map<nat, Walk>, missed: set<nat>, id: nat)
    requires CanApply(h, fs, walks, missed, id) && walks[id].pos in fs
    ensures FreezersOk(h, AppliedFs(fs, walks[id]), walks[id := walks[id].(phase := Left)], Reached(missed, walks[id]))
  {
    hide Follows, Current, FlagsOk, Covers, Valid, IsDescendant;
    var w := walks[id];
    var fs', walks' := AppliedFs(fs, w), walks[id := w.(phase := Left)];
    assert WalksOk(h, walks') && OneEach(walks') by { assert WalkOk(h, w); }
    hide AppliedFs, OneEach;
    forall n | n in fs' ensures FlagsOk(h, fs', n) { ApplyFlags(h, fs, w, n); }
    forall n | n in h.parent ensures Follows(h, fs', walks', Reached(missed, w), n) { ApplyFollows(h, fs, walks, missed, id, n); }
    forall i | i in walks' ensures Current(h, fs', walks', i) { ApplyCurrent(h, fs, walks, missed, id, i); }
  }

  lemma ApplyKeeps(t: State, id: nat)
    requires Inv(t) && id in t.walks && t.walks[id].phase.Looked?
    ensures t.walks[id].pos in t.sys.fs && Inv(ApplyLook(t, id))
  {
    var w := t.walks[id];
    assert WalkOk(t.sys.h, w) && FlagsOk(t.sys.h, t.sys.fs, w.pos);
    hide Follows, Current, FlagsOk, F.FreezingSet, IsDescendant, OneEach;
    ApplyFreezers(t.sys.h, t.sys.fs, t.walks, t.missed, id);
    hide FreezersOk;
    F.CountUpdate(t.sys.fs, w.pos, F.Applied(t.sys.fs[w.pos], w.phase.freezing, w.pos == w.root));
  }

  // ---------------------------------------------------------------- creation and removal

  /** A new freezer that comes into view in time follows its parent or will; one that comes late does not. */
  lemma LateIsExact(t: State)
    requires Inv(t) && t.creating.Some?
    ensures var New(p, f) := t.creating.value;
            var h' := Create(t.sys.h, p);
            && Valid(h') && WalksOk(h', t.walks) && F.WellFormed(h', Publish(t).sys.fs)
            && (Late(t) <==> f.parent != F.Freezing(t.sys.fs[p]) && !Covered(h', t.walks, t.sys.h.next, None))
  {
    var New(p, _) := t.creating.value;
    CreateValid(t.sys.h, p);
    forall id | id in t.walks
      ensures WalkOk(Create(t.sys.h, p), t.walks[id])
      ensures Covers(Create(t.sys.h, p), t.walks[id], t.sys.h.next) <==> Unfinished(t.sys.h, t.walks[id], p)
    {
      NewAhead(t.sys.h, p, t.walks[id]);
    }
  }

  ghost predicate Published(t: State, t': State) {
    Inv(t) && t.creating.Some? && t' == Publish(t) && F.WellFormed(t'.sys.h, t'.sys.fs) && WalksOk(t'.sys.h, t.walks)
    && t.sys.h.next !in t.sys.fs
  }

  lemma PublishFollows(t: State, t': State, n: nat)
    requires Published(t, t') && n in t'.sys.h.parent
    ensures Follows(t'.sys.h, t'.sys.fs, t.walks, t'.missed, n)
  {
    var p, h, h' := t.creating.value.p, t.sys.h, t'.sys.h;
    if n == h.next {
      LateIsExact(t);
    } else {
      assert Follows(h, t.sys.fs, t.walks, t.missed, n);
      forall id | id in t.walks ensures Covers(h, t.walks[id], n) ==> Covers(h', t.walks[id], n) {
        CreateKeepsCover(h, p, t.walks[id], n);
      }
      CoverLasts(h, t.walks, h', t.walks, n, None);
    }
  }

  lemma PublishCurrent(t: State, t': State, i: nat)
    requires Published(t, t') && i in t.walks
    ensures Current(t'.sys.h, t'.sys.fs, t.walks, i)
  {
    var p, h, h' := t.creating.value.p, t.sys.h, t'.sys.h;
    var w := t.walks[i];
    assert Current(h, t.sys.fs, t.walks, i);
    forall id | id in t.walks ensures Covers(h, t.walks[id], w.pos) ==> Covers(h', t.walks[id], w.pos) {
      CreateKeepsCover(h, p, t.walks[id], w.pos);
    }
    CoverLasts(h, t.walks, h', t.walks, w.pos, Some(i));
  }

  lemma PublishFlags(t: State, t': State, n: nat)
    requires Published(t, t') && n in t'.sys.fs
    ensures FlagsOk(t'.sys.h, t'.sys.fs, n)
  {
    hide Late, Follows, Current;
    if n != t.sys.h.next { assert FlagsOk(t.sys.h, t.sys.fs, n); }
  }

  lemma PublishFreezers(t: State)
    requires Inv(t) && t.creating.Some?
    ensures FreezersOk(Publish(t).sys.h, Publish(t).sys.fs, t.walks, Publish(t).missed)
  {
    var t' := Publish(t);
    LateIsExact(t);
    CreateValid(t.sys.h, t.creating.value.p);
    assert Published(t, t');
    hide Follows, Current, FlagsOk, Covers, Valid, Create, IsDescendant, Counted, MutexOk, Publish, Published;
    forall n | n in t'.sys.fs ensures FlagsOk(t'.sys.h, t'.sys.fs, n) { PublishFlags(t, t', n); }
    forall n | n in t'.sys.h.parent ensures Follows(t'.sys.h, t'.sys.fs, t.walks, t'.missed, n) { PublishFollows(t, t', n); }
    forall i | i in t.walks ensures Current(t'.sys.h, t'.sys.fs, t.walks, i) { PublishCurrent(t, t', i); }
  }

  lemma PublishKeeps(t: State)
    requires Inv(t) && t.creating.Some?
    ensures Inv(Publish(t))
  {
    PublishFreezers(t);
    CreateValid(t.sys.h, t.creating.value.p);
    hide FreezersOk, F.FreezingSet, Valid, Late;
    F.OnlineCounts(t.sys.fs, t.sys.h.next, t.creating.value.f);
  }

  lemma OnlineKeeps(t: State, p: nat)
    requires Inv(t) && MutexFree(t) && p in t.sys.fs && t.sys.fs[p].online
    ensures Inv(GoOnline(t, p))
  {
    hide FreezersOk;
  }

  /** Offline, a freezer that nobody looks at and that has no online child leaves no trace. */
  lemma OfflineFreezers(h: Hier, fs: map<nat, F.Freezer>, walks: map<nat, Walk>, missed: set<nat>, x: nat)
    requires FreezersOk(h, fs, walks, missed) && x in h.parent
    requires forall c :: c in h.parent && h.parent[c] == x ==> !fs[c].online
    ensures FreezersOk(h, fs[x := F.OFF], walks, missed)
  {
    var fs' := fs[x := F.OFF];
    forall n | n in fs' ensures FlagsOk(h, fs', n) { assert FlagsOk(h, fs, n); }
    forall n | n in h.parent ensures Follows(h, fs', walks, missed, n) { assert Follows(h, fs, walks, missed, n); }
    forall i | i in walks ensures Current(h, fs', walks, i) { assert Current(h, fs, walks, i); }
  }

  lemma OfflineKeeps(t: State, n: nat)
    requires Inv(t) && MutexFree(t) && F.CanGoOffline(t.sys, n)
    ensures Inv(t.(sys := F.Offline(t.sys, n)))
  {
    hide Follows, Current, Covers, F.FreezingSet, OneEach, FlagsOk;
    OfflineFreezers(t.sys.h, t.sys.fs, t.walks, t.missed, n);
    F.CountUpdate(t.sys.fs, n, F.OFF);
  }

  // ---------------------------------------------------------------- the FROZEN bit

  lemma FrozenBitFlags(h: Hier, fs: map<nat, F.Freezer>, x: nat, b: bool, n: nat)
    requires F.WellFormed(h, fs) && x in fs && (b ==> F.Freezing(fs[x])) && n in fs && FlagsOk(h, fs, x) && FlagsOk(h, fs, n)
    ensures FlagsOk(h, fs[x := fs[x].(frozen := b)], n)
  {
  }

  lemma FrozenBitFollows(h: Hier, fs: map<nat, F.Freezer>, walks: map<nat, Walk>, missed: set<nat>, x: nat, b: bool, n: nat)
    requires F.WellFormed(h, fs) && WalksOk(h, walks) && x in fs && n in h.parent && Follows(h, fs, walks, missed, n)
    ensures Follows(h, fs[x := fs[x].(frozen := b)], walks, missed, n)
  {
    hide Covered, WalkOk;
  }

  lemma FrozenBitCurrent(h: Hier, fs: map<nat, F.Freezer>, walks: map<nat, Walk>, x: nat, b: bool, i: nat)
    requires F.WellFormed(h, fs) && WalksOk(h, walks) && x in fs && i in walks && Current(h, fs, walks, i)
    ensures Current(h, fs[x := fs[x].(frozen := b)], walks, i)
  {
    hide Covered;
  }

  /** The FROZEN bit bears on no other flag, on no walk and not on the count. */
  lemma FrozenBitFreezers(h: Hier, fs: map<nat, F.Freezer>, walks: map<nat, Walk>, missed: set<nat>, x: nat, b: bool)
    requires FreezersOk(h, fs, walks, missed) && x in fs && (b ==> F.Freezing(fs[x]))
    ensures FreezersOk(h, fs[x := fs[x].(frozen := b)], walks, missed)
  {
    hide Valid, Follows, Current, OneEach, FlagsOk, WalkOk;
    var fs' := fs[x := fs[x].(frozen := b)];
    forall n | n in fs' ensures FlagsOk(h, fs', n) { FrozenBitFlags(h, fs, x, b, n); }
    forall n | n in h.parent ensures Follows(h, fs', walks, missed, n) { FrozenBitFollows(h, fs, walks, missed, x, b, n); }
    forall i | i in walks ensures Current(h, fs', walks, i) { FrozenBitCurrent(h, fs, walks, x, b, i); }
  }

  lemma FrozenBitCount(fs: map<nat, F.Freezer>, x: nat, b: bool)
    requires x in fs
    ensures F.FreezingSet(fs[x := fs[x].(frozen := b)]) == F.FreezingSet(fs)
  {
  }

  lemma FrozenBitKeeps(t: State, x: nat, b: bool, pending: Option<nat>)
    requires Inv(t) && x in t.sys.fs && (b ==> F.Freezing(t.sys.fs[x]))
    requires pending.Some? ==> pending.value in t.sys.fs && t.creating.None?
    ensures Inv(t.(sys := t.sys.(fs := t.sys.fs[x := t.sys.fs[x].(frozen := b)], pending := pending)))
  {
    assert F.WellFormed(t.sys.h, t.sys.fs);
    FrozenBitFreezers(t.sys.h, t.sys.fs, t.walks, t.missed, x, b);
    FrozenBitCount(t.sys.fs, x, b);
    hide FreezersOk, Valid, F.FreezingSet;
  }

  lemma AttachKeeps(t: State, n: nat, ntasks: nat)
    requires Inv(t) && MutexFree(t) && n in t.sys.fs
    ensures Inv(t.(sys := F.AttachStart(t.sys, n, ntasks)))
  {
    hide FreezersOk;
    FrozenBitKeeps(t, n, false, Some(n));
  }

  lemma AttachUpKeeps(t: State)
    requires Inv(t) && t.sys.pending.Some?
    ensures t.sys.h.parent.Keys == t.sys.fs.Keys - {TOP} && forall c :: c in t.sys.h.parent ==> t.sys.h.parent[c] in t.sys.fs
    ensures Inv(t.(sys := F.AttachUp(t.sys)))
  {
    hide Follows, Current, FlagsOk, OneEach;
    var c := t.sys.pending.value;
    if c in t.sys.h.parent {
      var p := t.sys.h.parent[c];
      FrozenBitKeeps(t, p, false, if F.Freezing(t.sys.fs[p]) then Some(p) else None);
    }
  }

  lemma UpdateKeeps(t: State, n: nat, tasksFrozen: bool)
    requires Inv(t) && n in t.sys.fs
    ensures F.WellFormed(t.sys.h, t.sys.fs) && Inv(t.(sys := F.UpdateIfFrozen(t.sys, n, tasksFrozen)))
  {
    hide Follows, Current, FlagsOk, OneEach;
    if F.Freezing(t.sys.fs[n]) { FrozenBitKeeps(t, n, true, t.sys.pending); }
  }

  // ---------------------------------------------------------------- every step

  lemma StepKeepsInv(t: State, op: Op)
    requires Inv(t) && Enabled(t, op, false)
    ensures Inv(Step(t, op))
  {
    hide FreezersOk, Look, Advance;
    match op
    case OpStart(id, root, freeze) => StartKeeps(t.sys.h, t.sys.fs, t.walks, t.missed, id, root, freeze);
    case OpLook(id) => LookKeeps(t, id);
    case OpApply(id) => ApplyKeeps(t, id);
    case OpAdvance(id) => AdvanceKeeps(t, id);
    case OpOnline(p) => OnlineKeeps(t, p);
    case OpPublish => PublishKeeps(t);
    case OpOffline(n) => OfflineKeeps(t, n);
    case OpAttach(n, ntasks) => AttachKeeps(t, n, ntasks);
    case OpAttachUp => AttachUpKeeps(t);
    case OpUpdate(n, tasksFrozen) => UpdateKeeps(t, n, tasksFrozen);
  }

  // ---------------------------------------------------------------- FROZEN parents of other children

  ghost predicate Edges(h: Hier, fs: map<nat, F.Freezer>, pending: Option<nat>)
    requires F.WellFormed(h, fs)
  {
    forall n {:trigger F.EdgeOk(h, fs, pending, n)} :: n in h.parent ==> F.EdgeOk(h, fs, pending, n)
  }

  ghost predicate SysEdges(s: F.Sys) {
    F.WellFormed(s.h, s.fs) && Edges(s.h, s.fs, s.pending)
  }

  /** A writer takes the last reason for freezing off a freezer whose parent is FROZEN by now, or
      a freezer that is not FROZEN comes into view below one that is by now. */
  ghost predicate Stale(t: State, op: Op)
    requires Inv(t) && Enabled(t, op, false)
  {
    match op
    case OpApply(id) =>
      var w := t.walks[id];
      assert WalkOk(t.sys.h, w);
      && t.sys.fs[w.pos].online && t.sys.fs[t.sys.h.parent[w.pos]].frozen
      && !F.Freezing(F.Applied(t.sys.fs[w.pos], w.phase.freezing, w.pos == w.root))
      && t.sys.pending != Some(w.pos)
    case OpPublish => t.sys.fs[t.creating.value.p].frozen && !t.creating.value.f.frozen
    case _ => false
  }

  lemma ApplyEdges(t: State, id: nat)
    requires Inv(t) && SysEdges(t.sys) && id in t.walks && t.walks[id].phase.Looked?
    ensures t.walks[id].pos in t.sys.fs
    ensures SysEdges(ApplyLook(t, id).sys) <==> !Stale(t, OpApply(id))
  {
    hide Follows, Current, OneEach;
    var s, s' := t.sys, ApplyLook(t, id).sys;
    var x := t.walks[id].pos;
    assert WalkOk(s.h, t.walks[id]) && FlagsOk(s.h, s.fs, x);
    assert F.EdgeOk(s.h, s.fs, s.pending, x);
    assert F.EdgeOk(s.h, s'.fs, s.pending, x) <==> !Stale(t, OpApply(id));
    forall n | n in s.h.parent && n != x ensures F.EdgeOk(s.h, s'.fs, s.pending, n) {
      assert F.EdgeOk(s.h, s.fs, s.pending, n);
    }
  }

  lemma PublishEdges(h: Hier, fs: map<nat, F.Freezer>, p: nat, f: F.Freezer)
    requires F.WellFormed(h, fs) && Edges(h, fs, None) && p in fs && f.online
    ensures F.WellFormed(Create(h, p), fs[h.next := f])
    ensures Edges(Create(h, p), fs[h.next := f], None) <==> (fs[p].frozen ==> f.frozen)
  {
    CreateValid(h, p);
    var h', fs' := Create(h, p), fs[h.next := f];
    assert F.EdgeOk(h', fs', None, h.next) <==> (fs[p].frozen ==> f.frozen);
    forall n | n in h'.parent && n != h.next ensures F.EdgeOk(h', fs', None, n) { assert F.EdgeOk(h, fs, None, n); }
  }

  /** A new state for one freezer, frozen if its parent is, with no online child that is not. */
  lemma OneEdges(h: Hier, fs: map<nat, F.Freezer>, x: nat, f: F.Freezer, was: Option<nat>, pending: Option<nat>)
    requires F.WellFormed(h, fs) && Edges(h, fs, was) && x in fs
    requires x in h.parent ==> F.EdgeRule(f, fs[h.parent[x]], pending == Some(x))
    requires forall c :: c in h.parent && h.parent[c] == x ==> F.EdgeRule(fs[c], f, pending == Some(c))
    requires was.Some? && was.value in h.parent && was != pending ==> h.parent[was.value] == x
    ensures Edges(h, fs[x := f], pending)
  {
    forall n | n in h.parent ensures F.EdgeOk(h, fs[x := f], pending, n) { assert F.EdgeOk(h, fs, was, n); }
  }

  /** The climb may end at an ancestor that is not freezing: no FROZEN ancestor lies above that one. */
  lemma AttachUpEdges(h: Hier, fs: map<nat, F.Freezer>, c: nat)
    requires F.WellFormed(h, fs) && Edges(h, fs, Some(c)) && c in h.parent
    requires forall n :: n in fs ==> FlagsOk(h, fs, n)
    ensures var p := h.parent[c];
            Edges(h, fs[p := fs[p].(frozen := false)], if F.Freezing(fs[p]) then Some(p) else None)
  {
    var p := h.parent[c];
    assert FlagsOk(h, fs, p) && p < c;
    if p in h.parent { assert F.EdgeOk(h, fs, Some(c), p) && FlagsOk(h, fs, h.parent[p]); }
    OneEdges(h, fs, p, fs[p].(frozen := false), Some(c), if F.Freezing(fs[p]) then Some(p) else None);
  }

  lemma UpdateEdges(h: Hier, fs: map<nat, F.Freezer>, n: nat, pending: Option<nat>)
    requires F.WellFormed(h, fs) && Edges(h, fs, pending) && n in fs && F.ChildrenFrozen(h, fs, n)
    ensures Edges(h, fs[n := fs[n].(frozen := true)], pending)
  {
    forall c | c in h.parent && h.parent[c] == n ensures fs[c].online ==> fs[c].frozen { assert c in h.kids[n]; }
    if n in h.parent { assert F.EdgeOk(h, fs, pending, n); }
    OneEdges(h, fs, n, fs[n].(frozen := true), pending, pending);
  }

  lemma FrozenStepEdges(t: State, op: Op)
    requires Inv(t) && SysEdges(t.sys) && Enabled(t, op, false) && (op.OpAttach? || op.OpAttachUp? || op.OpUpdate?)
    ensures SysEdges(Step(t, op).sys)
  {
    hide Follows, Current, OneEach, IsDescendant, FlagsOk, Locked, Edges;
    var s := t.sys;
    match op
    case OpAttach(n, _) => OneEdges(s.h, s.fs, n, s.fs[n].(frozen := false), None, Some(n));
    case OpAttachUp =>
      var c := s.pending.value;
      if c in s.h.parent {
        AttachUpEdges(s.h, s.fs, c);
      } else {
        NotAbove(s.h, s.fs, c);
      }
    case OpUpdate(n, _) => if F.ChildrenFrozen(s.h, s.fs, n) { UpdateEdges(s.h, s.fs, n, s.pending); }
  }

  lemma NotAbove(h: Hier, fs: map<nat, F.Freezer>, c: nat)
    requires F.WellFormed(h, fs) && Edges(h, fs, Some(c)) && c !in h.parent
    ensures Edges(h, fs, None)
  {
    forall n | n in h.parent ensures F.EdgeOk(h, fs, None, n) { assert F.EdgeOk(h, fs, Some(c), n); }
  }

  /** The one step, of all, that leaves a FROZEN freezer with a child that is not. */
  lemma StaleIsExact(t: State, op: Op)
    requires Inv(t) && SysEdges(t.sys) && Enabled(t, op, false)
    ensures Inv(Step(t, op)) && (SysEdges(Step(t, op).sys) <==> !Stale(t, op))
  {
    hide Follows, Current, OneEach, FlagsOk, Edges, Locked, IsDescendant, Valid;
    StepKeepsInv(t, op);
    match op
    case OpStart(_, _, _) =>
    case OpLook(_) =>
    case OpApply(id) => ApplyEdges(t, id);
    case OpAdvance(_) =>
    case OpOnline(_) =>
    case OpPublish => PublishEdges(t.sys.h, t.sys.fs, t.creating.value.p, t.creating.value.f);
    case OpOffline(n) => OneEdges(t.sys.h, t.sys.fs, n, F.OFF, t.sys.pending, t.sys.pending);
    case OpAttach(_, _) => FrozenStepEdges(t, op);
    case OpAttachUp => FrozenStepEdges(t, op);
    case OpUpdate(_, _) => FrozenStepEdges(t, op);
  }

  ghost predicate Alone(walks: map<nat, Walk>) {
    forall i, j :: i in walks && j in walks ==> i == j
  }

  /** What a writer that is alone sees stays so. */
  lemma AloneKeepsFreezing(h: Hier, fs: map<nat, F.Freezer>, walks: map<nat, Walk>, id: nat)
    requires CanApply(h, fs, walks, {}, id) && Alone(walks) && walks[id].pos in h.parent
    requires fs[walks[id].pos].online && fs[h.parent[walks[id].pos]].frozen
    ensures var w := walks[id]; F.Freezing(F.Applied(fs[w.pos], w.phase.freezing, w.pos == w.root))
  {
    var w := walks[id];
    assert WalkOk(h, w) && FlagsOk(h, fs, h.parent[w.pos]);
    assert Follows(h, fs, walks, {}, w.pos) && Current(h, fs, walks, id);
  }

  /** One writer or one creation at a time, nothing missed, and FROZEN covering what is below. */
  ghost predicate Orderly(t: State) {
    && Alone(t.walks) && t.missed == {} && SysEdges(t.sys)
    && (t.creating.Some? ==>
          t.walks == map[] && t.creating.value.p in t.sys.fs &&
          t.creating.value.f.parent == F.Freezing(t.sys.fs[t.creating.value.p]))
  }

  lemma OrderlyIsNotStale(t: State, op: Op)
    requires Inv(t) && Orderly(t) && Enabled(t, op, false)
    ensures !Stale(t, op)
  {
    hide Follows, Current, OneEach, IsDescendant;
    match op
    case OpApply(id) =>
      var x := t.walks[id].pos;
      assert WalkOk(t.sys.h, t.walks[id]);
      if t.sys.fs[x].online && t.sys.fs[t.sys.h.parent[x]].frozen {
        AloneKeepsFreezing(t.sys.h, t.sys.fs, t.walks, id);
      }
    case OpPublish => assert FlagsOk(t.sys.h, t.sys.fs, t.creating.value.p);
    case _ =>
  }

  // ---------------------------------------------------------------- whole runs

  function Boot(): State {
    State(F.Boot(), None, map[], {})
  }

  lemma BootInv()
    ensures Inv(Boot()) && SysEdges(Boot().sys)
  {
    F.BootInv();
    assert FlagsOk(Boot().sys.h, Boot().sys.fs, TOP);
  }

  lemma SerialStep(t: State, op: Op)
    requires Inv(t) && Orderly(t) && Enabled(t, op, true)
    ensures Inv(Step(t, op)) && Orderly(Step(t, op))
  {
    hide FreezersOk, SysEdges, Stale, Locked;
    OrderlyIsNotStale(t, op);
    StaleIsExact(t, op);
  }

  /** The state after any sequence of steps from boot; a step that is not enabled is not taken. */
  ghost function Run(ops: seq<Op>, serial: bool): (t: State)
    ensures Inv(t) && (serial ==> Orderly(t))
  {
    if ops == [] then
      BootInv();
      Boot()
    else
      var t := Run(ops[..|ops| - 1], serial);
      var op := ops[|ops| - 1];
      if Enabled(t, op, serial) then
        StepKeepsInv(t, op);
        assert serial ==> Orderly(Step(t, op)) by { if serial { SerialStep(t, op); } }
        Step(t, op)
      else t
  }

  /** A freezer that runs below one that was told to freeze is on the way of some walk, or missed. */
  lemma {:induction false} NoneEscapes(t: State, n: nat, a: nat) returns (m: nat)
    requires Inv(t) && n in t.sys.fs && t.sys.fs[n].online && a in t.sys.fs && t.sys.fs[a].self
    requires IsDescendant(t.sys.h, n, a) && !F.Freezing(t.sys.fs[n])
    ensures IsDescendant(t.sys.h, n, m) && IsDescendant(t.sys.h, m, a) && m != a
    ensures Covered(t.sys.h, t.walks, m, None) || m in t.missed
    decreases n
  {
    var h, fs := t.sys.h, t.sys.fs;
    assert FlagsOk(h, fs, n) && Follows(h, fs, t.walks, t.missed, n);
    if Covered(h, t.walks, n, None) || n in t.missed {
      m := n;
    } else {
      m := NoneEscapes(t, h.parent[n], a);
    }
  }

  ghost predicate Quiet(t: State, n: nat)
    requires Inv(t)
  {
    forall m :: IsDescendant(t.sys.h, n, m) ==> !Covered(t.sys.h, t.walks, m, None) && m !in t.missed
  }

  /** Where no walk is due and none was missed, FREEZING_PARENT is set exactly below a freezer told to freeze. */
  lemma QuietIsAncestry(t: State, n: nat)
    requires Inv(t) && n in t.sys.fs && t.sys.fs[n].online && Quiet(t, n)
    ensures t.sys.fs[n].parent <==> F.AncestorFreezes(t.sys.h, t.sys.fs, n)
  {
    hide Covered, Current, OneEach;
    var h, fs := t.sys.h, t.sys.fs;
    assert FlagsOk(h, fs, TOP);
    assert F.OnlineBelow(h, fs) by {
      forall m | m in h.parent && fs[m].online ensures fs[h.parent[m]].online { assert FlagsOk(h, fs, m); }
    }
    forall m | m in h.parent && IsDescendant(h, n, m) ensures fs[m].parent <==> F.Freezing(fs[h.parent[m]]) {
      F.OnlineAbove(h, fs, n, m);
      assert Follows(h, fs, t.walks, t.missed, m);
    }
    F.PathFollows(h, fs, n);
  }

  lemma {:induction false} FrozenBelow(t: State, n: nat, d: nat)
    requires Inv(t) && SysEdges(t.sys) && t.sys.pending.None? && n in t.sys.fs && t.sys.fs[n].frozen
    requires IsDescendant(t.sys.h, d, n) && t.sys.fs[d].online
    ensures t.sys.fs[d].frozen
    decreases d
  {
    if d != n {
      assert FlagsOk(t.sys.h, t.sys.fs, d);
      FrozenBelow(t, n, t.sys.h.parent[d]);
      assert F.EdgeOk(t.sys.h, t.sys.fs, t.sys.pending, d);
    }
  }

  /** What every reachable state guarantees, however writers and creations overlap. */
  lemma ReachableWalks(ops: seq<Op>, n: nat)
    requires n in Run(ops, false).sys.fs && Run(ops, false).sys.fs[n].online
    ensures var t := Run(ops, false);
            && (t.sys.fs[n].frozen ==> F.Freezing(t.sys.fs[n]))
            && (t.creating.None? ==> t.sys.cnt == |F.FreezingSet(t.sys.fs)|)
            && (Quiet(t, n) ==> (t.sys.fs[n].parent <==> F.AncestorFreezes(t.sys.h, t.sys.fs, n)))
  {
    var t := Run(ops, false);
    assert FlagsOk(t.sys.h, t.sys.fs, n);
    if Quiet(t, n) { QuietIsAncestry(t, n); }
  }

  /** With one writer or one creation at a time no cgroup escapes, and FROZEN covers the whole
      subtree at every moment outside an attach. */
  lemma SerialWalks(ops: seq<Op>, n: nat)
    requires n in Run(ops, true).sys.fs && Run(ops, true).sys.fs[n].online
    ensures var t := Run(ops, true);
            && (t.walks == map[] ==> (t.sys.fs[n].parent <==> F.AncestorFreezes(t.sys.h, t.sys.fs, n)))
            && (t.sys.pending.None? && t.sys.fs[n].frozen ==>
                  forall d :: IsDescendant(t.sys.h, d, n) && t.sys.fs[d].online ==> t.sys.fs[d].frozen)
  {
    var t := Run(ops, true);
    if t.walks == map[] { QuietIsAncestry(t, n); }
    if t.sys.pending.None? && t.sys.fs[n].frozen {
      forall d | IsDescendant(t.sys.h, d, n) && t.sys.fs[d].online ensures t.sys.fs[d].frozen { FrozenBelow(t, n, d); }
    }
  }

  // ---------------------------------------------------------------- what overlapping steps can leave behind

  ghost predicate Steps(t: State, op: Op, t': State) {
    Inv(t) && Enabled(t, op, false) && t' == Step(t, op)
  }

  lemma RunStep(ops: seq<Op>, t: State, op: Op, t': State) returns (ops': seq<Op>)
    requires Run(ops, false) == t && Steps(t, op, t')
    ensures Run(ops', false) == t' && Inv(t')
  {
    ops' := ops + [op];
    assert ops'[..|ops|] == ops;
  }

  ghost predicate CanWrite(t: State, id: nat, c: nat) {
    F.WellFormed(t.sys.h, t.sys.fs) && id !in t.walks && c in t.sys.h.parent && !Locked(t.walks, c)
  }

  function AtTop(t: State, id: nat, c: nat, freeze: bool, phase: Phase): State {
    t.(walks := t.walks[id := Walk(c, freeze, c, phase)])
  }

  /** `c` itself, told to freeze or thaw. */
  function Written(t: State, c: nat, freeze: bool): State
    requires c in t.sys.fs
  {
    var g := F.Applied(t.sys.fs[c], freeze, true);
    t.(sys := t.sys.(fs := t.sys.fs[c := g], cnt := t.sys.cnt + Weight(g) - Weight(t.sys.fs[c])))
  }

  lemma TopStart(t: State, id: nat, c: nat, freeze: bool)
    requires CanWrite(t, id, c)
    ensures c in t.sys.fs && CanWrite(Written(t, c, freeze), id, c)
    ensures Inv(t) ==> Steps(t, OpStart(id, c, freeze), AtTop(t, id, c, freeze, Arrived))
  {
    hide FreezersOk, IsDescendant;
  }

  lemma TopLook(t: State, id: nat, c: nat, freeze: bool)
    requires CanWrite(t, id, c) && Inv(AtTop(t, id, c, freeze, Arrived))
    ensures Steps(AtTop(t, id, c, freeze, Arrived), OpLook(id), AtTop(t, id, c, freeze, Looked(freeze)))
  {
    hide FreezersOk, IsDescendant;
  }

  lemma TopApply(t: State, id: nat, c: nat, freeze: bool)
    requires CanWrite(t, id, c) && Inv(AtTop(t, id, c, freeze, Looked(freeze))) && c in t.sys.fs
    ensures Steps(AtTop(t, id, c, freeze, Looked(freeze)), OpApply(id), AtTop(Written(t, c, freeze), id, c, freeze, Left))
  {
    hide FreezersOk, IsDescendant;
  }

  /** The first freezer of a write, with nothing between. */
  lemma TopRun(ops: seq<Op>, t: State, id: nat, c: nat, freeze: bool) returns (ops': seq<Op>)
    requires Run(ops, false) == t && CanWrite(t, id, c)
    ensures c in t.sys.fs && CanWrite(Written(t, c, freeze), id, c)
    ensures var t' := AtTop(Written(t, c, freeze), id, c, freeze, Left); Run(ops', false) == t' && Inv(t')
  {
    TopStart(t, id, c, freeze);
    hide Inv, Steps, AtTop, Written, CanWrite, Run;
    ops' := RunStep(ops, t, OpStart(id, c, freeze), AtTop(t, id, c, freeze, Arrived));
    TopLook(t, id, c, freeze);
    ops' := RunStep(ops', AtTop(t, id, c, freeze, Arrived), OpLook(id), AtTop(t, id, c, freeze, Looked(freeze)));
    TopApply(t, id, c, freeze);
    ops' := RunStep(ops', AtTop(t, id, c, freeze, Looked(freeze)), OpApply(id), AtTop(Written(t, c, freeze), id, c, freeze, Left));
  }

  lemma LeafAdvance(t: State, id: nat, c: nat, freeze: bool)
    requires CanWrite(t, id, c) && t.sys.h.kids[c] == [] && Inv(AtTop(t, id, c, freeze, Left))
    ensures Steps(AtTop(t, id, c, freeze, Left), OpAdvance(id), t)
  {
    hide FreezersOk;
    LeafRest(t.sys.h, c, c);
    assert t.walks[id := Walk(c, freeze, c, Left)] - {id} == t.walks;
  }

  /** A whole write to a childless cgroup. */
  lemma LeafRun(ops: seq<Op>, t: State, id: nat, c: nat, freeze: bool) returns (ops': seq<Op>)
    requires Run(ops, false) == t && CanWrite(t, id, c) && t.sys.h.kids[c] == []
    ensures c in t.sys.fs && Run(ops', false) == Written(t, c, freeze) && Inv(Written(t, c, freeze))
  {
    ops' := TopRun(ops, t, id, c, freeze);
    LeafAdvance(Written(t, c, freeze), id, c, freeze);
    ops' := RunStep(ops', AtTop(Written(t, c, freeze), id, c, freeze, Left), OpAdvance(id), Written(t, c, freeze));
  }

  /** A thawed cgroup, and nothing under way. */
  ghost predicate Idle(t: State, p: nat) {
    && Inv(t) && t.walks == map[] && MutexFree(t)
    && p in t.sys.h.parent && t.sys.fs[p].online && !F.Freezing(t.sys.fs[p])
  }

  lemma OvertakeOnline(t: State, p: nat)
    requires Idle(t, p)
    ensures p in t.sys.fs && Steps(t, OpOnline(p), GoOnline(t, p)) && CanWrite(GoOnline(t, p), 0, p)
  {
    hide Follows, Current, FlagsOk, OneEach, IsDescendant;
  }

  /** `t` after `p` was told to freeze, and found FROZEN, while its first child is being created. */
  function Overtaken(t: State, p: nat): State
    requires p in t.sys.fs
  {
    var w := Written(GoOnline(t, p), p, true);
    w.(sys := w.sys.(fs := t.sys.fs[p := t.sys.fs[p].(self := true, frozen := true)]))
  }

  lemma OvertakeRead(t: State, p: nat)
    requires Idle(t, p) && t.sys.h.kids[p] == [] && p in t.sys.fs && Inv(Written(GoOnline(t, p), p, true))
    ensures Steps(Written(GoOnline(t, p), p, true), OpUpdate(p, true), Overtaken(t, p))
  {
    hide Follows, Current, FlagsOk, OneEach, IsDescendant;
  }

  lemma PublishAdds(t: State, p: nat, f: F.Freezer)
    requires Inv(t) && t.creating == Some(New(p, f))
    ensures Steps(t, OpPublish, Publish(t)) && Publish(t).walks == t.walks && MutexFree(Publish(t))
    ensures var c, s := t.sys.h.next, Publish(t).sys;
            c !in t.sys.fs && s.fs == t.sys.fs[c := f] && c in s.h.parent && s.h.parent[c] == p
  {
    CreateValid(t.sys.h, p);
    hide FreezersOk, Late, F.FreezingSet;
  }

  /** A cgroup told to freeze while it gets its first child can end up FROZEN above a child that runs. */
  lemma ChildEscapes(ops: seq<Op>, p: nat) returns (ops': seq<Op>)
    requires Idle(Run(ops, false), p) && Run(ops, false).sys.h.kids[p] == []
    ensures var c, t := Run(ops, false).sys.h.next, Run(ops', false);
            && t.walks == map[] && MutexFree(t) && c in t.sys.h.parent && t.sys.h.parent[c] == p
            && {p, c} <= t.sys.fs.Keys && t.sys.fs[p].self && t.sys.fs[p].frozen
            && t.sys.fs[c].online && !F.Freezing(t.sys.fs[c])
  {
    var t := Run(ops, false);
    OvertakeOnline(t, p);
    ops' := RunStep(ops, t, OpOnline(p), GoOnline(t, p));
    ops' := LeafRun(ops', GoOnline(t, p), 0, p, true);
    OvertakeRead(t, p);
    ops' := RunStep(ops', Written(GoOnline(t, p), p, true), OpUpdate(p, true), Overtaken(t, p));
    PublishAdds(Overtaken(t, p), p, F.OnlineState(t.sys.fs[p]));
    ops' := RunStep(ops', Overtaken(t, p), OpPublish, Publish(Overtaken(t, p)));
  }

  /** There is such a cgroup. */
  lemma FirstCgroup() returns (ops: seq<Op>)
    ensures var t := Run(ops, false); Idle(t, 1) && t.sys.h.kids[1] == [] && t.missed == {} && t.sys.h.next == 2
  {
    BootInv();
    var t := GoOnline(Boot(), TOP);
    assert Run([], false) == Boot() && Steps(Boot(), OpOnline(TOP), t);
    ops := RunStep([], Boot(), OpOnline(TOP), t);
    PublishAdds(t, TOP, F.OnlineState(Boot().sys.fs[TOP]));
    ops := RunStep(ops, t, OpPublish, Publish(t));
  }

  const THAWED := F.Freezer(true, false, false, false)
  const FROZEN := F.Freezer(true, true, false, true)

  /** The thawed `p` has one child, in the state `f`. */
  ghost predicate OneChild(t: State, p: nat, c: nat, f: F.Freezer) {
    && Idle(t, p) && t.missed == {} && t.sys.h.kids[p] == [c]
    && c in t.sys.h.parent && t.sys.h.parent[c] == p && t.sys.h.kids[c] == [] && t.sys.fs[c] == f
  }

  lemma NewChild(t: State, p: nat)
    requires Idle(t, p) && t.sys.h.kids[p] == [] && t.missed == {} && p in t.sys.fs && Inv(GoOnline(t, p))
    requires Inv(Publish(GoOnline(t, p)))
    ensures OneChild(Publish(GoOnline(t, p)), p, t.sys.h.next, THAWED)
  {
    CreateValid(t.sys.h, p);
    hide Follows, Current, FlagsOk, OneEach, IsDescendant;
    assert !Late(GoOnline(t, p));
    hide FreezersOk, Late;
  }

  lemma FreezeChild(t: State, p: nat, c: nat)
    requires OneChild(t, p, c, THAWED)
    ensures CanWrite(t, 0, c) && c in t.sys.fs
    ensures var t' := Written(t, c, true);
            Inv(t') ==>
              var t'' := t'.(sys := F.UpdateIfFrozen(t'.sys, c, true));
              Steps(t', OpUpdate(c, true), t'') && (Inv(t'') ==> OneChild(t'', p, c, FROZEN))
  {
    hide Follows, Current, FlagsOk, OneEach, IsDescendant;
  }

  /** A thawed cgroup with one child, which was told to freeze and is FROZEN. */
  lemma SecondCgroup() returns (ops: seq<Op>)
    ensures OneChild(Run(ops, false), 1, 2, FROZEN)
  {
    ops := FirstCgroup();
    var t := Run(ops, false);
    OvertakeOnline(t, 1);
    var t1 := GoOnline(t, 1);
    hide Idle, OneChild, Steps, CanWrite, Written, Inv;
    ops := RunStep(ops, t, OpOnline(1), t1);
    PublishAdds(t1, 1, F.OnlineState(t.sys.fs[1]));
    ops := RunStep(ops, t1, OpPublish, Publish(t1));
    var t2 := Publish(t1);
    NewChild(t, 1);
    FreezeChild(t2, 1, 2);
    ops := LeafRun(ops, t2, 0, 2, true);
    var t3 := Written(t2, 2, true);
    var t4 := t3.(sys := F.UpdateIfFrozen(t3.sys, 2, true));
    ops := RunStep(ops, t3, OpUpdate(2, true), t4);
  }

  /** `p` told to freeze and found FROZEN, while its child was told to thaw, with `p` passed on to it or not. */
  function Raced(t: State, p: nat, c: nat, passed: bool, walks: map<nat, Walk>): State
    requires p in t.sys.fs
  {
    var fs := t.sys.fs[p := t.sys.fs[p].(self := true, frozen := true)];
    State(t.sys.(fs := fs[c := F.Freezer(true, false, passed, false)], cnt := t.sys.cnt + if passed then 1 else 0),
          None, walks, {})
  }

  function RaceRead(t: State, p: nat): State
    requires p in t.sys.fs
  {
    t.(sys := t.sys.(fs := t.sys.fs[p := t.sys.fs[p].(self := true, frozen := true)], cnt := t.sys.cnt + 1),
       walks := map[1 := Walk(p, true, p, Left)])
  }

  lemma RaceStart(t: State, p: nat, c: nat)
    requires OneChild(t, p, c, FROZEN)
    ensures p in t.sys.fs && p != c && CanWrite(t, 1, p) && CanWrite(RaceRead(t, p), 0, c)
    ensures var t' := AtTop(Written(t, p, true), 1, p, true, Left); Inv(t') ==> Steps(t', OpUpdate(p, true), RaceRead(t, p))
    ensures c in t.sys.fs && Written(RaceRead(t, p), c, false) == Raced(t, p, c, false, map[1 := Walk(p, true, p, Left)])
  {
    hide Follows, Current, FlagsOk, OneEach, IsDescendant;
  }

  lemma RaceMove(t: State, p: nat, c: nat)
    requires OneChild(t, p, c, FROZEN) && p in t.sys.fs && Inv(Raced(t, p, c, false, map[1 := Walk(p, true, p, Left)]))
    ensures Steps(Raced(t, p, c, false, map[1 := Walk(p, true, p, Left)]), OpAdvance(1),
                  Raced(t, p, c, false, map[1 := Walk(p, true, c, Arrived)]))
  {
    hide Follows, Current, FlagsOk, OneEach;
    EnterChildPre(t.sys.h, p, 0, p);
  }

  lemma RaceLook(t: State, p: nat, c: nat)
    requires OneChild(t, p, c, FROZEN) && p in t.sys.fs && Inv(Raced(t, p, c, false, map[1 := Walk(p, true, c, Arrived)]))
    ensures Steps(Raced(t, p, c, false, map[1 := Walk(p, true, c, Arrived)]), OpLook(1),
                  Raced(t, p, c, false, map[1 := Walk(p, true, c, Looked(true))]))
  {
    hide Follows, Current, FlagsOk, OneEach, IsDescendant;
  }

  lemma RaceApply(t: State, p: nat, c: nat)
    requires OneChild(t, p, c, FROZEN) && p in t.sys.fs && Inv(Raced(t, p, c, false, map[1 := Walk(p, true, c, Looked(true))]))
    ensures Steps(Raced(t, p, c, false, map[1 := Walk(p, true, c, Looked(true))]), OpApply(1),
                  Raced(t, p, c, true, map[1 := Walk(p, true, c, Left)]))
  {
    hide Follows, Current, FlagsOk, OneEach, IsDescendant;
  }

  lemma RaceEnd(t: State, p: nat, c: nat)
    requires OneChild(t, p, c, FROZEN) && p in t.sys.fs && Inv(Raced(t, p, c, true, map[1 := Walk(p, true, c, Left)]))
    ensures Steps(Raced(t, p, c, true, map[1 := Walk(p, true, c, Left)]), OpAdvance(1), Raced(t, p, c, true, map[]))
  {
    hide Follows, Current, FlagsOk, OneEach;
    LeafRest(t.sys.h, c, p);
    LastSiblingRest(t.sys.h, c, p);
  }

  /** Two writers alone can leave a FROZEN cgroup above one that is only FREEZING. */
  lemma WritersRace(ops: seq<Op>, p: nat, c: nat) returns (ops': seq<Op>)
    requires OneChild(Run(ops, false), p, c, FROZEN)
    ensures p in Run(ops, false).sys.fs && Run(ops', false) == Raced(Run(ops, false), p, c, true, map[])
    ensures var t := Run(ops', false);
            && t.walks == map[] && MutexFree(t) && c in t.sys.h.parent && t.sys.h.parent[c] == p
            && t.sys.fs[p].frozen && t.sys.fs[c].online && F.Freezing(t.sys.fs[c]) && !t.sys.fs[c].frozen
  {
    var t := Run(ops, false);
    RaceStart(t, p, c);
    var end := Raced(t, p, c, true, map[]);
    assert end.sys.fs[p].frozen && end.sys.fs[c] == F.Freezer(true, false, true, false) && MutexFree(end);
    ops' := TopRun(ops, t, 1, p, true);
    ops' := RunStep(ops', AtTop(Written(t, p, true), 1, p, true, Left), OpUpdate(p, true), RaceRead(t, p));
    ops' := LeafRun(ops', RaceRead(t, p), 0, c, false);
    RaceMove(t, p, c);
    hide Steps, Raced, Inv, OneChild, Run;
    ops' := RunStep(ops', Raced(t, p, c, false, map[1 := Walk(p, true, p, Left)]), OpAdvance(1),
                    Raced(t, p, c, false, map[1 := Walk(p, true, c, Arrived)]));
    RaceLook(t, p, c);
    ops' := RunStep(ops', Raced(t, p, c, false, map[1 := Walk(p, true, c, Arrived)]), OpLook(1),
                    Raced(t, p, c, false, map[1 := Walk(p, true, c, Looked(true))]));
    RaceApply(t, p, c);
    ops' := RunStep(ops', Raced(t, p, c, false, map[1 := Walk(p, true, c, Looked(true))]), OpApply(1),
                    Raced(t, p, c, true, map[1 := Walk(p, true, c, Left)]));
    RaceEnd(t, p, c);
    ops' := RunStep(ops', Raced(t, p, c, true, map[1 := Walk(p, true, c, Left)]), OpAdvance(1), Raced(t, p, c, true, map[]));
  }
}
