/** The freezer controller: a state word per cgroup, kept consistent over the tree. */
module Freezers {
  import opened Hierarchy
  import opened Options
  import opened SetFacts

  /** The four bits of freezer->state. */
  datatype Freezer = Freezer(online: bool, self: bool, parent: bool, frozen: bool)

  const OFF := Freezer(false, false, false, false)

  predicate Freezing(f: Freezer) { f.self || f.parent }

  datatype Report = FROZEN | FREEZING | THAWED

  /** `cnt` is what freezers have added to system_freezing_cnt.  `pending` is the node
      whose FROZEN bit an attach has cleared and whose parent it will clear next. */
  datatype Sys = Sys(h: Hier, fs: map<nat, Freezer>, cnt: int, pending: Option<nat>)

  ghost function FreezingSet(fs: map<nat, Freezer>): set<nat> {
    set n | n in fs && fs[n].online && Freezing(fs[n])
  }

  ghost predicate WellFormed(h: Hier, fs: map<nat, Freezer>) {
    Valid(h) && fs.Keys == h.kids.Keys
  }

  /** An offline freezer has an empty state word, a frozen one is freezing, and an online
      one hangs below an online one and follows it. */
  predicate NodeRule(f: Freezer, par: Freezer) {
    && (!f.online ==> f == OFF)
    && (f.frozen ==> Freezing(f))
    && (f.online ==> par.online && (f.parent <==> Freezing(par)))
  }

  /** The root is online and never freezing. */
  ghost predicate NodeOk(h: Hier, fs: map<nat, Freezer>, n: nat)
    requires WellFormed(h, fs) && n in fs
  {
    if n == TOP then fs[n] == Freezer(true, false, false, false) else NodeRule(fs[n], fs[h.parent[n]])
  }

  /** No FROZEN parent of an online child that is not, except just ahead of an attach. */
  predicate EdgeRule(f: Freezer, par: Freezer, excused: bool) {
    f.online && par.frozen && !f.frozen ==> excused
  }

  ghost predicate EdgeOk(h: Hier, fs: map<nat, Freezer>, pending: Option<nat>, n: nat)
    requires WellFormed(h, fs) && n in h.parent
  {
    EdgeRule(fs[n], fs[h.parent[n]], pending == Some(n))
  }

  ghost predicate Counted(s: Sys) { s.cnt == |FreezingSet(s.fs)| }

  ghost predicate Inv(s: Sys) {
    && WellFormed(s.h, s.fs)
    && (forall n {:trigger NodeOk(s.h, s.fs, n)} :: n in s.fs ==> NodeOk(s.h, s.fs, n))
    && (forall n {:trigger EdgeOk(s.h, s.fs, s.pending, n)} :: n in s.h.parent ==> EdgeOk(s.h, s.fs, s.pending, n))
    && Counted(s)
    && (s.pending.Some? ==> s.pending.value in s.fs)
  }

  // ---------------------------------------------------------------- what the invariant means

  ghost predicate AncestorFreezes(h: Hier, fs: map<nat, Freezer>, n: nat)
    requires WellFormed(h, fs) && n in fs
  {
    exists a :: a in fs && a != n && fs[a].self && IsDescendant(h, n, a)
  }

  /** Where each node up to the root follows its parent, FREEZING_PARENT stands for the ancestors. */
  lemma {:induction false} PathFollows(h: Hier, fs: map<nat, Freezer>, n: nat)
    requires WellFormed(h, fs) && n in fs && !fs[TOP].parent
    requires forall m :: m in h.parent && IsDescendant(h, n, m) ==> (fs[m].parent <==> Freezing(fs[h.parent[m]]))
    ensures fs[n].parent <==> AncestorFreezes(h, fs, n)
    decreases n
  {
    if n != TOP {
      var p := h.parent[n];
      assert IsDescendant(h, n, n);
      PathFollows(h, fs, p);
      if fs[n].parent {
        if fs[p].self {
          assert IsDescendant(h, n, p);
        } else {
          var a :| a in fs && a != p && fs[a].self && IsDescendant(h, p, a);
          DescendantNotSmaller(h, p, a);
          assert IsDescendant(h, n, a);
        }
      }
      if AncestorFreezes(h, fs, n) {
        var a :| a in fs && a != n && fs[a].self && IsDescendant(h, n, a);
        assert IsDescendant(h, p, a);
      }
    }
  }

  /** An online freezer hangs below an online one, up to the root. */
  ghost predicate OnlineBelow(h: Hier, fs: map<nat, Freezer>)
    requires WellFormed(h, fs)
  {
    forall n :: n in h.parent && fs[n].online ==> fs[h.parent[n]].online
  }

  lemma {:induction false} OnlineAbove(h: Hier, fs: map<nat, Freezer>, n: nat, m: nat)
    requires WellFormed(h, fs) && OnlineBelow(h, fs) && n in fs && fs[n].online && IsDescendant(h, n, m)
    ensures m in fs && fs[m].online
    decreases n
  {
    if n != m { OnlineAbove(h, fs, h.parent[n], m); }
  }

  lemma OnlineChain(s: Sys, n: nat, m: nat)
    requires Inv(s) && n in s.fs && s.fs[n].online && IsDescendant(s.h, n, m)
    ensures m in s.fs && s.fs[m].online
  {
    forall x | x in s.h.parent && s.fs[x].online ensures s.fs[s.h.parent[x]].online { assert NodeOk(s.h, s.fs, x); }
    OnlineAbove(s.h, s.fs, n, m);
  }

  /** FREEZING_PARENT is set exactly when some proper ancestor has FREEZING_SELF. */
  lemma ParentBitIsAncestry(s: Sys, n: nat)
    requires Inv(s) && n in s.fs && s.fs[n].online
    ensures s.fs[n].parent <==> AncestorFreezes(s.h, s.fs, n)
  {
    assert NodeOk(s.h, s.fs, TOP);
    forall m | m in s.h.parent && IsDescendant(s.h, n, m)
      ensures s.fs[m].parent <==> Freezing(s.fs[s.h.parent[m]])
    {
      OnlineChain(s, n, m);
      assert NodeOk(s.h, s.fs, m);
    }
    PathFollows(s.h, s.fs, n);
  }

  /** Once no attach is under way, FROZEN covers the whole subtree. */
  lemma FrozenIsRecursive(s: Sys, n: nat, d: nat)
    requires Inv(s) && s.pending.None? && n in s.fs && s.fs[n].frozen
    requires IsDescendant(s.h, d, n) && s.fs[d].online
    ensures s.fs[d].frozen
    decreases d
  {
    if d != n {
      assert NodeOk(s.h, s.fs, d);
      FrozenIsRecursive(s, n, s.h.parent[d]);
      assert EdgeOk(s.h, s.fs, s.pending, d);
    }
  }

  /** Below a freezing node everything online is freezing; above a node that is not, nothing is. */
  lemma FreezingIsInherited(s: Sys, n: nat, a: nat)
    requires Inv(s) && n in s.fs && s.fs[n].online && IsDescendant(s.h, n, a)
    ensures a in s.fs && (Freezing(s.fs[a]) ==> Freezing(s.fs[n]))
    decreases n
  {
    assert NodeOk(s.h, s.fs, n);
    if n != a { FreezingIsInherited(s, s.h.parent[n], a); }
  }

  // ---------------------------------------------------------------- single-node steps

  lemma CountUpdate(fs: map<nat, Freezer>, n: nat, f: Freezer)
    requires n in fs
    ensures |FreezingSet(fs[n := f])| == |FreezingSet(fs)|
              - (if fs[n].online && Freezing(fs[n]) then 1 else 0) + (if f.online && Freezing(f) then 1 else 0)
  {
    var a := FreezingSet(fs) - {n};
    SizeWithout(FreezingSet(fs), n);
    assert FreezingSet(fs[n := f]) == if f.online && Freezing(f) then a + {n} else a;
  }

  /** freezer_css_alloc and freezer_css_online for a new child of `p`. */
  function OnlineState(par: Freezer): Freezer {
    if Freezing(par) then Freezer(true, false, true, true) else Freezer(true, false, false, false)
  }

  function Online(s: Sys, p: nat): Sys
    requires p in s.h.kids && p in s.fs
  {
    s.(h := Create(s.h, p), fs := s.fs[s.h.next := OnlineState(s.fs[p])],
       cnt := s.cnt + if Freezing(s.fs[p]) then 1 else 0)
  }

  function Offline(s: Sys, n: nat): Sys
    requires n in s.fs
  {
    s.(fs := s.fs[n := OFF], cnt := s.cnt - if Freezing(s.fs[n]) then 1 else 0)
  }

  /** The first half of freezer_attach: the freezer the tasks moved to. */
  function AttachStart(s: Sys, n: nat, ntasks: nat): Sys
    requires n in s.fs
  {
    if ntasks > 0 && Freezing(s.fs[n]) then s.(fs := s.fs[n := s.fs[n].(frozen := false)], pending := Some(n)) else s
  }

  /** One round of the upward loop of freezer_attach. */
  function AttachUp(s: Sys): Sys
    requires s.pending.Some? && s.h.parent.Keys == s.fs.Keys - {TOP} && forall c :: c in s.h.parent ==> s.h.parent[c] in s.fs
  {
    var c := s.pending.value;
    if c !in s.h.parent then s.(pending := None) else
      var p := s.h.parent[c];
      s.(fs := s.fs[p := s.fs[p].(frozen := false)], pending := if Freezing(s.fs[p]) then Some(p) else None)
  }

  ghost predicate ChildrenFrozen(h: Hier, fs: map<nat, Freezer>, n: nat)
    requires WellFormed(h, fs) && n in fs
  {
    forall i :: 0 <= i < |h.kids[n]| ==> h.kids[n][i] in fs && (fs[h.kids[n][i]].online ==> fs[h.kids[n][i]].frozen)
  }

  /** update_if_frozen; `tasksFrozen` says every task of the cgroup is frozen or to be skipped. */
  ghost function UpdateIfFrozen(s: Sys, n: nat, tasksFrozen: bool): Sys
    requires WellFormed(s.h, s.fs) && n in s.fs
  {
    if Freezing(s.fs[n]) && !s.fs[n].frozen && ChildrenFrozen(s.h, s.fs, n) && tasksFrozen
    then s.(fs := s.fs[n := s.fs[n].(frozen := true)]) else s
  }

  // ---------------------------------------------------------------- they keep the invariant

  lemma OnlineKeepsNode(s: Sys, p: nat, n: nat)
    requires Inv(s) && s.pending.None? && p in s.fs && s.fs[p].online && n in Online(s, p).fs
    ensures WellFormed(Online(s, p).h, Online(s, p).fs)
    ensures NodeOk(Online(s, p).h, Online(s, p).fs, n)
    ensures n in Online(s, p).h.parent ==> EdgeOk(Online(s, p).h, Online(s, p).fs, None, n)
  {
    hide Counted;
    CreateValid(s.h, p);
    assert NodeOk(s.h, s.fs, p);
    if n != s.h.next {
      assert NodeOk(s.h, s.fs, n);
      if n in s.h.parent { assert EdgeOk(s.h, s.fs, s.pending, n); }
    }
  }

  lemma OnlineKeepsInv(s: Sys, p: nat)
    requires Inv(s) && s.pending.None? && p in s.fs && s.fs[p].online
    ensures Inv(Online(s, p))
  {
    var t := Online(s, p);
    OnlineKeepsNode(s, p, p);
    forall n | n in t.fs ensures NodeOk(t.h, t.fs, n) { OnlineKeepsNode(s, p, n); }
    forall n | n in t.h.parent ensures EdgeOk(t.h, t.fs, None, n) { OnlineKeepsNode(s, p, n); }
    assert s.h.next !in s.fs by { CreateValid(s.h, p); }
    OnlineCounts(s.fs, s.h.next, OnlineState(s.fs[p]));
  }

  lemma OnlineCounts(fs: map<nat, Freezer>, c: nat, f: Freezer)
    requires c !in fs && f.online
    ensures |FreezingSet(fs[c := f])| == |FreezingSet(fs)| + if Freezing(f) then 1 else 0
  {
    assert FreezingSet(fs[c := f]) == FreezingSet(fs) + if Freezing(f) then {c} else {};
  }

  ghost predicate CanGoOffline(s: Sys, n: nat) {
    n in s.h.parent && n in s.fs && s.fs[n].online &&
    forall c {:trigger s.fs[c]} :: c in s.h.parent && c in s.fs && s.h.parent[c] == n ==> !s.fs[c].online
  }

  lemma OfflineKeepsInv(s: Sys, n: nat)
    requires Inv(s) && s.pending.None? && CanGoOffline(s, n)
    ensures Inv(Offline(s, n))
  {
    CountUpdate(s.fs, n, OFF);
    var t := Offline(s, n);
    forall m | m in t.fs ensures NodeOk(t.h, t.fs, m) { assert NodeOk(s.h, s.fs, m); }
    forall m | m in t.h.parent ensures EdgeOk(t.h, t.fs, t.pending, m) { assert EdgeOk(s.h, s.fs, s.pending, m); }
  }

  /** The FROZEN bit of one freezer bears on no other freezer's flags and not on the count. */
  lemma FrozenBit(s: Sys, x: nat, b: bool, n: nat)
    requires Inv(s) && x in s.fs && (b ==> Freezing(s.fs[x])) && n in s.fs
    ensures NodeOk(s.h, s.fs[x := s.fs[x].(frozen := b)], n)
  {
    assert NodeOk(s.h, s.fs, n) && NodeOk(s.h, s.fs, x);
  }

  /** So a change of that bit needs to keep the edge rule only. */
  lemma FrozenBitKeepsInv(s: Sys, x: nat, b: bool, pending: Option<nat>)
    requires Inv(s) && x in s.fs && (b ==> Freezing(s.fs[x])) && (pending.Some? ==> pending.value in s.fs)
    requires forall n :: n in s.h.parent ==> EdgeOk(s.h, s.fs[x := s.fs[x].(frozen := b)], pending, n)
    ensures Inv(s.(fs := s.fs[x := s.fs[x].(frozen := b)], pending := pending))
  {
    var fs := s.fs[x := s.fs[x].(frozen := b)];
    assert FreezingSet(fs) == FreezingSet(s.fs);
    forall n | n in fs ensures NodeOk(s.h, fs, n) { FrozenBit(s, x, b, n); }
  }

  lemma AttachStartKeepsInv(s: Sys, n: nat, ntasks: nat)
    requires Inv(s) && s.pending.None? && n in s.fs
    ensures Inv(AttachStart(s, n, ntasks))
  {
    if ntasks > 0 && Freezing(s.fs[n]) {
      var fs := s.fs[n := s.fs[n].(frozen := false)];
      forall m | m in s.h.parent ensures EdgeOk(s.h, fs, Some(n), m) { assert EdgeOk(s.h, s.fs, s.pending, m); }
      FrozenBitKeepsInv(s, n, false, Some(n));
    }
  }

  /** Stopping at the first ancestor that is not freezing leaves no stale FROZEN above it. */
  lemma AttachUpKeepsInv(s: Sys)
    requires Inv(s) && s.pending.Some?
    ensures Inv(AttachUp(s))
  {
    var c := s.pending.value;
    if c in s.h.parent {
      var p := s.h.parent[c];
      assert NodeOk(s.h, s.fs, p);
      var fs := s.fs[p := s.fs[p].(frozen := false)];
      var pending := if Freezing(s.fs[p]) then Some(p) else None;
      forall m | m in s.h.parent ensures EdgeOk(s.h, fs, pending, m) {
        assert EdgeOk(s.h, s.fs, s.pending, m);
        if m == p { assert NodeOk(s.h, s.fs, s.h.parent[p]); }
      }
      FrozenBitKeepsInv(s, p, false, pending);
    } else {
      assert forall m :: m in s.h.parent ==> EdgeOk(s.h, s.fs, s.pending, m);
    }
  }

  lemma UpdateKeepsInv(s: Sys, n: nat, tasksFrozen: bool)
    requires Inv(s) && n in s.fs
    ensures Inv(UpdateIfFrozen(s, n, tasksFrozen))
  {
    if Freezing(s.fs[n]) && !s.fs[n].frozen && ChildrenFrozen(s.h, s.fs, n) && tasksFrozen {
      var fs := s.fs[n := s.fs[n].(frozen := true)];
      forall m | m in s.h.parent ensures EdgeOk(s.h, fs, s.pending, m) {
        assert EdgeOk(s.h, s.fs, s.pending, m);
        assert m in s.h.kids[s.h.parent[m]];
      }
      FrozenBitKeepsInv(s, n, true, s.pending);
    }
  }

  // ---------------------------------------------------------------- freezer_change_state

  /** freezer_apply_state with CGROUP_FREEZING_SELF (`self`) or CGROUP_FREEZING_PARENT. */
  function Applied(f: Freezer, freeze: bool, self: bool): Freezer {
    if !f.online then f else
      var g := if self then f.(self := freeze) else f.(parent := freeze);
      if Freezing(g) || freeze then g else g.(frozen := false)
  }

  /** The state of `d` after freezing or thawing the subtree at `n`, from its parent's new state. */
  ghost function Changed(s: Sys, n: nat, freeze: bool, d: nat): Freezer
    requires WellFormed(s.h, s.fs) && d in s.fs
    decreases d
  {
    if d == n then Applied(s.fs[d], freeze, true)
    else if IsDescendant(s.h, d, n) then Applied(s.fs[d], Freezing(Changed(s, n, freeze, s.h.parent[d])), false)
    else s.fs[d]
  }

  ghost function ChangeState(s: Sys, n: nat, freeze: bool): Sys
    requires WellFormed(s.h, s.fs)
  {
    var fs := map d | d in s.fs :: Changed(s, n, freeze, d);
    s.(fs := fs, cnt := s.cnt + |FreezingSet(fs)| - |FreezingSet(s.fs)|)
  }

  /** A node outside the subtree, and its parent, keep their state. */
  lemma OutsideUnchanged(s: Sys, n: nat, freeze: bool, d: nat)
    requires WellFormed(s.h, s.fs) && n in s.fs && d in s.h.parent && (d == n || !IsDescendant(s.h, d, n))
    ensures Changed(s, n, freeze, s.h.parent[d]) == s.fs[s.h.parent[d]]
  {
    if IsDescendant(s.h, s.h.parent[d], n) { DescendantNotSmaller(s.h, s.h.parent[d], n); }
  }

  lemma ChangeKeepsNode(s: Sys, n: nat, freeze: bool, d: nat)
    requires Inv(s) && n in s.h.parent && d in s.h.parent
    ensures NodeRule(Changed(s, n, freeze, d), Changed(s, n, freeze, s.h.parent[d]))
    ensures EdgeRule(Changed(s, n, freeze, d), Changed(s, n, freeze, s.h.parent[d]), s.pending == Some(d))
    decreases d
  {
    hide Counted;
    var p := s.h.parent[d];
    assert NodeOk(s.h, s.fs, d) && NodeOk(s.h, s.fs, p) && EdgeOk(s.h, s.fs, s.pending, d);
    if d == n || !IsDescendant(s.h, d, n) {
      OutsideUnchanged(s, n, freeze, d);
    } else if p in s.h.parent {
      ChangeKeepsNode(s, n, freeze, p);
    }
  }

  /** The bits of `d` after the write: SELF at `n` only, PARENT below it only, and FROZEN while still freezing. */
  ghost predicate Told(h: Hier, was: map<nat, Freezer>, now: map<nat, Freezer>, n: nat, freeze: bool, d: nat)
    requires WellFormed(h, was) && now.Keys == was.Keys && d in was
  {
    && now[d].online == was[d].online
    && now[d].self == (if d == n && was[d].online then freeze else was[d].self)
    && (d == n ==> now[d].parent == was[d].parent)
    && (!IsDescendant(h, d, n) || !was[d].online ==> now[d] == was[d])
    && now[d].frozen == (was[d].frozen && (now[d].self || now[d].parent))
  }

  lemma ChangeTells(s: Sys, n: nat, freeze: bool, d: nat)
    requires Inv(s) && n in s.h.parent && d in s.fs
    ensures Told(s.h, s.fs, ChangeState(s, n, freeze).fs, n, freeze, d)
  {
    assert NodeOk(s.h, s.fs, d);
  }

  lemma ChangeKeepsInv(s: Sys, n: nat, freeze: bool)
    requires Inv(s) && n in s.h.parent
    ensures Inv(ChangeState(s, n, freeze))
  {
    var t := ChangeState(s, n, freeze);
    assert !IsDescendant(s.h, TOP, n);
    assert NodeOk(s.h, s.fs, TOP);
    forall d | d in t.fs ensures NodeOk(t.h, t.fs, d) { if d != TOP { ChangeKeepsNode(s, n, freeze, d); } }
    forall d | d in t.h.parent ensures EdgeOk(t.h, t.fs, t.pending, d) { ChangeKeepsNode(s, n, freeze, d); }
  }

  // ---------------------------------------------------------------- freezer_read

  /** Whether `d` is FROZEN after the bottom-up refresh; `idle` are the cgroups whose own
      tasks are all frozen. */
  ghost predicate Refreshed(s: Sys, idle: set<nat>, d: nat)
    requires WellFormed(s.h, s.fs) && d in s.fs
    decreases s.h.next - d
  {
    s.fs[d].frozen ||
    (Freezing(s.fs[d]) && d in idle &&
     forall i :: 0 <= i < |s.h.kids[d]| ==>
       s.h.kids[d][i] in s.h.parent && s.h.kids[d][i] in s.fs &&
       (s.fs[s.h.kids[d][i]].online ==> Refreshed(s, idle, s.h.kids[d][i])))
  }

  /** A freezing subtree whose tasks are all frozen is reported FROZEN. */
  lemma ReadIsComplete(s: Sys, idle: set<nat>, n: nat)
    requires Inv(s) && n in s.fs && s.fs[n].online && Freezing(s.fs[n])
    requires forall d :: IsDescendant(s.h, d, n) && s.fs[d].online ==> d in idle
    ensures Refreshed(s, idle, n)
    decreases s.h.next - n
  {
    KidsBounds(s.h, n);
    forall i | 0 <= i < |s.h.kids[n]| && s.fs[s.h.kids[n][i]].online ensures Refreshed(s, idle, s.h.kids[n][i]) {
      var c := s.h.kids[n][i];
      assert c in s.h.parent && s.h.parent[c] == n;
      assert NodeOk(s.h, s.fs, c);
      forall d | IsDescendant(s.h, d, c) && s.fs[d].online ensures d in idle {
        assert IsDescendant(s.h, c, n);
        DescendantTransitive(s.h, d, c, n);
      }
      ReadIsComplete(s, idle, c);
    }
  }

  /** Every online freezer at or below `d` was FROZEN or has all its tasks frozen. */
  ghost predicate BelowDone(s: Sys, idle: set<nat>, d: nat)
    requires WellFormed(s.h, s.fs)
  {
    forall e :: IsDescendant(s.h, e, d) && s.fs[e].online ==> s.fs[e].frozen || e in idle
  }

  /** With no attach under way a read finds an online freezer FROZEN exactly if it is freezing and all
      below is done. */
  lemma {:induction false} RefreshedMeans(s: Sys, idle: set<nat>, d: nat)
    requires Inv(s) && s.pending.None? && d in s.fs && s.fs[d].online
    ensures Refreshed(s, idle, d) <==> (s.fs[d].self || s.fs[d].parent) && BelowDone(s, idle, d)
    decreases s.h.next - d
  {
    assert NodeOk(s.h, s.fs, d) && d < s.h.next;
    if s.fs[d].frozen {
      forall e | IsDescendant(s.h, e, d) && s.fs[e].online ensures s.fs[e].frozen { FrozenIsRecursive(s, d, e); }
    } else if Freezing(s.fs[d]) {
      KidsBounds(s.h, d);
      forall i | 0 <= i < |s.h.kids[d]| && s.fs[s.h.kids[d][i]].online
        ensures s.h.kids[d][i] in s.h.parent
        ensures Refreshed(s, idle, s.h.kids[d][i]) <==> BelowDone(s, idle, s.h.kids[d][i])
      {
        assert s.h.kids[d][i] in s.h.parent && NodeOk(s.h, s.fs, s.h.kids[d][i]);
        RefreshedMeans(s, idle, s.h.kids[d][i]);
      }
      BelowSplits(s, idle, d);
    }
  }

  lemma BelowSplits(s: Sys, idle: set<nat>, d: nat)
    requires Inv(s) && d in s.fs && s.fs[d].online && !s.fs[d].frozen
    ensures BelowDone(s, idle, d) <==>
            d in idle && forall i :: 0 <= i < |s.h.kids[d]| ==>
              s.h.kids[d][i] in s.fs && (s.fs[s.h.kids[d][i]].online ==> BelowDone(s, idle, s.h.kids[d][i]))
  {
    KidsBounds(s.h, d);
    assert IsDescendant(s.h, d, d);
    forall i, e | 0 <= i < |s.h.kids[d]| && IsDescendant(s.h, e, s.h.kids[d][i]) ensures IsDescendant(s.h, e, d) {
      ChildBelow(s.h, d, i, e);
    }
    if d in idle && forall i :: 0 <= i < |s.h.kids[d]| ==>
         s.h.kids[d][i] in s.fs && (s.fs[s.h.kids[d][i]].online ==> BelowDone(s, idle, s.h.kids[d][i]))
    {
      forall e | IsDescendant(s.h, e, d) && s.fs[e].online ensures s.fs[e].frozen || e in idle {
        if e != d {
          var k := DescendantViaChild(s.h, e, d);
          OnlineChain(s, e, s.h.kids[d][k]);
        }
      }
    }
  }

  lemma ChildBelow(h: Hier, d: nat, i: nat, e: nat)
    requires Valid(h) && d in h.kids && i < |h.kids[d]| && IsDescendant(h, e, h.kids[d][i])
    ensures IsDescendant(h, e, d)
  {
    assert h.kids[d][i] in h.parent && IsDescendant(h, h.kids[d][i], d);
    DescendantTransitive(h, e, h.kids[d][i], d);
  }

  // ---------------------------------------------------------------- whole runs

  /** Creation, removal and attach hold cgroup_mutex, so an attach under way excludes the
      first three; reads and state writes do not. */
  datatype Op =
    | OpOnline(p: nat)
    | OpOffline(n: nat)
    | OpAttach(n: nat, ntasks: nat)
    | OpAttachUp
    | OpUpdate(n: nat, tasksFrozen: bool)
    | OpChange(n: nat, freeze: bool)

  ghost predicate Enabled(s: Sys, op: Op) {
    match op
    case OpOnline(p) => s.pending.None? && p in s.fs && s.fs[p].online
    case OpOffline(n) => s.pending.None? && CanGoOffline(s, n)
    case OpAttach(n, _) => s.pending.None? && n in s.fs
    case OpAttachUp => s.pending.Some?
    case OpUpdate(n, _) => n in s.fs
    case OpChange(n, _) => n in s.h.parent   // the state file does not exist on the root
  }

  ghost function Apply(s: Sys, op: Op): Sys
    requires Inv(s) && Enabled(s, op)
  {
    match op
    case OpOnline(p) => Online(s, p)
    case OpOffline(n) => Offline(s, n)
    case OpAttach(n, ntasks) => AttachStart(s, n, ntasks)
    case OpAttachUp => AttachUp(s)
    case OpUpdate(n, tasksFrozen) => UpdateIfFrozen(s, n, tasksFrozen)
    case OpChange(n, freeze) => ChangeState(s, n, freeze)
  }

  lemma ApplyKeepsInv(s: Sys, op: Op)
    requires Inv(s) && Enabled(s, op)
    ensures Inv(Apply(s, op))
  {
    match op
    case OpOnline(p) => OnlineKeepsInv(s, p);
    case OpOffline(n) => OfflineKeepsInv(s, n);
    case OpAttach(n, ntasks) => AttachStartKeepsInv(s, n, ntasks);
    case OpAttachUp => AttachUpKeepsInv(s);
    case OpUpdate(n, tasksFrozen) => UpdateKeepsInv(s, n, tasksFrozen);
    case OpChange(n, freeze) => ChangeKeepsInv(s, n, freeze);
  }

  function Boot(): Sys {
    Sys(Hier(1, map[], map[TOP := []]), map[TOP := Freezer(true, false, false, false)], 0, None)
  }

  lemma BootInv()
    ensures Inv(Boot())
  {
  }

  /** The state after any sequence of steps from boot; a step that is not enabled is not taken. */
  ghost function Run(ops: seq<Op>): (s: Sys)
    ensures Inv(s)
  {
    if ops == [] then
      BootInv();
      Boot()
    else
      var s := Run(ops[..|ops| - 1]);
      var op := ops[|ops| - 1];
      if Enabled(s, op) then
        ApplyKeepsInv(s, op);
        Apply(s, op)
      else s
  }

  /** What every reachable state of the freezer tree guarantees. */
  lemma ReachableFreezers(ops: seq<Op>, n: nat)
    requires n in Run(ops).fs && Run(ops).fs[n].online
    ensures var s := Run(ops);
            && (s.fs[n].frozen ==> Freezing(s.fs[n]))
            && (s.fs[n].parent <==> AncestorFreezes(s.h, s.fs, n))
            && s.cnt == |FreezingSet(s.fs)|
            && (s.pending.None? && s.fs[n].frozen ==>
                  forall d :: IsDescendant(s.h, d, n) && s.fs[d].online ==> s.fs[d].frozen)
  {
    var s := Run(ops);
    assert NodeOk(s.h, s.fs, n);
    ParentBitIsAncestry(s, n);
    if s.pending.None? && s.fs[n].frozen {
      forall d | IsDescendant(s.h, d, n) && s.fs[d].online ensures s.fs[d].frozen { FrozenIsRecursive(s, n, d); }
    }
  }

  // ---------------------------------------------------------------- the code

  /** The next ancestor of `n` above `cur` is `cur`'s parent. */
  lemma NoAncestorBetween(h: Hier, n: nat, cur: nat, d: nat)
    requires Valid(h) && IsDescendant(h, n, cur) && IsDescendant(h, n, d) && d < cur
    ensures cur in h.parent && d <= h.parent[cur]
  {
    AncestorsOrdered(h, n, cur, d);
    if IsDescendant(h, d, cur) { DescendantNotSmaller(h, d, cur); }
    DescendantNotSmaller(h, h.parent[cur], d);
  }

  class FreezerTree {
    var h: Hier
    var fs: map<nat, Freezer>
    var cnt: int

    ghost function View(): Sys
      reads this
    {
      Sys(h, fs, cnt, None)
    }

    constructor ()
      ensures View() == Boot()
    {
      h, fs, cnt := Hier(1, map[], map[TOP := []]), map[TOP := Freezer(true, false, false, false)], 0;
    }

    method CssOnline(p: nat) returns (id: nat)
      requires Inv(View()) && p in fs && fs[p].online
      modifies this
      ensures View() == Online(old(View()), p) && id == old(h.next) && Inv(View())
      ensures var freezing := old(fs)[p].self || old(fs)[p].parent;
              && h == Create(old(h), p) && fs == old(fs)[id := Freezer(true, false, freezing, freezing)]
              && cnt == old(cnt) + if freezing then 1 else 0
    {
      OnlineKeepsInv(View(), p);
      id := h.next;
      var f := Freezer(true, false, false, false);
      if Freezing(fs[p]) {
        f := f.(parent := true, frozen := true);
        cnt := cnt + 1;
      }
      fs := fs[id := f];
      h := Create(h, p);
    }

    method CssOffline(n: nat)
      requires Inv(View()) && CanGoOffline(View(), n)
      modifies this
      ensures View() == Offline(old(View()), n) && Inv(View())
      ensures h == old(h) && fs == old(fs)[n := Freezer(false, false, false, false)]
      ensures cnt == old(cnt) - if old(fs)[n].self || old(fs)[n].parent then 1 else 0
    {
      OfflineKeepsInv(View(), n);
      if Freezing(fs[n]) {
        cnt := cnt - 1;
      }
      fs := fs[n := OFF];
    }

    /** freezer_attach run to its end clears FROZEN on the target and every ancestor,
        although it stops climbing at the first one that is not freezing. */
    method Attach(n: nat, ntasks: nat)
      requires Inv(View()) && n in fs && fs[n].online
      modifies this
      ensures Inv(View()) && h == old(h) && cnt == old(cnt) && fs.Keys == old(fs.Keys)
      ensures forall d :: d in fs ==>
                fs[d] == if ntasks > 0 && Freezing(old(fs)[n]) && IsDescendant(h, n, d)
                         then old(fs)[d].(frozen := false) else old(fs)[d]
    {
      if ntasks == 0 || !Freezing(fs[n]) { return; }
      hide IsDescendant, NodeOk, EdgeOk;
      ghost var s0 := View();
      AttachStartKeepsInv(View(), n, ntasks);
      fs := fs[n := fs[n].(frozen := false)];
      ClimbStart(s0, fs, n);
      var cur, clear := n, true;
      while clear && cur in h.parent
        invariant h == s0.h && cnt == s0.cnt && Climbed(s0, fs, n, cur)
        invariant Inv(Sys(h, fs, cnt, if clear then Some(cur) else None))
        invariant clear <==> Freezing(s0.fs[cur])
        decreases cur
      {
        AttachUpKeepsInv(Sys(h, fs, cnt, Some(cur)));
        ClimbStep(s0, fs, n, cur);
        cur := h.parent[cur];
        fs := fs[cur := fs[cur].(frozen := false)];
        clear := Freezing(fs[cur]);
      }
      AttachSettles(s0, fs, n, cur);
    }

    method ApplyState(x: nat, freeze: bool, self: bool)
      requires x in fs
      modifies `fs, `cnt
      ensures fs == old(fs)[x := Applied(old(fs)[x], freeze, self)]
      ensures var was := old(fs)[x];
              var s, p := if self then freeze else was.self, if self then was.parent else freeze;
              fs[x] == if was.online then Freezer(true, s, p, was.frozen && (freeze || s || p)) else was
      ensures cnt == old(cnt) + |FreezingSet(fs)| - |FreezingSet(old(fs))|
    {
      CountUpdate(fs, x, Applied(fs[x], freeze, self));
      var f := fs[x];
      if !f.online { return; }
      if freeze {
        if !Freezing(f) { cnt := cnt + 1; }
        fs := fs[x := if self then f.(self := true) else f.(parent := true)];
      } else {
        var wasFreezing := Freezing(f);
        f := if self then f.(self := false) else f.(parent := false);
        if !Freezing(f) {
          if wasFreezing { cnt := cnt - 1; }
          f := f.(frozen := false);
        }
        fs := fs[x := f];
      }
    }

    /** freezer_change_state: the subtree in pre-order, each node following its parent. */
    method WriteState(n: nat, freeze: bool)
      requires Inv(View()) && n in h.parent
      modifies this
      ensures View() == ChangeState(old(View()), n, freeze) && Inv(View())
      ensures h == old(h) && fs.Keys == old(fs.Keys) && forall d :: d in fs ==> Told(h, old(fs), fs, n, freeze, d)
      ensures forall d :: d in fs && fs[d].online ==> (fs[d].parent <==> AncestorFreezes(h, fs, d))
    {
      hide PreWalk, IsDescendant, NodeOk, EdgeOk, Applied, ChangedSoFar, FreezingSet, Freezing, ChangeState, Told, AncestorFreezes;
      ghost var s0 := View();
      ghost var visited: seq<nat> := [];
      var pos := PreStart(h, n);
      ChangeStart(s0, n, freeze);
      while pos.Some?
        invariant h == s0.h && PreWalk(h, n, visited, pos) && ChangedSoFar(s0, fs, n, freeze, visited)
        invariant cnt == s0.cnt + |FreezingSet(fs)| - |FreezingSet(s0.fs)|
        decreases |Pre(h, n)| - |visited|, pos.Some?
      {
        var x := pos.value;
        PreWalkAt(h, n, visited, x);
        ChangeStep(s0, fs, n, freeze, visited, x);
        ApplyState(x, if x == n then freeze else Freezing(fs[h.parent[x]]), x == n);
        pos := PreNext(h, n, visited, x);
        visited := visited + [x];
      }
      ChangeEnd(s0, fs, cnt, n, freeze, visited);
      ChangeKeepsInv(s0, n, freeze);
      forall d | d in fs ensures Told(h, s0.fs, fs, n, freeze, d) { ChangeTells(s0, n, freeze, d); }
      forall d | d in fs && fs[d].online ensures fs[d].parent <==> AncestorFreezes(h, fs, d) {
        ParentBitIsAncestry(View(), d);
      }
    }

    /** update_if_frozen. */
    method UpdateOne(n: nat, tasksFrozen: bool)
      requires WellFormed(h, fs) && n in fs
      modifies `fs
      ensures View() == UpdateIfFrozen(old(View()), n, tasksFrozen)
      ensures fs == old(fs)[n := old(fs)[n].(frozen := fs[n].frozen)]
      ensures fs[n].frozen <==>
              || old(fs)[n].frozen
              || (&& (old(fs)[n].self || old(fs)[n].parent) && tasksFrozen
                  && forall c :: c in h.parent && h.parent[c] == n && old(fs)[c].online ==> old(fs)[c].frozen)
    {
      if !Freezing(fs[n]) || fs[n].frozen { return; }
      var i := 0;
      while i < |h.kids[n]|
        invariant 0 <= i <= |h.kids[n]|
        invariant forall k :: 0 <= k < i ==> h.kids[n][k] in fs && (fs[h.kids[n][k]].online ==> fs[h.kids[n][k]].frozen)
      {
        assert h.kids[n][i] in h.parent;
        if fs[h.kids[n][i]].online && !fs[h.kids[n][i]].frozen { return; }
        i := i + 1;
      }
      if tasksFrozen {
        fs := fs[n := fs[n].(frozen := true)];
      }
    }

    /** freezer_read: refresh the subtree bottom-up and report. */
    method Read(n: nat, idle: set<nat>) returns (r: Report)
      requires Inv(View()) && n in fs
      modifies `fs
      ensures Inv(View()) && fs.Keys == old(fs.Keys)
      ensures forall d :: d in fs ==>
                fs[d] == if IsDescendant(h, d, n) then old(fs)[d].(frozen := Refreshed(old(View()), idle, d)) else old(fs)[d]
      ensures forall d :: d in fs && IsDescendant(h, d, n) && fs[d].online ==>
                (fs[d].frozen <==> (fs[d].self || fs[d].parent) && BelowDone(old(View()), idle, d))
      ensures r == if fs[n].frozen then FROZEN else if Freezing(fs[n]) then FREEZING else THAWED
    {
      hide PostWalk, IsDescendant, NodeOk, EdgeOk, Refreshed, UpdateIfFrozen, RefreshedSoFar, Counted, BelowDone;
      ghost var s0 := View();
      ghost var visited: seq<nat> := [];
      var pos := PostStart(h, n);
      RefreshStart(s0, idle);
      while pos.Some?
        invariant Inv(View()) && PostWalk(h, n, visited, pos) && RefreshedSoFar(s0, fs, idle, visited)
        decreases |Post(h, n)| - |visited|, pos.Some?
      {
        var x := pos.value;
        PostWalkAt(h, n, visited, x);
        UpdateKeepsInv(View(), x, x in idle);
        RefreshStep(s0, View(), idle, visited, x);
        UpdateOne(x, x in idle);
        pos := PostNext(h, n, visited, x);
        visited := visited + [x];
      }
      RefreshEnd(s0, fs, idle, n, visited);
      forall d | d in fs && IsDescendant(h, d, n) && fs[d].online
        ensures fs[d].frozen <==> (fs[d].self || fs[d].parent) && BelowDone(s0, idle, d)
      {
        RefreshedMeans(s0, idle, d);
      }
      r := if fs[n].frozen then FROZEN else if Freezing(fs[n]) then FREEZING else THAWED;
    }
  }

  /** The nodes visited so far have their new state, the others their old one. */
  ghost predicate ChangedSoFar(s: Sys, fs: map<nat, Freezer>, n: nat, freeze: bool, visited: seq<nat>) {
    && WellFormed(s.h, s.fs) && fs.Keys == s.fs.Keys
    && forall d :: d in fs ==> fs[d] == if d in visited then Changed(s, n, freeze, d) else s.fs[d]
  }

  lemma ChangeStart(s: Sys, n: nat, freeze: bool)
    requires WellFormed(s.h, s.fs)
    ensures ChangedSoFar(s, s.fs, n, freeze, [])
  {
  }

  lemma ChangeStep(s: Sys, fs: map<nat, Freezer>, n: nat, freeze: bool, visited: seq<nat>, x: nat)
    requires ChangedSoFar(s, fs, n, freeze, visited) && x in s.fs && x !in visited && IsDescendant(s.h, x, n)
    requires x != n ==> x in s.h.parent && s.h.parent[x] in visited
    ensures x in fs && (x != n ==> s.h.parent[x] in fs)
    ensures var f := Applied(fs[x], if x == n then freeze else Freezing(fs[s.h.parent[x]]), x == n);
            ChangedSoFar(s, fs[x := f], n, freeze, visited + [x])
  {
  }

  lemma ChangeEnd(s: Sys, fs: map<nat, Freezer>, cnt: int, n: nat, freeze: bool, visited: seq<nat>)
    requires ChangedSoFar(s, fs, n, freeze, visited) && n in s.fs && PreWalk(s.h, n, visited, None)
    requires cnt == s.cnt + |FreezingSet(fs)| - |FreezingSet(s.fs)|
    ensures Sys(s.h, fs, cnt, s.pending) == ChangeState(s, n, freeze)
  {
    forall d | d in fs ensures fs[d] == Changed(s, n, freeze, d) {
      PreWalkDone(s.h, n, visited, d);
    }
    assert fs == ChangeState(s, n, freeze).fs;
  }

  ghost predicate RefreshedSoFar(s: Sys, fs: map<nat, Freezer>, idle: set<nat>, visited: seq<nat>) {
    && WellFormed(s.h, s.fs) && fs.Keys == s.fs.Keys
    && forall d :: d in fs ==> fs[d] == if d in visited then s.fs[d].(frozen := Refreshed(s, idle, d)) else s.fs[d]
  }

  lemma RefreshStart(s: Sys, idle: set<nat>)
    requires WellFormed(s.h, s.fs)
    ensures RefreshedSoFar(s, s.fs, idle, [])
  {
  }

  lemma RefreshEnd(s: Sys, fs: map<nat, Freezer>, idle: set<nat>, n: nat, visited: seq<nat>)
    requires RefreshedSoFar(s, fs, idle, visited) && n in s.fs && PostWalk(s.h, n, visited, None)
    ensures fs.Keys == s.fs.Keys
    ensures forall d :: d in fs ==>
              fs[d] == if IsDescendant(s.h, d, n) then s.fs[d].(frozen := Refreshed(s, idle, d)) else s.fs[d]
  {
    forall d | d in fs ensures d in visited <==> IsDescendant(s.h, d, n) { PostWalkDone(s.h, n, visited, d); }
  }

  /** With its children refreshed, one update refreshes a node. */
  lemma RefreshStep(s: Sys, t: Sys, idle: set<nat>, visited: seq<nat>, x: nat)
    requires RefreshedSoFar(s, t.fs, idle, visited) && t.h == s.h && x in s.fs && x !in visited
    requires forall c :: c in s.h.kids[x] ==> c in visited
    ensures x in t.fs && RefreshedSoFar(s, UpdateIfFrozen(t, x, x in idle).fs, idle, visited + [x])
  {
    ChildrenRefreshed(s, t, idle, visited, x);
  }

  ghost predicate KidsRefreshed(s: Sys, idle: set<nat>, d: nat)
    requires WellFormed(s.h, s.fs) && d in s.fs
  {
    forall i :: 0 <= i < |s.h.kids[d]| ==>
      s.h.kids[d][i] in s.h.parent && s.h.kids[d][i] in s.fs &&
      (s.fs[s.h.kids[d][i]].online ==> Refreshed(s, idle, s.h.kids[d][i]))
  }

  lemma ChildrenRefreshed(s: Sys, t: Sys, idle: set<nat>, visited: seq<nat>, x: nat)
    requires RefreshedSoFar(s, t.fs, idle, visited) && t.h == s.h && x in s.fs
    requires forall c :: c in s.h.kids[x] ==> c in visited
    ensures ChildrenFrozen(t.h, t.fs, x) <==> KidsRefreshed(s, idle, x)
    ensures Refreshed(s, idle, x) <==> s.fs[x].frozen || (Freezing(s.fs[x]) && x in idle && KidsRefreshed(s, idle, x))
  {
  }

  /** An attach to `n` has climbed to `cur`, clearing FROZEN on the way. */
  ghost predicate Climbed(s: Sys, fs: map<nat, Freezer>, n: nat, cur: nat) {
    && WellFormed(s.h, s.fs) && fs.Keys == s.fs.Keys && IsDescendant(s.h, n, cur) && cur in s.fs
    && forall d :: d in fs ==>
         fs[d] == if d >= cur && IsDescendant(s.h, n, d) then s.fs[d].(frozen := false) else s.fs[d]
  }

  lemma ClimbStart(s: Sys, fs: map<nat, Freezer>, n: nat)
    requires WellFormed(s.h, s.fs) && n in s.fs && fs == s.fs[n := s.fs[n].(frozen := false)]
    ensures Climbed(s, fs, n, n)
  {
    forall d | d in fs && IsDescendant(s.h, n, d) ensures d <= n { DescendantNotSmaller(s.h, n, d); }
  }

  lemma ClimbStep(s: Sys, fs: map<nat, Freezer>, n: nat, cur: nat)
    requires Climbed(s, fs, n, cur) && cur in s.h.parent
    ensures var p := s.h.parent[cur];
            p < cur && p in fs && fs[p] == s.fs[p] && Climbed(s, fs[p := fs[p].(frozen := false)], n, p)
  {
    var h, p := s.h, s.h.parent[cur];
    assert IsDescendant(h, cur, p);
    DescendantTransitive(h, n, cur, p);
    forall d | d in fs && IsDescendant(h, n, d) && d < cur ensures d <= p { NoAncestorBetween(h, n, cur, d); }
  }

  /** Above the node where the climb stopped nothing was FROZEN. */
  lemma AttachSettles(s: Sys, fs: map<nat, Freezer>, n: nat, cur: nat)
    requires Inv(s) && n in s.fs && s.fs[n].online && Climbed(s, fs, n, cur)
    requires Freezing(s.fs[cur]) ==> cur !in s.h.parent
    ensures !Freezing(s.fs[cur])
    ensures forall d :: d in fs ==> fs[d] == if IsDescendant(s.h, n, d) then s.fs[d].(frozen := false) else s.fs[d]
  {
    assert NodeOk(s.h, s.fs, cur);
    forall d | d in fs && IsDescendant(s.h, n, d) && d < cur ensures !s.fs[d].frozen {
      AncestorsOrdered(s.h, n, cur, d);
      if IsDescendant(s.h, d, cur) { DescendantNotSmaller(s.h, d, cur); }
      OnlineAncestor(s, n, cur);
      FreezingIsInherited(s, cur, d);
      assert NodeOk(s.h, s.fs, d);
    }
  }

  lemma OnlineAncestor(s: Sys, n: nat, a: nat)
    requires Inv(s) && n in s.fs && s.fs[n].online && IsDescendant(s.h, n, a)
    ensures a in s.fs && s.fs[a].online
    decreases n
  {
    assert NodeOk(s.h, s.fs, n);
    if n != a { OnlineAncestor(s, s.h.parent[n], a); }
  }
}
