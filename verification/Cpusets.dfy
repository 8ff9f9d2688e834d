/** The tree of cpusets: how their masks and flags may change, what every
    change keeps, and which scheduler domains they give rise to. */
module Cpusets {
  import opened Hierarchy
  import opened Lists
  import opened Options
  import opened SchedDomains
  import opened SetFacts

  datatype Flag = CpuExclusive | MemExclusive | MemHardwall | MemoryMigrate | SchedLoadBalance | SpreadPage | SpreadSlab

  datatype Cpuset = Cpuset(online: bool, flags: set<Flag>, cpus: Mask, mems: Mask)

  datatype Errno = Ok | EBUSY | EACCES | EINVAL | ENOSPC | ENOMEM | ENODEV

  /** The hierarchy, its cpusets and number_of_cpusets. */
  datatype Sys = Sys(h: Hier, cs: map<nat, Cpuset>, number: int)

  /** is_cpuset_subset. */
  predicate IsSubset(p: Cpuset, q: Cpuset) {
    && p.cpus <= q.cpus
    && p.mems <= q.mems
    && (CpuExclusive in p.flags ==> CpuExclusive in q.flags)
    && (MemExclusive in p.flags ==> MemExclusive in q.flags)
  }

  /** One of two siblings is exclusive and they overlap. */
  predicate Conflict(a: Cpuset, b: Cpuset) {
    || ((CpuExclusive in a.flags || CpuExclusive in b.flags) && Overlap(a.cpus, b.cpus))
    || ((MemExclusive in a.flags || MemExclusive in b.flags) && Overlap(a.mems, b.mems))
  }

  ghost function OnlineSet(s: Sys): set<nat> {
    set n | n in s.cs && s.cs[n].online
  }

  ghost predicate WellFormed(s: Sys) {
    && Valid(s.h) && s.cs.Keys == s.h.kids.Keys && s.cs[TOP].online
    && (forall n {:trigger s.cs[n].online} :: n in s.h.parent && s.cs[n].online ==> s.cs[s.h.parent[n]].online)
  }

  ghost predicate SubsetRule(s: Sys)
    requires WellFormed(s)
  {
    forall n {:trigger s.cs[n].online} ::
      n in s.h.parent && s.cs[n].online ==> IsSubset(s.cs[n], s.cs[s.h.parent[n]])
  }

  predicate Siblings(h: Hier, m: nat, n: nat) {
    m in h.parent && n in h.parent && m != n && h.parent[m] == h.parent[n]
  }

  ghost predicate SiblingRule(s: Sys)
    requires WellFormed(s)
  {
    forall m, n :: Siblings(s.h, m, n) && s.cs[m].online && s.cs[n].online ==> !Conflict(s.cs[m], s.cs[n])
  }

  ghost predicate Inv(s: Sys) {
    WellFormed(s) && SubsetRule(s) && SiblingRule(s) && s.number == |OnlineSet(s)|
  }

  // ---------------------------------------------------------------- validate_change

  ghost predicate ChildOutgrows(s: Sys, cur: nat, trial: Cpuset, c: nat)
    requires WellFormed(s)
  {
    c in s.h.parent && s.h.parent[c] == cur && s.cs[c].online && !IsSubset(s.cs[c], trial)
  }

  ghost predicate SiblingClashes(s: Sys, cur: nat, trial: Cpuset, c: nat)
    requires WellFormed(s) && cur in s.h.parent
  {
    Siblings(s.h, cur, c) && s.cs[c].online && Conflict(trial, s.cs[c])
  }

  predicate Starves(cur: Cpuset, trial: Cpuset) {
    (cur.cpus != {} && trial.cpus == {}) || (cur.mems != {} && trial.mems == {})
  }

  /** The verdict on replacing `cur` by `trial`; `busy` says tasks are in it or attaching. */
  ghost function Verdict(s: Sys, cur: nat, trial: Cpuset, busy: bool): Errno
    requires WellFormed(s) && cur in s.cs
  {
    if exists c :: ChildOutgrows(s, cur, trial, c) then EBUSY
    else if cur == TOP then Ok
    else if !IsSubset(trial, s.cs[s.h.parent[cur]]) then EACCES
    else if exists c :: SiblingClashes(s, cur, trial, c) then EINVAL
    else if busy && Starves(s.cs[cur], trial) then ENOSPC
    else Ok
  }

  lemma ReplaceKeepsForm(s: Sys, cur: nat, trial: Cpuset)
    requires WellFormed(s) && cur in s.cs && s.cs[cur].online && trial.online
    ensures WellFormed(s.(cs := s.cs[cur := trial]))
    ensures OnlineSet(s.(cs := s.cs[cur := trial])) == OnlineSet(s)
  {
  }

  /** A change that passes keeps every rule: checking the children, the parent and
      the siblings is enough. */
  lemma AcceptedChangeKeepsInv(s: Sys, cur: nat, trial: Cpuset, busy: bool)
    requires Inv(s) && cur in s.cs && s.cs[cur].online && trial.online
    requires Verdict(s, cur, trial, busy) == Ok
    ensures Inv(s.(cs := s.cs[cur := trial]))
  {
    ReplaceKeepsForm(s, cur, trial);
    AcceptedKeepsSubset(s, cur, trial, busy);
    AcceptedKeepsSiblings(s, cur, trial, busy);
  }

  /** The rules spelt out in masks and flags. */
  lemma RulesMean(s: Sys)
    requires WellFormed(s)
    ensures SubsetRule(s) <==>
            forall n {:trigger s.cs[n].online} :: n in s.h.parent && s.cs[n].online ==>
              var p := s.cs[s.h.parent[n]];
              && s.cs[n].cpus <= p.cpus && s.cs[n].mems <= p.mems
              && s.cs[n].flags * {CpuExclusive, MemExclusive} <= p.flags
    ensures SiblingRule(s) <==>
            forall m, n :: Siblings(s.h, m, n) && s.cs[m].online && s.cs[n].online ==>
              && (CpuExclusive in s.cs[m].flags ==> s.cs[m].cpus * s.cs[n].cpus == {})
              && (MemExclusive in s.cs[m].flags ==> s.cs[m].mems * s.cs[n].mems == {})
  {
    assert forall m, n :: Siblings(s.h, m, n) ==> Siblings(s.h, n, m);
    forall m, n | Siblings(s.h, m, n)
      ensures s.cs[m].cpus * s.cs[n].cpus == s.cs[n].cpus * s.cs[m].cpus
      ensures s.cs[m].mems * s.cs[n].mems == s.cs[n].mems * s.cs[m].mems
    {
    }
  }

  /** Which check comes first: a child outgrown, the parent exceeded, a sibling in the way, tasks left bare. */
  lemma VerdictKinds(s: Sys, cur: nat, trial: Cpuset, busy: bool)
    requires WellFormed(s) && cur in s.cs
    ensures var r := Verdict(s, cur, trial, busy);
            && (r == EBUSY <==> exists c :: c in s.h.parent && s.h.parent[c] == cur && s.cs[c].online && !IsSubset(s.cs[c], trial))
            && (r == EACCES <==> r != EBUSY && cur != TOP && !IsSubset(trial, s.cs[s.h.parent[cur]]))
            && r in {Ok, EBUSY, EACCES, EINVAL, ENOSPC}
  {
    hide SiblingClashes, IsSubset;
    if exists c :: c in s.h.parent && s.h.parent[c] == cur && s.cs[c].online && !IsSubset(s.cs[c], trial) {
      var c :| c in s.h.parent && s.h.parent[c] == cur && s.cs[c].online && !IsSubset(s.cs[c], trial);
      assert ChildOutgrows(s, cur, trial, c);
    }
  }

  /** A change is refused for the tree's sake exactly if installing it would break a rule, and for its
      tasks' sake exactly if it would keep the rules and leave them without CPUs or memory. */
  lemma VerdictIsExact(s: Sys, cur: nat, trial: Cpuset, busy: bool)
    requires Inv(s) && cur in s.cs && s.cs[cur].online && trial.online
    ensures var t, r := s.(cs := s.cs[cur := trial]), Verdict(s, cur, trial, busy);
            && (r in {EBUSY, EACCES, EINVAL} <==> !Inv(t))
            && (r == ENOSPC <==> Inv(t) && cur != TOP && busy && ((s.cs[cur].cpus != {} && trial.cpus == {}) || (s.cs[cur].mems != {} && trial.mems == {})))
  {
    var t := s.(cs := s.cs[cur := trial]);
    ReplaceKeepsForm(s, cur, trial);
    match Verdict(s, cur, trial, busy)
    case EBUSY =>
      var c :| ChildOutgrows(s, cur, trial, c);
      assert t.cs[c].online;
    case EACCES => assert t.cs[cur].online;
    case EINVAL =>
      var c :| SiblingClashes(s, cur, trial, c);
      assert Siblings(t.h, cur, c);
    case ENOSPC => AcceptedChangeKeepsInv(s, cur, trial, false);
    case _ => AcceptedChangeKeepsInv(s, cur, trial, busy);
  }

  lemma AcceptedKeepsSubset(s: Sys, cur: nat, trial: Cpuset, busy: bool)
    requires Inv(s) && cur in s.cs && s.cs[cur].online && trial.online
    requires Verdict(s, cur, trial, busy) == Ok && WellFormed(s.(cs := s.cs[cur := trial]))
    ensures SubsetRule(s.(cs := s.cs[cur := trial]))
  {
    var t := s.(cs := s.cs[cur := trial]);
    forall n | n in t.h.parent && t.cs[n].online ensures IsSubset(t.cs[n], t.cs[t.h.parent[n]]) {
      assert s.cs[n].online;
      assert !ChildOutgrows(s, cur, trial, n);
    }
  }

  lemma AcceptedKeepsSiblings(s: Sys, cur: nat, trial: Cpuset, busy: bool)
    requires Inv(s) && cur in s.cs && s.cs[cur].online && trial.online
    requires Verdict(s, cur, trial, busy) == Ok && WellFormed(s.(cs := s.cs[cur := trial]))
    ensures SiblingRule(s.(cs := s.cs[cur := trial]))
  {
    var t := s.(cs := s.cs[cur := trial]);
    forall m, n | Siblings(t.h, m, n) && t.cs[m].online && t.cs[n].online
      ensures !Conflict(t.cs[m], t.cs[n])
    {
      assert Siblings(s.h, m, n) && Siblings(s.h, n, m);
      if m == cur {
        assert !SiblingClashes(s, cur, trial, n);
      } else if n == cur {
        assert !SiblingClashes(s, cur, trial, m);
      }
    }
  }

  // ---------------------------------------------------------------- what the rules imply globally

  lemma AncestorsOnline(s: Sys, n: nat, a: nat)
    requires Inv(s) && n in s.cs && s.cs[n].online && IsDescendant(s.h, n, a)
    ensures a in s.cs && s.cs[a].online && IsSubset(s.cs[n], s.cs[a])
    decreases n
  {
  }

  /** Two unrelated nodes lie below different children of one node. */
  lemma Diverge(h: Hier, a: nat, b: nat) returns (x: nat, y: nat)
    requires Valid(h) && a in h.kids && b in h.kids && !IsDescendant(h, a, b) && !IsDescendant(h, b, a)
    ensures x in h.parent && y in h.parent && h.parent[x] == h.parent[y] && x != y
    ensures IsDescendant(h, a, x) && IsDescendant(h, b, y)
    decreases a
  {
    TopIsAncestor(h, b);
    TopIsAncestor(h, a);
    var p := h.parent[a];
    if IsDescendant(h, b, p) {
      var k := DescendantViaChild(h, b, p);
      x, y := a, h.kids[p][k];
    } else {
      x, y := Diverge(h, p, b);
    }
  }

  /** Although only siblings are ever compared, an exclusive cpuset is disjoint from
      every online cpuset that is neither above nor below it. */
  lemma ExclusiveIsGlobal(s: Sys, a: nat, b: nat)
    requires Inv(s) && a in s.cs && b in s.cs && s.cs[a].online && s.cs[b].online
    requires !IsDescendant(s.h, a, b) && !IsDescendant(s.h, b, a)
    ensures CpuExclusive in s.cs[a].flags ==> s.cs[a].cpus * s.cs[b].cpus == {}
    ensures MemExclusive in s.cs[a].flags ==> s.cs[a].mems * s.cs[b].mems == {}
  {
    var x, y := Diverge(s.h, a, b);
    AncestorsOnline(s, a, x);
    AncestorsOnline(s, b, y);
    assert Siblings(s.h, x, y);
    assert s.cs[a].cpus * s.cs[b].cpus <= s.cs[x].cpus * s.cs[y].cpus;
    assert s.cs[a].mems * s.cs[b].mems <= s.cs[x].mems * s.cs[y].mems;
  }

  // ---------------------------------------------------------------- the operations as functions

  function WithMask(c: Cpuset, cpus: bool, mask: Mask): Cpuset {
    if cpus then c.(cpus := mask) else c.(mems := mask)
  }

  function WithFlag(c: Cpuset, f: Flag, on: bool): Cpuset {
    c.(flags := if on then c.flags + {f} else c.flags - {f})
  }

  /** Install `trial` if it passes and the heap for the task update can be had. */
  ghost function Commit(s: Sys, id: nat, trial: Cpuset, busy: bool, heapOk: bool): (Errno, Sys)
    requires WellFormed(s) && id in s.cs
  {
    var verdict := Verdict(s, id, trial, busy);
    if verdict != Ok then (verdict, s)
    else if !heapOk then (ENOMEM, s)
    else (Ok, s.(cs := s.cs[id := trial]))
  }

  /** A write to the "cpus" file (`cpus`) or the "mems" file: the parsed list, if it
      parses, against what the machine has. */
  ghost function WriteMask(s: Sys, id: nat, cpus: bool, list: Option<Mask>, present: Mask, busy: bool,
                           trialOk: bool, heapOk: bool): (Errno, Sys)
    requires WellFormed(s) && id in s.cs
  {
    if !s.cs[id].online then (ENODEV, s)
    else if !trialOk then (ENOMEM, s)
    else if id == TOP then (EACCES, s)
    else if list.None? || !(list.value <= present) then (EINVAL, s)
    else if WithMask(s.cs[id], cpus, list.value) == s.cs[id] then (Ok, s)
    else Commit(s, id, WithMask(s.cs[id], cpus, list.value), busy, heapOk)
  }

  /** update_flag. */
  ghost function UpdateFlag(s: Sys, id: nat, f: Flag, on: bool, busy: bool, trialOk: bool, heapOk: bool): (Errno, Sys)
    requires WellFormed(s) && id in s.cs
  {
    if !trialOk then (ENOMEM, s) else Commit(s, id, WithFlag(s.cs[id], f, on), busy, heapOk)
  }

  /** A write to one of the flag files. */
  ghost function WriteFlag(s: Sys, id: nat, f: Flag, on: bool, busy: bool, trialOk: bool, heapOk: bool): (Errno, Sys)
    requires WellFormed(s) && id in s.cs
  {
    if !s.cs[id].online then (ENODEV, s) else UpdateFlag(s, id, f, on, busy, trialOk, heapOk)
  }

  ghost predicate ExclusiveChild(s: Sys, p: nat, c: nat)
    requires WellFormed(s)
  {
    c in s.h.parent && s.h.parent[c] == p && s.cs[c].online &&
    (MemExclusive in s.cs[c].flags || CpuExclusive in s.cs[c].flags)
  }

  /** cpuset_css_alloc and cpuset_css_online for a new child of `p`. */
  ghost function Online(s: Sys, p: nat, clone: bool): Sys
    requires WellFormed(s) && p in s.cs
  {
    Sys(Create(s.h, p), s.cs[s.h.next := Newborn(s, p, clone)], s.number + 1)
  }

  ghost function Newborn(s: Sys, p: nat, clone: bool): Cpuset
    requires WellFormed(s) && p in s.cs
  {
    Offspring(s.cs[p], clone && !HasExclusive(s, p))
  }

  ghost predicate HasExclusive(s: Sys, p: nat)
    requires WellFormed(s)
  {
    exists c :: ExclusiveChild(s, p, c)
  }

  /** A new cpuset balances load and inherits the spread flags; it is empty unless
      it clones its parent. */
  function Offspring(par: Cpuset, copy: bool): Cpuset {
    Cpuset(true, {SchedLoadBalance} + (par.flags * {SpreadPage, SpreadSlab}),
           if copy then par.cpus else {}, if copy then par.mems else {})
  }

  /** cpuset_css_offline; the cgroup core calls it only without online children. */
  ghost predicate CanGoOffline(s: Sys, id: nat)
    requires WellFormed(s)
  {
    id in s.h.parent && s.cs[id].online &&
    forall c {:trigger s.cs[c].online} :: c in s.h.parent && s.h.parent[c] == id ==> !s.cs[c].online
  }

  ghost function Offline(s: Sys, id: nat, busy: bool, trialOk: bool, heapOk: bool): Sys
    requires WellFormed(s) && CanGoOffline(s, id)
  {
    var t := if SchedLoadBalance in s.cs[id].flags
             then UpdateFlag(s, id, SchedLoadBalance, false, busy, trialOk, heapOk).1 else s;
    t.(cs := t.cs[id := t.cs[id].(online := false)], number := t.number - 1)
  }

  function Trim(c: Cpuset, top: Cpuset): Cpuset {
    c.(cpus := c.cpus - (c.cpus - top.cpus), mems := c.mems - (c.mems - top.mems))
  }

  /** cpuset_hotplug_workfn run to completion: `cpus` and `mems` are now active. */
  ghost function Hotplug(s: Sys, cpus: Mask, mems: Mask): Sys
    requires WellFormed(s)
  {
    if s.cs[TOP].cpus == cpus && s.cs[TOP].mems == mems then s else
      var top := s.cs[TOP].(cpus := cpus, mems := mems);
      s.(cs := TrimmedAll(s.cs[TOP := top], top))
  }

  function TrimmedOne(n: nat, c: Cpuset, top: Cpuset): Cpuset {
    if n != TOP && c.online then Trim(c, top) else c
  }

  function TrimmedAll(cs: map<nat, Cpuset>, top: Cpuset): map<nat, Cpuset> {
    map n | n in cs :: TrimmedOne(n, cs[n], top)
  }

  // ---------------------------------------------------------------- every operation keeps the rules

  lemma CommitKeepsInv(s: Sys, id: nat, trial: Cpuset, busy: bool, heapOk: bool)
    requires Inv(s) && id in s.cs && s.cs[id].online && trial.online
    ensures Inv(Commit(s, id, trial, busy, heapOk).1)
  {
    if Verdict(s, id, trial, busy) == Ok { AcceptedChangeKeepsInv(s, id, trial, busy); }
  }

  lemma WriteMaskKeepsInv(s: Sys, id: nat, cpus: bool, list: Option<Mask>, present: Mask, busy: bool,
                          trialOk: bool, heapOk: bool)
    requires Inv(s) && id in s.cs
    ensures Inv(WriteMask(s, id, cpus, list, present, busy, trialOk, heapOk).1)
  {
    if s.cs[id].online && list.Some? {
      CommitKeepsInv(s, id, WithMask(s.cs[id], cpus, list.value), busy, heapOk);
    }
  }

  lemma WriteFlagKeepsInv(s: Sys, id: nat, f: Flag, on: bool, busy: bool, trialOk: bool, heapOk: bool)
    requires Inv(s) && id in s.cs
    ensures Inv(WriteFlag(s, id, f, on, busy, trialOk, heapOk).1)
  {
    if s.cs[id].online { CommitKeepsInv(s, id, WithFlag(s.cs[id], f, on), busy, heapOk); }
  }

  /** A new child of `p` changes no other cpuset. It balances load, takes over the spread flags, and copies
      its parent's masks if told to and no child of `p` is exclusive; else it is empty. */
  ghost predicate Born(s: Sys, p: nat, clone: bool, t: Sys) {
    && WellFormed(s) && p in s.cs && s.h.next !in s.cs && t.cs.Keys == s.cs.Keys + {s.h.next}
    && t.h == Create(s.h, p) && t.number == s.number + 1
    && (forall n :: n in s.cs ==> t.cs[n] == s.cs[n])
    && t.cs[s.h.next].online && t.cs[s.h.next].flags == {SchedLoadBalance} + s.cs[p].flags * {SpreadPage, SpreadSlab}
    && if clone && NoneExclusive(s, p)
       then t.cs[s.h.next].cpus == s.cs[p].cpus && t.cs[s.h.next].mems == s.cs[p].mems
       else t.cs[s.h.next].cpus == t.cs[s.h.next].mems == {}
  }

  ghost predicate NoneExclusive(s: Sys, p: nat)
    requires WellFormed(s)
  {
    forall c {:trigger s.cs[c].online} :: c in s.h.parent && s.h.parent[c] == p && s.cs[c].online ==>
      CpuExclusive !in s.cs[c].flags && MemExclusive !in s.cs[c].flags
  }

  lemma ExclusiveMeans(s: Sys, p: nat)
    requires WellFormed(s)
    ensures HasExclusive(s, p) <==> !NoneExclusive(s, p)
  {
    if !NoneExclusive(s, p) {
      var c :| c in s.h.parent && s.h.parent[c] == p && s.cs[c].online &&
               (CpuExclusive in s.cs[c].flags || MemExclusive in s.cs[c].flags);
      assert ExclusiveChild(s, p, c);
    }
  }

  lemma OnlineMeans(s: Sys, p: nat, clone: bool)
    requires WellFormed(s) && p in s.cs
    ensures Born(s, p, clone, Online(s, p, clone))
  {
    CreateValid(s.h, p);
    ExclusiveMeans(s, p);
    hide Valid, HasExclusive, NoneExclusive;
  }

  /** Offline, a cpuset has its masks still, and no longer balances load unless memory was short. */
  lemma OfflineMeans(s: Sys, id: nat, busy: bool, trialOk: bool, heapOk: bool)
    requires Inv(s) && CanGoOffline(s, id)
    ensures var was := s.cs[id];
            var flags := if trialOk && heapOk then was.flags - {SchedLoadBalance} else was.flags;
            Offline(s, id, busy, trialOk, heapOk) ==
              Sys(s.h, s.cs[id := Cpuset(false, flags, was.cpus, was.mems)], s.number - 1)
  {
    BalanceAccepted(s, id, false, busy);
    hide Inv, Verdict, CanGoOffline;
    assert SchedLoadBalance !in s.cs[id].flags ==> s.cs[id].flags - {SchedLoadBalance} == s.cs[id].flags;
  }

  lemma GrowthKeepsForm(s: Sys, p: nat, c: Cpuset)
    requires WellFormed(s) && p in s.cs && s.cs[p].online && c.online
    ensures WellFormed(Sys(Create(s.h, p), s.cs[s.h.next := c], s.number + 1)) && s.h.next !in s.cs
  {
    CreateValid(s.h, p);
    var t := Sys(Create(s.h, p), s.cs[s.h.next := c], s.number + 1);
    forall n | n in t.h.parent && t.cs[n].online ensures t.cs[t.h.parent[n]].online {
      if n != s.h.next { assert s.cs[n].online; }
    }
  }

  lemma OnlineKeepsForm(s: Sys, p: nat, clone: bool)
    requires Inv(s) && p in s.cs && s.cs[p].online
    ensures WellFormed(Online(s, p, clone)) && s.h.next !in s.cs
    ensures Online(s, p, clone).number == |OnlineSet(Online(s, p, clone))|
  {
    GrowthKeepsForm(s, p, Newborn(s, p, clone));
    assert OnlineSet(Online(s, p, clone)) == OnlineSet(s) + {s.h.next};
  }

  lemma NewbornFits(s: Sys, p: nat, clone: bool, n: nat)
    requires WellFormed(s) && n in s.h.parent && s.h.parent[n] == p && s.cs[n].online
    ensures !Conflict(Newborn(s, p, clone), s.cs[n]) && !Conflict(s.cs[n], Newborn(s, p, clone))
  {
    assert !ExclusiveChild(s, p, n) || Newborn(s, p, clone).cpus == Newborn(s, p, clone).mems == {};
  }

  lemma OnlineKeepsInv(s: Sys, p: nat, clone: bool)
    requires Inv(s) && p in s.cs && s.cs[p].online
    ensures Inv(Online(s, p, clone))
  {
    OnlineKeepsForm(s, p, clone);
    var t, born := Online(s, p, clone), s.h.next;
    assert IsSubset(Newborn(s, p, clone), s.cs[p]);
    forall n | n in t.h.parent && t.cs[n].online ensures IsSubset(t.cs[n], t.cs[t.h.parent[n]]) {
      if n != born { assert s.cs[n].online; }
    }
    OnlineKeepsSiblings(s, p, clone);
  }

  lemma OnlineKeepsSiblings(s: Sys, p: nat, clone: bool)
    requires Inv(s) && p in s.cs && s.cs[p].online && WellFormed(Online(s, p, clone)) && s.h.next !in s.cs
    ensures SiblingRule(Online(s, p, clone))
  {
    var t, born := Online(s, p, clone), s.h.next;
    forall m, n | Siblings(t.h, m, n) && t.cs[m].online && t.cs[n].online ensures !Conflict(t.cs[m], t.cs[n]) {
      if m == born {
        NewbornFits(s, p, clone, n);
      } else if n == born {
        NewbornFits(s, p, clone, m);
      } else {
        assert Siblings(s.h, m, n);
      }
    }
  }

  lemma SwitchOffKeepsInv(s: Sys, id: nat)
    requires Inv(s) && CanGoOffline(s, id)
    ensures Inv(s.(cs := s.cs[id := s.cs[id].(online := false)], number := s.number - 1))
  {
    var t := s.(cs := s.cs[id := s.cs[id].(online := false)], number := s.number - 1);
    assert OnlineSet(t) == OnlineSet(s) - {id};
    forall n | n in t.h.parent && t.cs[n].online
      ensures t.cs[t.h.parent[n]].online && IsSubset(t.cs[n], t.cs[t.h.parent[n]])
    {
      assert s.cs[n].online;
    }
    forall m, n | Siblings(t.h, m, n) && t.cs[m].online && t.cs[n].online ensures !Conflict(t.cs[m], t.cs[n]) {
      assert Siblings(s.h, m, n);
    }
  }

  lemma OfflineKeepsInv(s: Sys, id: nat, busy: bool, trialOk: bool, heapOk: bool)
    requires Inv(s) && CanGoOffline(s, id)
    ensures Inv(Offline(s, id, busy, trialOk, heapOk))
  {
    var t := if SchedLoadBalance in s.cs[id].flags
             then UpdateFlag(s, id, SchedLoadBalance, false, busy, trialOk, heapOk).1 else s;
    CommitKeepsInv(s, id, WithFlag(s.cs[id], SchedLoadBalance, false), busy, heapOk);
    assert Inv(t);
    forall c | c in t.h.parent && t.h.parent[c] == id ensures !t.cs[c].online {
      assert !s.cs[c].online;
    }
    SwitchOffKeepsInv(t, id);
  }

  lemma HotplugKeepsInv(s: Sys, cpus: Mask, mems: Mask)
    requires Inv(s)
    ensures Inv(Hotplug(s, cpus, mems))
  {
    var t := Hotplug(s, cpus, mems);
    assert OnlineSet(t) == OnlineSet(s);
    forall n | n in t.h.parent && t.cs[n].online
      ensures t.cs[t.h.parent[n]].online && IsSubset(t.cs[n], t.cs[t.h.parent[n]])
    {
      assert s.cs[n].online;
      assert IsSubset(s.cs[n], s.cs[s.h.parent[n]]);
    }
    forall m, n | Siblings(t.h, m, n) && t.cs[m].online && t.cs[n].online ensures !Conflict(t.cs[m], t.cs[n]) {
      assert Siblings(s.h, m, n) && s.cs[m].online && s.cs[n].online;
      assert t.cs[m].cpus * t.cs[n].cpus <= s.cs[m].cpus * s.cs[n].cpus;
      assert t.cs[m].mems * t.cs[n].mems <= s.cs[m].mems * s.cs[n].mems;
    }
  }

  // ---------------------------------------------------------------- whole runs

  datatype Op =
    | OpMask(id: nat, cpus: bool, list: Option<Mask>, present: Mask, busy: bool, trialOk: bool, heapOk: bool)
    | OpFlag(id: nat, f: Flag, on: bool, busy: bool, trialOk: bool, heapOk: bool)
    | OpOnline(p: nat, clone: bool)
    | OpOffline(id: nat, busy: bool, trialOk: bool, heapOk: bool)
    | OpHotplug(newCpus: Mask, newMems: Mask)

  /** What the cgroup core guarantees before calling: cgroups are created under live
      parents only, and go offline after their children. */
  ghost predicate Enabled(s: Sys, op: Op)
    requires WellFormed(s)
  {
    match op
    case OpMask(id, _, _, _, _, _, _) => id in s.cs
    case OpFlag(id, _, _, _, _, _) => id in s.cs
    case OpOnline(p, _) => p in s.cs && s.cs[p].online
    case OpOffline(id, _, _, _) => CanGoOffline(s, id)
    case OpHotplug(_, _) => true
  }

  ghost function Apply(s: Sys, op: Op): Sys
    requires WellFormed(s) && Enabled(s, op)
  {
    match op
    case OpMask(id, cpus, list, present, busy, trialOk, heapOk) =>
      WriteMask(s, id, cpus, list, present, busy, trialOk, heapOk).1
    case OpFlag(id, f, on, busy, trialOk, heapOk) => WriteFlag(s, id, f, on, busy, trialOk, heapOk).1
    case OpOnline(p, clone) => Online(s, p, clone)
    case OpOffline(id, busy, trialOk, heapOk) => Offline(s, id, busy, trialOk, heapOk)
    case OpHotplug(cpus, mems) => Hotplug(s, cpus, mems)
  }

  lemma ApplyKeepsInv(s: Sys, op: Op)
    requires Inv(s) && Enabled(s, op)
    ensures Inv(Apply(s, op))
  {
    match op
    case OpMask(id, cpus, list, present, busy, trialOk, heapOk) =>
      WriteMaskKeepsInv(s, id, cpus, list, present, busy, trialOk, heapOk);
    case OpFlag(id, f, on, busy, trialOk, heapOk) => WriteFlagKeepsInv(s, id, f, on, busy, trialOk, heapOk);
    case OpOnline(p, clone) => OnlineKeepsInv(s, p, clone);
    case OpOffline(id, busy, trialOk, heapOk) => OfflineKeepsInv(s, id, busy, trialOk, heapOk);
    case OpHotplug(cpus, mems) => HotplugKeepsInv(s, cpus, mems);
  }

  /** cpuset_init and cpuset_init_smp: the top cpuset alone. */
  function Boot(cpus: Mask, mems: Mask): Sys {
    Sys(Hier(1, map[], map[TOP := []]),
        map[TOP := Cpuset(true, {CpuExclusive, MemExclusive, SchedLoadBalance}, cpus, mems)], 1)
  }

  lemma BootInv(cpus: Mask, mems: Mask)
    ensures Inv(Boot(cpus, mems))
  {
    assert OnlineSet(Boot(cpus, mems)) == {TOP};
  }

  /** The state after any sequence of operations from boot; one that is not enabled is not taken. */
  ghost function Run(ops: seq<Op>, cpus: Mask, mems: Mask): (s: Sys)
    ensures Inv(s)
  {
    if ops == [] then
      BootInv(cpus, mems);
      Boot(cpus, mems)
    else
      var s := Run(ops[..|ops| - 1], cpus, mems);
      var op := ops[|ops| - 1];
      if Enabled(s, op) then
        ApplyKeepsInv(s, op);
        Apply(s, op)
      else s
  }

  /** In every reachable state an online cpuset is inside each of its ancestors, which share
      its exclusive flags, and an exclusive one is disjoint from every unrelated one. */
  lemma ReachableCpusets(ops: seq<Op>, cpus: Mask, mems: Mask, a: nat, b: nat)
    requires var s := Run(ops, cpus, mems);
             a in s.cs && b in s.cs && s.cs[a].online && s.cs[b].online
    ensures var s := Run(ops, cpus, mems);
            && (IsDescendant(s.h, a, b) ==>
                  && s.cs[a].cpus <= s.cs[b].cpus && s.cs[a].mems <= s.cs[b].mems
                  && (CpuExclusive in s.cs[a].flags ==> CpuExclusive in s.cs[b].flags)
                  && (MemExclusive in s.cs[a].flags ==> MemExclusive in s.cs[b].flags))
            && (!IsDescendant(s.h, a, b) && !IsDescendant(s.h, b, a) ==>
                  && (CpuExclusive in s.cs[a].flags ==> s.cs[a].cpus * s.cs[b].cpus == {})
                  && (MemExclusive in s.cs[a].flags ==> s.cs[a].mems * s.cs[b].mems == {}))
  {
    var s := Run(ops, cpus, mems);
    if IsDescendant(s.h, a, b) {
      AncestorsOnline(s, a, b);
    } else if !IsDescendant(s.h, b, a) {
      ExclusiveIsGlobal(s, a, b);
    }
  }

  // ---------------------------------------------------------------- the code

  class CpusetTree {
    var h: Hier
    var cs: map<nat, Cpuset>
    var number: int

    ghost function View(): Sys
      reads this
    {
      Sys(h, cs, number)
    }

    constructor (cpus: Mask, mems: Mask)
      ensures View() == Boot(cpus, mems)
    {
      h := Hier(1, map[], map[TOP := []]);
      cs := map[TOP := Cpuset(true, {CpuExclusive, MemExclusive, SchedLoadBalance}, cpus, mems)];
      number := 1;
    }

    /** The first loop of validate_change: each child must stay a subset of us. */
    method ChildrenFit(cur: nat, trial: Cpuset) returns (ok: bool)
      requires WellFormed(View()) && cur in cs
      ensures ok <==> !exists c :: ChildOutgrows(View(), cur, trial, c)
    {
      hide IsSubset;
      assert forall c :: ChildOutgrows(View(), cur, trial, c) ==> c in h.kids[cur];
      var i := 0;
      while i < |h.kids[cur]|
        invariant 0 <= i <= |h.kids[cur]|
        invariant forall k :: 0 <= k < i ==> !ChildOutgrows(View(), cur, trial, h.kids[cur][k])
      {
        var c := h.kids[cur][i];
        assert c in h.parent;
        if cs[c].online && !IsSubset(cs[c], trial) {
          assert ChildOutgrows(View(), cur, trial, c);
          return false;
        }
        i := i + 1;
      }
      ok := true;
    }

    /** The second loop: no exclusive overlap with a sibling. */
    method SiblingsFit(cur: nat, trial: Cpuset) returns (ok: bool)
      requires WellFormed(View()) && cur in h.parent
      ensures ok <==> !exists c :: SiblingClashes(View(), cur, trial, c)
    {
      hide Conflict;
      var par := h.parent[cur];
      assert forall c :: SiblingClashes(View(), cur, trial, c) ==> c in h.kids[par];
      var i := 0;
      while i < |h.kids[par]|
        invariant 0 <= i <= |h.kids[par]|
        invariant forall k :: 0 <= k < i ==> !SiblingClashes(View(), cur, trial, h.kids[par][k])
      {
        var c := h.kids[par][i];
        assert c in h.parent;
        if cs[c].online && c != cur && Conflict(trial, cs[c]) {
          assert SiblingClashes(View(), cur, trial, c);
          return false;
        }
        i := i + 1;
      }
      ok := true;
    }

    method ValidateChange(cur: nat, trial: Cpuset, busy: bool) returns (r: Errno)
      requires WellFormed(View()) && cur in cs
      ensures r == Verdict(View(), cur, trial, busy)
    {
      var ok := ChildrenFit(cur, trial);
      if !ok { return EBUSY; }
      if cur == TOP { return Ok; }
      if !IsSubset(trial, cs[h.parent[cur]]) { return EACCES; }
      ok := SiblingsFit(cur, trial);
      if !ok { return EINVAL; }
      if busy && Starves(cs[cur], trial) { return ENOSPC; }
      return Ok;
    }

    /** The common tail of update_cpumask, update_nodemask and update_flag. */
    method Install(id: nat, trial: Cpuset, busy: bool, heapOk: bool) returns (r: Errno)
      requires WellFormed(View()) && id in cs
      modifies this
      ensures (r, View()) == Commit(old(View()), id, trial, busy, heapOk)
    {
      r := ValidateChange(id, trial, busy);
      if r != Ok { return; }
      if !heapOk { return ENOMEM; }
      cs := cs[id := trial];
    }

    /** cpuset_write_resmask with update_cpumask or update_nodemask. */
    method WriteMaskFile(id: nat, cpus: bool, list: Option<Mask>, present: Mask, busy: bool, trialOk: bool, heapOk: bool)
        returns (r: Errno)
      requires Inv(View()) && id in cs
      modifies this
      ensures (r, View()) == WriteMask(old(View()), id, cpus, list, present, busy, trialOk, heapOk)
      ensures r != Ok ==> View() == old(View())
      ensures list.Some? ==>
                var was := old(cs)[id];
                var trial := if cpus then Cpuset(was.online, was.flags, list.value, was.mems)
                             else Cpuset(was.online, was.flags, was.cpus, list.value);
                && (r == Ok ==> h == old(h) && number == old(number) && cs == old(cs)[id := trial])
                && (r == Ok <==> was.online && trialOk && id != TOP && list.value <= present &&
                                 (trial == was || (Verdict(old(View()), id, trial, busy) == Ok && heapOk)))
      ensures list.None? ==> r != Ok
      ensures Inv(View())
    {
      WriteMaskKeepsInv(View(), id, cpus, list, present, busy, trialOk, heapOk);
      hide Inv, Verdict;
      if !cs[id].online { return ENODEV; }
      if !trialOk { return ENOMEM; }
      if id == TOP { return EACCES; }
      if list.None? || !(list.value <= present) { return EINVAL; }
      if (if cpus then cs[id].cpus else cs[id].mems) == list.value { return Ok; }
      r := Install(id, WithMask(cs[id], cpus, list.value), busy, heapOk);
    }

    method WriteFlagFile(id: nat, f: Flag, on: bool, busy: bool, trialOk: bool, heapOk: bool) returns (r: Errno)
      requires Inv(View()) && id in cs
      modifies this
      ensures (r, View()) == WriteFlag(old(View()), id, f, on, busy, trialOk, heapOk)
      ensures r != Ok ==> View() == old(View())
      ensures var was := old(cs)[id];
              var trial := Cpuset(was.online, if on then was.flags + {f} else was.flags - {f}, was.cpus, was.mems);
              && (r == Ok ==> h == old(h) && number == old(number) && cs == old(cs)[id := trial])
              && (r == Ok <==> was.online && trialOk && heapOk && Verdict(old(View()), id, trial, busy) == Ok)
      ensures Inv(View())
    {
      WriteFlagKeepsInv(View(), id, f, on, busy, trialOk, heapOk);
      hide Inv, Verdict;
      if !cs[id].online { return ENODEV; }
      if !trialOk { return ENOMEM; }
      r := Install(id, WithFlag(cs[id], f, on), busy, heapOk);
    }

    method HasExclusiveChild(p: nat) returns (found: bool)
      requires WellFormed(View()) && p in cs
      ensures found <==> HasExclusive(View(), p)
    {
      assert forall c :: ExclusiveChild(View(), p, c) ==> c in h.kids[p];
      var i := 0;
      while i < |h.kids[p]|
        invariant 0 <= i <= |h.kids[p]|
        invariant forall k :: 0 <= k < i ==> !ExclusiveChild(View(), p, h.kids[p][k])
      {
        var c := h.kids[p][i];
        assert c in h.parent;
        if cs[c].online && (MemExclusive in cs[c].flags || CpuExclusive in cs[c].flags) {
          assert ExclusiveChild(View(), p, c);
          return true;
        }
        i := i + 1;
      }
      found := false;
    }

    /** cpuset_css_online for a new child of `p`. */
    method CssOnline(p: nat, clone: bool) returns (id: nat)
      requires Inv(View()) && p in cs && cs[p].online
      modifies this
      ensures View() == Online(old(View()), p, clone) && id == old(h.next)
      ensures Born(old(View()), p, clone, View())
      ensures Inv(View())
    {
      ghost var s0 := View();
      OnlineKeepsInv(s0, p, clone);
      OnlineMeans(s0, p, clone);
      hide Inv, HasExclusive;
      var exclusive := HasExclusiveChild(p);
      id := h.next;
      cs := cs[id := Offspring(cs[p], clone && !exclusive)];
      h := Create(h, p);
      number := number + 1;
      assert View() == Online(s0, p, clone);
    }

    method CssOffline(id: nat, busy: bool, trialOk: bool, heapOk: bool)
      requires Inv(View()) && CanGoOffline(View(), id)
      modifies this
      ensures View() == Offline(old(View()), id, busy, trialOk, heapOk)
      ensures h == old(h) && number == old(number) - 1
      ensures var was := old(cs)[id];
              var flags := if trialOk && heapOk then was.flags - {SchedLoadBalance} else was.flags;
              cs == old(cs)[id := Cpuset(false, flags, was.cpus, was.mems)]
      ensures Inv(View())
    {
      OfflineKeepsInv(View(), id, busy, trialOk, heapOk);
      OfflineMeans(View(), id, busy, trialOk, heapOk);
      hide Inv, Verdict, CanGoOffline;
      if SchedLoadBalance in cs[id].flags && trialOk {
        var _ := Install(id, WithFlag(cs[id], SchedLoadBalance, false), busy, heapOk);
      }
      number := number - 1;
      cs := cs[id := cs[id].(online := false)];
    }
  
    /** cpuset_hotplug_update_tasks on every online descendant, in pre-order. */
    method TrimDescendants(top: Cpuset)
      requires Hierarchy.Valid(h) && cs.Keys == h.kids.Keys
      modifies `cs
      ensures cs == TrimmedAll(old(cs), top) && cs.Keys == old(cs.Keys)
      ensures forall n :: n in cs ==>
                var was := old(cs)[n];
                cs[n] == if n != TOP && was.online
                         then Cpuset(true, was.flags, was.cpus * top.cpus, was.mems * top.mems) else was
    {
      hide PreWalk, IsDescendant;
      ghost var visited: seq<nat> := [];
      var pos := PreStart(h, TOP);
      while pos.Some?
        invariant cs.Keys == old(cs.Keys) && PreWalk(h, TOP, visited, pos)
        invariant forall n :: n in cs ==> cs[n] == if n in visited then TrimmedOne(n, old(cs)[n], top) else old(cs)[n]
        decreases |Pre(h, TOP)| - |visited|, pos.Some?
      {
        var x := pos.value;
        PreWalkAt(h, TOP, visited, x);
        cs := cs[x := TrimmedOne(x, cs[x], top)];
        pos := PreNext(h, TOP, visited, x);
        visited := visited + [x];
      }
      forall n | n in cs ensures n in visited { TopIsAncestor(h, n); PreWalkDone(h, TOP, visited, n); }
    }

    /** cpuset_hotplug_workfn: bring the top cpuset up to date, then its descendants. */
    method HotplugWork(newCpus: Mask, newMems: Mask)
      requires Inv(View())
      modifies this
      ensures View() == Hotplug(old(View()), newCpus, newMems)
      ensures h == old(h) && number == old(number) && cs.Keys == old(cs.Keys)
      ensures cs[TOP] == Cpuset(true, old(cs)[TOP].flags, newCpus, newMems)
      ensures forall n :: n in cs && n != TOP ==>
                var was := old(cs)[n];
                cs[n] == if was.online then Cpuset(true, was.flags, was.cpus * newCpus, was.mems * newMems) else was
      ensures Inv(View())
    {
      HotplugKeepsInv(View(), newCpus, newMems);
      forall n | n in cs && cs[n].online ensures cs[n].cpus <= cs[TOP].cpus && cs[n].mems <= cs[TOP].mems {
        TopIsAncestor(h, n);
        AncestorsOnline(View(), n, TOP);
      }
      hide SubsetRule, SiblingRule, IsSubset;
      if cs[TOP].cpus == newCpus && cs[TOP].mems == newMems { return; }
      cs := cs[TOP := cs[TOP].(cpus := newCpus, mems := newMems)];
      TrimDescendants(cs[TOP]);
    }

    /** The walk that gathers the load-balanced cpusets without looking below one that is balanced or has no CPU. */
    method CollectBalanced() returns (csa: seq<nat>)
      requires Inv(View())
      ensures IsCollection(View(), csa) && |csa| < number
    {
      hide PreWalk, IsDescendant, SubsetRule, SiblingRule, Collected, Walked;
      csa := [];
      ghost var visited: seq<nat> := [];
      var pos := PreStart(h, TOP);
      WalkedNone(View());
      while pos.Some?
        invariant PreWalk(h, TOP, visited, pos) && Walked(View(), visited, csa)
        decreases |Pre(h, TOP)| - |visited|, pos.Some?
      {
        var x := pos.value;
        PreWalkAt(h, TOP, visited, x);
        if x == TOP || !cs[x].online || (cs[x].cpus != {} && SchedLoadBalance !in cs[x].flags) {
          pos := PreNext(h, TOP, visited, x);
          WalkedOn(View(), visited, csa, x);
          visited := visited + [x];
        } else {
          WalkedPast(View(), visited, csa, x);
          if SchedLoadBalance in cs[x].flags {
            csa := csa + [x];
          }
          pos := PreSkip(h, TOP, visited, x);
          visited := visited + Pre(h, x);
        }
      }
      WalkedAll(View(), visited, csa);
      FitsCsa(View(), csa);
    }

    /** generate_sched_domains; `None` stands for the NULL that an allocation failure leaves. */
    method GenerateSchedDomains(allocOk: bool)
        returns (doms: Option<seq<Mask>>, ndoms: nat, ghost csa: seq<nat>, ghost slot: seq<nat>)
      requires Inv(View())
      ensures (doms.None? <==> !allocOk) && (doms.None? ==> ndoms == 1)
      ensures doms.Some? ==> |doms.value| == ndoms && PairwiseDisjoint(doms.value)
      ensures doms.Some? ==> forall s :: 0 <= s < ndoms ==> doms.value[s] <= cs[TOP].cpus
      ensures doms.Some? ==>
                forall n :: n in cs && cs[n].online && SchedLoadBalance in cs[n].flags && cs[n].cpus != {} ==>
                  InExactlyOne(cs[n].cpus, doms.value)
      ensures doms.Some? && SchedLoadBalance !in cs[TOP].flags ==>
                Generated(View(), csa, doms.value, slot)
      ensures doms.Some? && SchedLoadBalance in cs[TOP].flags ==> doms.value == [cs[TOP].cpus]
    {
      csa, slot := [], [];
      if !allocOk { return None, 1, csa, slot; }
      if SchedLoadBalance in cs[TOP].flags {
        doms, ndoms := Some([cs[TOP].cpus]), 1;
        forall n | Serving(View(), n) ensures InExactlyOne(cs[n].cpus, doms.value) {
          TopIsAncestor(h, n);
          AncestorsOnline(View(), n, TOP);
          assert cs[n].cpus <= doms.value[0];
        }
        return;
      }
      var found := CollectBalanced();
      csa := found;
      var m := Masks(cs, found);
      var d;
      d, slot := Partition(m);
      doms, ndoms := Some(d), |d|;
      DomainsDisjoint(m, d, slot);
      DomainsServe(View(), csa, d, slot);
    }
  }

  /** A load-balanced online cpuset other than the top one. */
  ghost predicate Balanced(s: Sys, n: nat) {
    n in s.cs && n != TOP && s.cs[n].online && SchedLoadBalance in s.cs[n].flags
  }

  /** A cpuset below which the walk does not look. */
  ghost predicate Blocks(s: Sys, a: nat) {
    a in s.cs && a != TOP && s.cs[a].online && (SchedLoadBalance in s.cs[a].flags || s.cs[a].cpus == {})
  }

  /** A load-balanced cpuset all of whose proper ancestors but the top one have CPUs and are not load-balanced. */
  ghost predicate Collected(s: Sys, n: nat)
    requires Inv(s)
  {
    Balanced(s, n) && forall a :: IsDescendant(s.h, n, a) && a != n ==> !Blocks(s, a)
  }

  /** `csa` lists exactly those, each once. */
  ghost predicate IsCollection(s: Sys, csa: seq<nat>)
    requires Inv(s)
  {
    Distinct(csa) && Gathered(s, csa) && forall n :: n in csa <==> Collected(s, n)
  }

  ghost predicate Gathered(s: Sys, csa: seq<nat>) {
    forall i :: 0 <= i < |csa| ==> csa[i] in s.cs && Balanced(s, csa[i])
  }

  /** The domains are those of the collected cpusets. */
  ghost predicate Generated(s: Sys, csa: seq<nat>, doms: seq<Mask>, slot: seq<nat>)
    requires Inv(s)
  {
    IsCollection(s, csa) && AreComponents(Masks(s.cs, csa), doms, slot)
  }

  /** A load-balanced online cpuset that has CPUs. */
  ghost predicate Serving(s: Sys, n: nat) {
    n in s.cs && s.cs[n].online && SchedLoadBalance in s.cs[n].flags && s.cs[n].cpus != {}
  }

  ghost predicate InExactlyOne(mask: Mask, doms: seq<Mask>) {
    exists s :: 0 <= s < |doms| && mask <= doms[s] && forall t :: 0 <= t < |doms| && mask <= doms[t] ==> t == s
  }

  function Masks(cs: map<nat, Cpuset>, csa: seq<nat>): (m: seq<Mask>)
    requires forall i :: 0 <= i < |csa| ==> csa[i] in cs
    ensures |m| == |csa| && forall i :: 0 <= i < |m| ==> m[i] == cs[csa[i]].cpus
  {
    if csa == [] then [] else [cs[csa[0]].cpus] + Masks(cs, csa[1..])
  }

  /** The walk has visited `visited`: what of it is collected is in `csa`, and no node below a blocking one is left. */
  ghost predicate Walked(s: Sys, visited: seq<nat>, csa: seq<nat>)
    requires Inv(s)
  {
    && Distinct(csa) && (forall n :: n in csa <==> n in visited && Collected(s, n))
    && (forall n :: n in visited && n in s.h.parent ==> s.h.parent[n] in visited)
    && (forall a, d :: a in visited && Blocks(s, a) && IsDescendant(s.h, d, a) ==> d in visited)
  }

  lemma WalkedNone(s: Sys)
    requires Inv(s)
    ensures Walked(s, [], [])
  {
  }

  lemma WalkedOn(s: Sys, visited: seq<nat>, csa: seq<nat>, x: nat)
    requires Inv(s) && Walked(s, visited, csa) && x in s.cs && (x in s.h.parent ==> s.h.parent[x] in visited)
    requires !Blocks(s, x)
    ensures Walked(s, visited + [x], csa)
  {
    hide WellFormed, SubsetRule, SiblingRule, IsDescendant;
  }

  lemma {:induction false} AncestorVisited(s: Sys, visited: seq<nat>, csa: seq<nat>, x: nat, a: nat)
    requires Inv(s) && Walked(s, visited, csa) && IsDescendant(s.h, x, a) && x in visited
    ensures a in visited
    decreases x
  {
    if x != a {
      assert IsDescendant(s.h, s.h.parent[x], a);
      AncestorVisited(s, visited, csa, s.h.parent[x], a);
    }
  }

  /** A node that the walk reaches has no blocking ancestor. */
  lemma ReachedFreely(s: Sys, visited: seq<nat>, csa: seq<nat>, x: nat, a: nat)
    requires Inv(s) && Walked(s, visited, csa) && x !in visited && (x in s.h.parent ==> s.h.parent[x] in visited)
    requires IsDescendant(s.h, x, a) && a != x
    ensures !Blocks(s, a)
  {
    assert IsDescendant(s.h, s.h.parent[x], a);
    AncestorVisited(s, visited, csa, s.h.parent[x], a);
  }

  lemma WalkedPast(s: Sys, visited: seq<nat>, csa: seq<nat>, x: nat)
    requires Inv(s) && Walked(s, visited, csa) && x !in visited && (x in s.h.parent ==> s.h.parent[x] in visited)
    requires Blocks(s, x)
    ensures Walked(s, visited + Pre(s.h, x), if SchedLoadBalance in s.cs[x].flags then csa + [x] else csa)
  {
    PastParents(s, visited, csa, x);
    PastBlocked(s, visited, csa, x);
    PastCollected(s, visited, csa, x);
  }

  lemma PastCollected(s: Sys, visited: seq<nat>, csa: seq<nat>, x: nat)
    requires Inv(s) && Walked(s, visited, csa) && x !in visited && (x in s.h.parent ==> s.h.parent[x] in visited)
    requires Blocks(s, x)
    ensures var csa' := if SchedLoadBalance in s.cs[x].flags then csa + [x] else csa;
            Distinct(csa') && forall n :: n in csa' <==> n in visited + Pre(s.h, x) && Collected(s, n)
  {
    hide Pre, SubsetRule, SiblingRule;
    forall a | IsDescendant(s.h, x, a) && a != x ensures !Blocks(s, a) { ReachedFreely(s, visited, csa, x, a); }
    assert Collected(s, x) <==> SchedLoadBalance in s.cs[x].flags;
    PreContents(s.h, x, x);
    forall n | n in Pre(s.h, x) && n != x ensures !Collected(s, n) {
      PreContents(s.h, x, n);
    }
  }

  lemma PastBlocked(s: Sys, visited: seq<nat>, csa: seq<nat>, x: nat)
    requires Inv(s) && Walked(s, visited, csa) && x in s.h.kids
    ensures var seen := visited + Pre(s.h, x); forall a, d :: a in seen && Blocks(s, a) && IsDescendant(s.h, d, a) ==> d in seen
  {
    hide Pre, SubsetRule, SiblingRule, Collected;
    forall a, d | a in Pre(s.h, x) && IsDescendant(s.h, d, a) ensures d in Pre(s.h, x) {
      PreContents(s.h, x, a);
      DescendantTransitive(s.h, d, a, x);
      PreContents(s.h, x, d);
    }
  }

  lemma PastParents(s: Sys, visited: seq<nat>, csa: seq<nat>, x: nat)
    requires Inv(s) && Walked(s, visited, csa) && x in s.h.kids && (x in s.h.parent ==> s.h.parent[x] in visited)
    ensures var seen := visited + Pre(s.h, x); forall n :: n in seen && n in s.h.parent ==> s.h.parent[n] in seen
  {
    hide Pre, SubsetRule, SiblingRule, Collected;
    forall n ensures n in Pre(s.h, x) <==> IsDescendant(s.h, n, x) { PreContents(s.h, x, n); }
  }

  lemma WalkedAll(s: Sys, visited: seq<nat>, csa: seq<nat>)
    requires Inv(s) && Walked(s, visited, csa) && PreWalk(s.h, TOP, visited, None)
    ensures IsCollection(s, csa)
  {
    hide SubsetRule, SiblingRule, PreWalk;
    forall n | Collected(s, n) ensures n in visited {
      TopIsAncestor(s.h, n);
      PreWalkDone(s.h, TOP, visited, n);
    }
    forall i | 0 <= i < |csa| ensures csa[i] in s.cs && Balanced(s, csa[i]) {
      assert csa[i] in csa;
    }
  }

  /** Every load-balanced cpuset with CPUs lies below, or is, a collected one: the topmost that is load-balanced. */
  lemma {:induction false} UnderCollected(s: Sys, n: nat) returns (a: nat)
    requires Inv(s) && Balanced(s, n) && s.cs[n].cpus != {}
    ensures Collected(s, a) && IsDescendant(s.h, n, a)
    decreases n
  {
    if Collected(s, n) {
      assert IsDescendant(s.h, n, n);
      a := n;
    } else {
      var b :| IsDescendant(s.h, n, b) && b != n && Blocks(s, b);
      AncestorsOnline(s, n, b);
      DescendantNotSmaller(s.h, n, b);
      a := UnderCollected(s, b);
      DescendantTransitive(s.h, n, b, a);
    }
  }

  /** csa[] is allocated for number_of_cpusets entries, which is enough. */
  lemma FitsCsa(s: Sys, csa: seq<nat>)
    requires Inv(s) && IsCollection(s, csa)
    ensures |csa| < s.number
  {
    hide Collected, SubsetRule, SiblingRule;
    var all := csa + [TOP];
    ConcatDistinct(csa, [TOP]);
    SizeOfDistinct(all);
    SubsetSize((set x | x in all), OnlineSet(s));
  }

  /** Every load-balanced cpuset with CPUs, collected or skipped below a collected one,
      is inside exactly one domain. */
  lemma DomainsServe(s: Sys, csa: seq<nat>, doms: seq<Mask>, slot: seq<nat>)
    requires Inv(s) && SchedLoadBalance !in s.cs[TOP].flags
    requires Generated(s, csa, doms, slot)
    ensures forall k :: 0 <= k < |doms| ==> doms[k] <= s.cs[TOP].cpus
    ensures forall n :: Serving(s, n) ==> InExactlyOne(s.cs[n].cpus, doms)
  {
    var m := Masks(s.cs, csa);
    forall k, c | 0 <= k < |doms| && c in doms[k] ensures c in s.cs[TOP].cpus {
      assert InSlot(m, slot, k, c);
      var i :| 0 <= i < |m| && slot[i] == k && c in m[i];
      TopIsAncestor(s.h, csa[i]);
      AncestorsOnline(s, csa[i], TOP);
    }
    forall n | Serving(s, n) ensures InExactlyOne(s.cs[n].cpus, doms) {
      assert Balanced(s, n);
      var a := UnderCollected(s, n);
      assert a in csa;
      var i :| 0 <= i < |csa| && csa[i] == a;
      AncestorsOnline(s, n, csa[i]);
      DomainContains(m, doms, slot, i);
      DomainsDisjoint(m, doms, slot);
      OnlyOneHolds(s.cs[n].cpus, doms, slot[i]);
    }
  }

  /**
   * A load-balanced cpuset is inside a domain exactly if it has CPUs or the walk collects some cpuset at all.
   * One without CPUs that lies below an empty cpuset that is not load-balanced is skipped without being covered.
   */
  lemma InSomeDomain(s: Sys, csa: seq<nat>, doms: seq<Mask>, slot: seq<nat>, n: nat)
    requires Inv(s) && SchedLoadBalance !in s.cs[TOP].flags && Balanced(s, n)
    requires Generated(s, csa, doms, slot)
    ensures (exists k :: 0 <= k < |doms| && s.cs[n].cpus <= doms[k]) <==> (s.cs[n].cpus != {} || exists a :: Collected(s, a))
  {
    DomainsServe(s, csa, doms, slot);
    DomainsIfCollected(s, csa, doms, slot);
    if s.cs[n].cpus != {} {
      assert Serving(s, n);
    } else if doms != [] {
      assert s.cs[n].cpus <= doms[0];
    }
  }

  lemma DomainsIfCollected(s: Sys, csa: seq<nat>, doms: seq<Mask>, slot: seq<nat>)
    requires Inv(s) && Generated(s, csa, doms, slot)
    ensures doms != [] <==> exists a :: Collected(s, a)
  {
    if doms != [] {
      assert 0 in slot;
      assert csa[0] in csa;
    }
    if a :| Collected(s, a) {
      assert a in csa;
      assert slot[0] < |doms|;
    }
  }

  lemma OnlyOneHolds(mask: Mask, doms: seq<Mask>, k: nat)
    requires PairwiseDisjoint(doms) && mask != {} && k < |doms| && mask <= doms[k]
    ensures InExactlyOne(mask, doms)
  {
    var c :| c in mask;
    forall t | 0 <= t < |doms| && mask <= doms[t] ensures t == k {
      assert c in doms[t] * doms[k] && c in doms[k] * doms[t];
    }
  }

  // ---------------------------------------------------------------- a skipped cpuset

  /** Load balancing is switched off for the top cpuset and for a new one, below which another is made. */
  function SwitchOff(id: nat): Op { OpFlag(id, SchedLoadBalance, false, false, true, true) }

  function Skipping(): seq<Op> { [SwitchOff(TOP), OpOnline(TOP, false), SwitchOff(1), OpOnline(1, false)] }

  function Quiet(cpus: Mask, mems: Mask): Cpuset { Cpuset(true, {CpuExclusive, MemExclusive}, cpus, mems) }

  const BARE := Cpuset(true, {}, {}, {})
  const NEWBORN := Cpuset(true, {SchedLoadBalance}, {}, {})

  /** The states this leads through. */
  function Stage(k: nat, cpus: Mask, mems: Mask): Sys {
    if k == 0 then Boot(cpus, mems)
    else if k == 1 then Sys(Hier(1, map[], map[TOP := []]), map[TOP := Quiet(cpus, mems)], 1)
    else if k == 2 then Sys(Hier(2, map[1 := TOP], map[TOP := [1], 1 := []]), map[TOP := Quiet(cpus, mems), 1 := NEWBORN], 2)
    else if k == 3 then Sys(Hier(2, map[1 := TOP], map[TOP := [1], 1 := []]), map[TOP := Quiet(cpus, mems), 1 := BARE], 2)
    else Skipped(cpus, mems)
  }

  function Skipped(cpus: Mask, mems: Mask): Sys {
    Sys(Hier(3, map[1 := TOP, 2 := 1], map[TOP := [1], 1 := [2], 2 := []]),
        map[TOP := Quiet(cpus, mems), 1 := BARE, 2 := NEWBORN], 3)
  }

  /** Switching load balancing passes every check, whatever the tree. */
  lemma BalanceSwitches(s: Sys, id: nat, on: bool)
    requires Inv(s) && id in s.cs && s.cs[id].online
    ensures Apply(s, OpFlag(id, SchedLoadBalance, on, false, true, true))
            == s.(cs := s.cs[id := WithFlag(s.cs[id], SchedLoadBalance, on)])
  {
    BalanceAccepted(s, id, on, false);
  }

  lemma BalanceAccepted(s: Sys, id: nat, on: bool, busy: bool)
    requires Inv(s) && id in s.cs && s.cs[id].online
    ensures Verdict(s, id, WithFlag(s.cs[id], SchedLoadBalance, on), busy) == Ok
  {
    var trial := WithFlag(s.cs[id], SchedLoadBalance, on);
    forall c ensures !ChildOutgrows(s, id, trial, c) { }
    if id != TOP {
      forall c ensures !SiblingClashes(s, id, trial, c) { }
    }
  }

  lemma RunPlus(ops: seq<Op>, op: Op, cpus: Mask, mems: Mask)
    requires Enabled(Run(ops, cpus, mems), op)
    ensures Run(ops + [op], cpus, mems) == Apply(Run(ops, cpus, mems), op)
  {
    hide Inv, Enabled, Apply;
    assert (ops + [op])[..|ops|] == ops;
  }

  lemma StageOff(k: nat, cpus: Mask, mems: Mask)
    requires k in {0, 2} && Inv(Stage(k, cpus, mems))
    ensures Enabled(Stage(k, cpus, mems), Skipping()[k])
    ensures Apply(Stage(k, cpus, mems), Skipping()[k]) == Stage(k + 1, cpus, mems)
  {
    var s, id := Stage(k, cpus, mems), if k == 0 then TOP else 1;
    BalanceSwitches(s, id, false);
    hide Inv, Apply;
    assert {CpuExclusive, MemExclusive, SchedLoadBalance} - {SchedLoadBalance} == {CpuExclusive, MemExclusive};
    assert {SchedLoadBalance} - {SchedLoadBalance} == {};
    assert s.cs[id := WithFlag(s.cs[id], SchedLoadBalance, false)] == Stage(k + 1, cpus, mems).cs;
  }

  lemma StageOn(k: nat, cpus: Mask, mems: Mask)
    requires k in {1, 3} && Inv(Stage(k, cpus, mems))
    ensures Enabled(Stage(k, cpus, mems), Skipping()[k])
    ensures Apply(Stage(k, cpus, mems), Skipping()[k]) == Stage(k + 1, cpus, mems)
  {
    hide Inv, Apply, Create, Offspring, Hotplug;
    OnlineIs(Stage(k, cpus, mems), if k == 1 then TOP else 1);
    StageGrows(k, cpus, mems);
  }

  lemma OnlineIs(s: Sys, p: nat)
    requires Inv(s) && p in s.cs && s.cs[p].online
    ensures Apply(s, OpOnline(p, false)) == Sys(Create(s.h, p), s.cs[s.h.next := Offspring(s.cs[p], false)], s.number + 1)
  {
    hide SubsetRule, SiblingRule, HasExclusive, Offspring, Create;
  }

  lemma StageGrows(k: nat, cpus: Mask, mems: Mask)
    requires k in {1, 3}
    ensures var s, p := Stage(k, cpus, mems), if k == 1 then TOP else 1;
            && p in s.h.kids && p in s.cs && s.cs[p].online
            && Stage(k + 1, cpus, mems) == Sys(Create(s.h, p), s.cs[s.h.next := Offspring(s.cs[p], false)], s.number + 1)
  {
    var s, t, p := Stage(k, cpus, mems), Stage(k + 1, cpus, mems), if k == 1 then TOP else 1;
    assert s.cs[p].flags * {SpreadPage, SpreadSlab} == {};
    assert Offspring(s.cs[p], false) == NEWBORN;
    assert s.cs[s.h.next := NEWBORN] == t.cs;
    assert s.h.kids[p] + [s.h.next] == [s.h.next];
    assert Create(s.h, p).kids == t.h.kids && Create(s.h, p).parent == t.h.parent;
  }

  lemma {:induction false} SkippingRun(k: nat, cpus: Mask, mems: Mask)
    requires k <= 4
    ensures Run(Skipping()[..k], cpus, mems) == Stage(k, cpus, mems)
  {
    hide Inv, Apply, Enabled, Stage;
    if k == 0 {
      StageZero(cpus, mems);
    } else {
      SkippingRun(k - 1, cpus, mems);
      if k == 1 || k == 3 { StageOff(k - 1, cpus, mems); } else { StageOn(k - 1, cpus, mems); }
      RunPlus(Skipping()[..k - 1], Skipping()[k - 1], cpus, mems);
      assert Skipping()[..k - 1] + [Skipping()[k - 1]] == Skipping()[..k];
    }
  }

  lemma StageZero(cpus: Mask, mems: Mask)
    ensures Run(Skipping()[..0], cpus, mems) == Stage(0, cpus, mems)
  {
  }

  /** A reachable tree in which a load-balanced cpuset is in no domain, because there is none. */
  lemma SkippedIsUncovered(cpus: Mask, mems: Mask)
    ensures Run(Skipping(), cpus, mems) == Skipped(cpus, mems) && Inv(Skipped(cpus, mems))
    ensures Balanced(Skipped(cpus, mems), 2) && !exists a :: Collected(Skipped(cpus, mems), a)
  {
    hide Inv, Run, Collected;
    SkippingRun(4, cpus, mems);
    assert Skipping()[..4] == Skipping();
    var s := Skipped(cpus, mems);
    forall a ensures !Collected(s, a) {
      if a == 2 { BelowBlocked(s, 2); } else { OnlyBalanced(s, a); }
    }
  }

  lemma BelowBlocked(s: Sys, n: nat)
    requires Inv(s) && n in s.h.parent && Blocks(s, s.h.parent[n])
    ensures !Collected(s, n)
  {
    assert IsDescendant(s.h, n, s.h.parent[n]);
  }

  lemma OnlyBalanced(s: Sys, n: nat)
    requires Inv(s) && !Balanced(s, n)
    ensures !Collected(s, n)
  {
  }
}
