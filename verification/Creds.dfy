/**
 * Task credentials: who owns which reference, over runs of prepare, commit, abort,
 * override, revert, fork and exit.
 */
module Creds {
  import opened Options
  import opened SetFacts

  datatype Cred = Cred(usage: int, subs: int, user: nat, keyring: bool)

  /** The subjective and objective credentials; `charged` until release_task has uncounted the task. */
  datatype Task = Task(cred: nat, realCred: nat, charged: bool)

  /** `held` are the references owned by callers; `processes` the process count of each user. */
  datatype State = State(creds: map<nat, Cred>, tasks: map<nat, Task>, processes: map<nat, int>, held: multiset<nat>)

  // ---------------------------------------------------------------- counting

  ghost function Keys(m: map<nat, nat>, v: nat): set<nat> { set k | k in m && m[k] == v }

  ghost function Count(m: map<nat, nat>, v: nat): nat { |Keys(m, v)| }

  lemma CountPut(m: map<nat, nat>, k: nat, x: nat, v: nat)
    ensures Count(m[k := x], v) == Count(m, v) - (if k in m && m[k] == v then 1 else 0) + if x == v then 1 else 0
  {
    var a := Keys(m, v) - {k};
    SizeWithout(Keys(m, v), k);
    assert Keys(m[k := x], v) == if x == v then a + {k} else a;
  }

  lemma CountDrop(m: map<nat, nat>, k: nat, v: nat)
    ensures Count(m - {k}, v) == Count(m, v) - if k in m && m[k] == v then 1 else 0
  {
    SizeWithout(Keys(m, v), k);
    assert Keys(m - {k}, v) == Keys(m, v) - {k};
  }

  lemma CountZero(m: map<nat, nat>, v: nat)
    ensures Count(m, v) == 0 <==> forall k :: k in m ==> m[k] != v
  {
    if forall k :: k in m ==> m[k] != v { assert Keys(m, v) == {}; }
    assert forall k :: k in m && m[k] == v ==> k in Keys(m, v);
  }

  function Subj(tasks: map<nat, Task>): map<nat, nat> { map t | t in tasks :: tasks[t].cred }

  function Obj(tasks: map<nat, Task>): map<nat, nat> { map t | t in tasks :: tasks[t].realCred }

  /** The user each counted task is charged to. */
  function Charge(creds: map<nat, Cred>, tasks: map<nat, Task>): map<nat, nat> {
    map t | t in tasks && tasks[t].charged && tasks[t].realCred in creds :: creds[tasks[t].realCred].user
  }

  // ---------------------------------------------------------------- the invariant

  /** `usage` counts the task pointers and the callers' references, `subs` the task pointers. */
  ghost predicate CredOk(c: Cred, subj: nat, obj: nat, held: nat) {
    c.usage == subj + obj + held && c.subs == subj + obj && c.usage > 0
  }

  ghost predicate RefsOk(creds: map<nat, Cred>, subj: map<nat, nat>, obj: map<nat, nat>, held: multiset<nat>) {
    && (forall c {:trigger CredOk(creds[c], Count(subj, c), Count(obj, c), held[c])} ::
          c in creds ==> CredOk(creds[c], Count(subj, c), Count(obj, c), held[c]))
    && (forall c :: c in held ==> c in creds)
    && (forall t :: t in subj ==> subj[t] in creds) && (forall t :: t in obj ==> obj[t] in creds)
  }

  ghost predicate UsersOk(creds: map<nat, Cred>, processes: map<nat, int>, charge: map<nat, nat>) {
    && (forall c :: c in creds ==> creds[c].user in processes)
    && (forall u :: u in processes ==> processes[u] == Count(charge, u))
  }

  ghost predicate Inv(s: State) {
    RefsOk(s.creds, Subj(s.tasks), Obj(s.tasks), s.held) && UsersOk(s.creds, s.processes, Charge(s.creds, s.tasks))
  }

  // ---------------------------------------------------------------- primitive moves of references

  function Usage(creds: map<nat, Cred>, c: nat, n: int): map<nat, Cred> {
    if c in creds then creds[c := creds[c].(usage := creds[c].usage + n)] else creds
  }

  function Subs(creds: map<nat, Cred>, c: nat, n: int): map<nat, Cred> {
    if c in creds then creds[c := creds[c].(subs := creds[c].subs + n)] else creds
  }

  function UserOf(creds: map<nat, Cred>, c: nat): nat {
    if c in creds then creds[c].user else 0
  }

  function Bump(processes: map<nat, int>, user: nat, n: int): map<nat, int> {
    if user in processes then processes[user := processes[user] + n] else processes
  }

  /** get_cred. */
  function Get(s: State, c: nat): State {
    s.(creds := Usage(s.creds, c, 1), held := s.held + multiset{c})
  }

  /** What put_cred leaves: credentials are freed with the last reference. */
  function Unref(creds: map<nat, Cred>, c: nat): map<nat, Cred> {
    if c in creds && creds[c].usage == 1 then creds - {c} else Usage(creds, c, -1)
  }

  /** put_cred. */
  function Put(s: State, c: nat): State {
    s.(creds := Unref(s.creds, c), held := s.held - multiset{c})
  }

  /** A caller's reference to `c` becomes the task's subjective pointer, whose reference goes to the caller. */
  function SetCred(s: State, t: nat, c: nat): State
    requires t in s.tasks
  {
    var prev := s.tasks[t].cred;
    s.(creds := Subs(Subs(s.creds, c, 1), prev, -1), tasks := s.tasks[t := s.tasks[t].(cred := c)],
       held := s.held - multiset{c} + multiset{prev})
  }

  function SetReal(s: State, t: nat, c: nat): State
    requires t in s.tasks
  {
    var prev := s.tasks[t].realCred;
    s.(creds := Subs(Subs(s.creds, c, 1), prev, -1), tasks := s.tasks[t := s.tasks[t].(realCred := c)],
       held := s.held - multiset{c} + multiset{prev},
       processes := Recharge(s.processes, UserOf(s.creds, prev), UserOf(s.creds, c)))
  }

  function Recharge(processes: map<nat, int>, from: nat, to: nat): map<nat, int> {
    Bump(Bump(processes, to, 1), from, -1)
  }

  /** New credentials, owned by the caller. */
  function New(s: State, c: nat, user: nat, keyring: bool): State {
    s.(creds := s.creds[c := Cred(1, 0, user, keyring)], held := s.held + multiset{c})
  }

  /** set_user on credentials being prepared. */
  function SetUser(s: State, c: nat, user: nat): State
    requires c in s.creds
  {
    s.(creds := s.creds[c := s.creds[c].(user := user)],
       processes := if user in s.processes then s.processes else s.processes[user := 0])
  }

  /** Two of the caller's references become the pointers of a new task. */
  function AddTask(s: State, t: nat, c: nat): State {
    s.(creds := Subs(s.creds, c, 2), tasks := s.tasks[t := Task(c, c, true)], held := s.held - multiset{c, c},
       processes := Bump(s.processes, UserOf(s.creds, c), 1))
  }

  /** release_task uncounts the task. */
  function Uncharge(s: State, t: nat): State
    requires t in s.tasks
  {
    s.(tasks := s.tasks[t := s.tasks[t].(charged := false)],
       processes := Bump(s.processes, UserOf(s.creds, s.tasks[t].realCred), -1))
  }

  /** The pointers of a task that goes away become references of the caller. */
  function RemoveTask(s: State, t: nat): State
    requires t in s.tasks
  {
    var r, c := s.tasks[t].realCred, s.tasks[t].cred;
    s.(creds := Subs(Subs(s.creds, r, -1), c, -1), tasks := s.tasks - {t}, held := s.held + multiset{r, c})
  }

  lemma EachCredOk(creds: map<nat, Cred>, subj: map<nat, nat>, obj: map<nat, nat>, held: multiset<nat>)
    requires RefsOk(creds, subj, obj, held)
    ensures forall v :: v in creds ==> CredOk(creds[v], Count(subj, v), Count(obj, v), held[v])
  {
  }

  lemma GetRefs(creds: map<nat, Cred>, subj: map<nat, nat>, obj: map<nat, nat>, held: multiset<nat>, c: nat)
    requires RefsOk(creds, subj, obj, held) && c in creds
    ensures RefsOk(Usage(creds, c, 1), subj, obj, held + multiset{c})
  {
    EachCredOk(creds, subj, obj, held);
  }

  lemma PutRefs(creds: map<nat, Cred>, subj: map<nat, nat>, obj: map<nat, nat>, held: multiset<nat>, c: nat)
    requires RefsOk(creds, subj, obj, held) && c in held
    ensures c in creds && RefsOk(Unref(creds, c), subj, obj, held - multiset{c})
  {
    EachCredOk(creds, subj, obj, held);
    assert CredOk(creds[c], Count(subj, c), Count(obj, c), held[c]);
    if creds[c].usage == 1 { FreeRefs(creds, subj, obj, held, c); }
  }

  lemma FreeRefs(creds: map<nat, Cred>, subj: map<nat, nat>, obj: map<nat, nat>, held: multiset<nat>, c: nat)
    requires RefsOk(creds, subj, obj, held) && c in held && c in creds && creds[c].usage == 1
    ensures RefsOk(creds - {c}, subj, obj, held - multiset{c})
  {
    EachCredOk(creds, subj, obj, held);
    assert CredOk(creds[c], Count(subj, c), Count(obj, c), held[c]);
    CountZero(subj, c);
    CountZero(obj, c);
    hide Count;
    forall v | v in creds && v != c ensures CredOk(creds[v], Count(subj, v), Count(obj, v), (held - multiset{c})[v]) {
    }
  }

  lemma SubjRefs(creds: map<nat, Cred>, subj: map<nat, nat>, obj: map<nat, nat>, held: multiset<nat>, t: nat, c: nat)
    requires RefsOk(creds, subj, obj, held) && t in subj && c in held
    ensures c in creds && subj[t] in creds
    ensures RefsOk(Subs(Subs(creds, c, 1), subj[t], -1), subj[t := c], obj, held - multiset{c} + multiset{subj[t]})
  {
    hide Count;
    var creds', held' := Subs(Subs(creds, c, 1), subj[t], -1), held - multiset{c} + multiset{subj[t]};
    forall v | v in creds' ensures CredOk(creds'[v], Count(subj[t := c], v), Count(obj, v), held'[v]) {
      assert CredOk(creds[v], Count(subj, v), Count(obj, v), held[v]);
      CountPut(subj, t, c, v);
    }
  }

  lemma ObjRefs(creds: map<nat, Cred>, subj: map<nat, nat>, obj: map<nat, nat>, held: multiset<nat>, t: nat, c: nat)
    requires RefsOk(creds, subj, obj, held) && t in obj && c in held
    ensures c in creds && obj[t] in creds
    ensures RefsOk(Subs(Subs(creds, c, 1), obj[t], -1), subj, obj[t := c], held - multiset{c} + multiset{obj[t]})
  {
    hide Count;
    var creds', held' := Subs(Subs(creds, c, 1), obj[t], -1), held - multiset{c} + multiset{obj[t]};
    forall v | v in creds' ensures CredOk(creds'[v], Count(subj, v), Count(obj[t := c], v), held'[v]) {
      assert CredOk(creds[v], Count(subj, v), Count(obj, v), held[v]);
      CountPut(obj, t, c, v);
    }
  }

  // Each move keeps the invariant.

  /** Credentials may gain or lose references and lose unpointed ones without moving any charge. */
  lemma SameCharge(creds: map<nat, Cred>, creds': map<nat, Cred>, tasks: map<nat, Task>, processes: map<nat, int>)
    requires UsersOk(creds, processes, Charge(creds, tasks))
    requires forall c :: c in creds' ==> c in creds && creds'[c].user == creds[c].user
    requires forall t :: t in tasks ==> tasks[t].realCred in creds'
    ensures Charge(creds', tasks) == Charge(creds, tasks) && UsersOk(creds', processes, Charge(creds', tasks))
  {
  }

  lemma ObjLive(creds: map<nat, Cred>, tasks: map<nat, Task>, held: multiset<nat>)
    requires RefsOk(creds, Subj(tasks), Obj(tasks), held)
    ensures forall t :: t in tasks ==> tasks[t].realCred in creds && tasks[t].cred in creds
    ensures forall c :: c in held ==> c in creds
  {
    forall t | t in tasks ensures tasks[t].realCred in creds && tasks[t].cred in creds {
      assert Obj(tasks)[t] in creds && Subj(tasks)[t] in creds;
    }
  }

  lemma PointersLive(s: State)
    requires Inv(s)
    ensures forall t :: t in s.tasks ==> s.tasks[t].realCred in s.creds && s.tasks[t].cred in s.creds
    ensures forall c :: c in s.held ==> c in s.creds
    ensures forall c :: c in s.creds ==> s.creds[c].user in s.processes
  {
    ObjLive(s.creds, s.tasks, s.held);
    hide RefsOk;
  }

  lemma GetKeepsInv(s: State, c: nat)
    requires Inv(s) && c in s.creds
    ensures Inv(Get(s, c)) && c in Get(s, c).held
  {
    hide RefsOk, UsersOk, Charge, Subj, Obj;
    ObjLive(s.creds, s.tasks, s.held);
    GetRefs(s.creds, Subj(s.tasks), Obj(s.tasks), s.held, c);
    SameCharge(s.creds, Get(s, c).creds, s.tasks, s.processes);
  }

  lemma PutKeepsInv(s: State, c: nat)
    requires Inv(s) && c in s.held
    ensures c in s.creds && Inv(Put(s, c))
  {
    hide RefsOk, UsersOk, Charge, Subj, Obj;
    ObjLive(s.creds, s.tasks, s.held);
    PutRefs(s.creds, Subj(s.tasks), Obj(s.tasks), s.held, c);
    ObjLive(Put(s, c).creds, s.tasks, Put(s, c).held);
    SameCharge(s.creds, Put(s, c).creds, s.tasks, s.processes);
  }

  lemma SubjOnly(creds: map<nat, Cred>, tasks: map<nat, Task>, t: nat, c: nat)
    requires t in tasks
    ensures var tasks' := tasks[t := tasks[t].(cred := c)];
            Subj(tasks') == Subj(tasks)[t := c] && Obj(tasks') == Obj(tasks) && Charge(creds, tasks') == Charge(creds, tasks)
  {
  }

  lemma ObjOnly(creds: map<nat, Cred>, tasks: map<nat, Task>, t: nat, c: nat)
    requires t in tasks && c in creds && tasks[t].charged && tasks[t].realCred in creds
    ensures var tasks' := tasks[t := tasks[t].(realCred := c)];
            && Subj(tasks') == Subj(tasks) && Obj(tasks') == Obj(tasks)[t := c]
            && Charge(creds, tasks') == Charge(creds, tasks)[t := creds[c].user]
    ensures t in Charge(creds, tasks) && Charge(creds, tasks)[t] == creds[tasks[t].realCred].user
  {
  }

  lemma SetCredKeepsInv(s: State, t: nat, c: nat)
    requires Inv(s) && t in s.tasks && c in s.held
    ensures c in s.creds && s.tasks[t].cred in s.creds && Inv(SetCred(s, t, c))
  {
    hide RefsOk, UsersOk, Subj, Obj, Charge;
    ObjLive(s.creds, s.tasks, s.held);
    ProjSubj(s.tasks, t);
    SubjRefs(s.creds, Subj(s.tasks), Obj(s.tasks), s.held, t, c);
    var s' := SetCred(s, t, c);
    SubjOnly(s'.creds, s.tasks, t, c);
    SameCharge(s.creds, s'.creds, s.tasks, s.processes);
  }

  lemma ProjSubj(tasks: map<nat, Task>, t: nat)
    requires t in tasks
    ensures t in Subj(tasks) && Subj(tasks)[t] == tasks[t].cred && t in Obj(tasks) && Obj(tasks)[t] == tasks[t].realCred
  {
  }

  lemma UserKnown(creds: map<nat, Cred>, processes: map<nat, int>, charge: map<nat, nat>, c: nat)
    requires UsersOk(creds, processes, charge) && c in creds
    ensures creds[c].user in processes
  {
  }

  lemma RechargeOk(creds: map<nat, Cred>, processes: map<nat, int>, charge: map<nat, nat>, t: nat, u: nat)
    requires UsersOk(creds, processes, charge) && t in charge && charge[t] in processes && u in processes
    ensures UsersOk(creds, Recharge(processes, charge[t], u), charge[t := u])
  {
    forall v ensures Count(charge[t := u], v) == Count(charge, v) - (if charge[t] == v then 1 else 0) + if u == v then 1 else 0 {
      CountPut(charge, t, u, v);
    }
    hide Count;
  }

  lemma SetRealKeepsInv(s: State, t: nat, c: nat)
    requires Inv(s) && t in s.tasks && s.tasks[t].charged && c in s.held
    ensures c in s.creds && s.tasks[t].realCred in s.creds
    ensures s.creds[c].user in s.processes && s.creds[s.tasks[t].realCred].user in s.processes
    ensures Inv(SetReal(s, t, c))
  {
    hide RefsOk, UsersOk, Subj, Obj, Charge;
    ObjLive(s.creds, s.tasks, s.held);
    UserKnown(s.creds, s.processes, Charge(s.creds, s.tasks), c);
    UserKnown(s.creds, s.processes, Charge(s.creds, s.tasks), s.tasks[t].realCred);
    ProjSubj(s.tasks, t);
    ObjRefs(s.creds, Subj(s.tasks), Obj(s.tasks), s.held, t, c);
    var s' := SetReal(s, t, c);
    ObjOnly(s.creds, s.tasks, t, c);
    RechargeOk(s.creds, s.processes, Charge(s.creds, s.tasks), t, s.creds[c].user);
    ObjLive(s'.creds, s'.tasks, s'.held);
    SameCharge(s.creds, s'.creds, s'.tasks, s'.processes);
  }

  lemma NewRefs(creds: map<nat, Cred>, subj: map<nat, nat>, obj: map<nat, nat>, held: multiset<nat>, c: nat, x: Cred)
    requires RefsOk(creds, subj, obj, held) && c !in creds && x.usage == 1 && x.subs == 0
    ensures RefsOk(creds[c := x], subj, obj, held + multiset{c})
  {
    EachCredOk(creds, subj, obj, held);
    CountZero(subj, c);
    CountZero(obj, c);
  }

  lemma NewKeepsInv(s: State, c: nat, user: nat, keyring: bool)
    requires Inv(s) && c !in s.creds && user in s.processes
    ensures Inv(New(s, c, user, keyring)) && c in New(s, c, user, keyring).held
  {
    hide RefsOk, UsersOk, Subj, Obj, Charge;
    ObjLive(s.creds, s.tasks, s.held);
    NewUsers(s.creds, s.tasks, s.processes, c, Cred(1, 0, user, keyring));
    NewRefs(s.creds, Subj(s.tasks), Obj(s.tasks), s.held, c, Cred(1, 0, user, keyring));
  }

  lemma NewUsers(creds: map<nat, Cred>, tasks: map<nat, Task>, processes: map<nat, int>, c: nat, x: Cred)
    requires UsersOk(creds, processes, Charge(creds, tasks)) && c !in creds && x.user in processes
    requires forall t :: t in tasks ==> tasks[t].realCred in creds
    ensures UsersOk(creds[c := x], processes, Charge(creds[c := x], tasks))
  {
    assert Charge(creds[c := x], tasks) == Charge(creds, tasks);
  }

  /** Credentials with a single reference, and that the caller's, are pointed at by no task. */
  lemma SoleOwner(s: State, c: nat)
    requires Inv(s) && c in s.held
    ensures c in s.creds
    ensures s.creds[c].usage == 1 ==> forall t :: t in s.tasks ==> s.tasks[t].cred != c && s.tasks[t].realCred != c
  {
    assert CredOk(s.creds[c], Count(Subj(s.tasks), c), Count(Obj(s.tasks), c), s.held[c]);
    CountZero(Subj(s.tasks), c);
    CountZero(Obj(s.tasks), c);
    hide RefsOk, UsersOk;
    if s.creds[c].usage == 1 {
      forall t | t in s.tasks ensures s.tasks[t].cred != c && s.tasks[t].realCred != c {
        assert Subj(s.tasks)[t] != c && Obj(s.tasks)[t] != c;
      }
    }
  }

  lemma AlteredRefs(creds: map<nat, Cred>, subj: map<nat, nat>, obj: map<nat, nat>, held: multiset<nat>, c: nat, x: Cred)
    requires RefsOk(creds, subj, obj, held) && c in creds && x.usage == creds[c].usage && x.subs == creds[c].subs
    ensures RefsOk(creds[c := x], subj, obj, held)
  {
    EachCredOk(creds, subj, obj, held);
  }

  lemma NewUser(creds: map<nat, Cred>, processes: map<nat, int>, tasks: map<nat, Task>, user: nat)
    requires UsersOk(creds, processes, Charge(creds, tasks)) && user !in processes
    ensures UsersOk(creds, processes[user := 0], Charge(creds, tasks))
  {
  }

  lemma SetUserKeepsInv(s: State, c: nat, user: nat)
    requires Inv(s) && c in s.held && c in s.creds && s.creds[c].usage == 1
    ensures Inv(SetUser(s, c, user))
  {
    SoleOwner(s, c);
    hide RefsOk, UsersOk, Subj, Obj, Charge;
    AlteredRefs(s.creds, Subj(s.tasks), Obj(s.tasks), s.held, c, s.creds[c].(user := user));
    if user !in s.processes { NewUser(s.creds, s.processes, s.tasks, user); }
    var processes: map<nat, int> := if user in s.processes then s.processes else s.processes[user := 0];
    SetUserUsers(s.creds, processes, s.tasks, c, user);
  }

  lemma SetUserUsers(creds: map<nat, Cred>, processes: map<nat, int>, tasks: map<nat, Task>, c: nat, user: nat)
    requires UsersOk(creds, processes, Charge(creds, tasks)) && c in creds && user in processes
    requires forall t :: t in tasks ==> tasks[t].realCred != c
    ensures var creds' := creds[c := creds[c].(user := user)]; UsersOk(creds', processes, Charge(creds', tasks))
  {
    assert Charge(creds[c := creds[c].(user := user)], tasks) == Charge(creds, tasks);
  }

  lemma AddTaskRefs(creds: map<nat, Cred>, subj: map<nat, nat>, obj: map<nat, nat>, held: multiset<nat>, t: nat, c: nat)
    requires RefsOk(creds, subj, obj, held) && t !in subj && t !in obj && held[c] >= 2
    ensures c in creds && RefsOk(Subs(creds, c, 2), subj[t := c], obj[t := c], held - multiset{c, c})
  {
    EachCredOk(creds, subj, obj, held);
    forall v ensures Count(subj[t := c], v) == Count(subj, v) + (if c == v then 1 else 0)
             ensures Count(obj[t := c], v) == Count(obj, v) + if c == v then 1 else 0
    {
      CountPut(subj, t, c, v);
      CountPut(obj, t, c, v);
    }
    hide Count;
  }

  lemma TaskAdded(creds: map<nat, Cred>, tasks: map<nat, Task>, t: nat, c: nat)
    requires t !in tasks && c in creds
    ensures var tasks' := tasks[t := Task(c, c, true)];
            && Subj(tasks') == Subj(tasks)[t := c] && Obj(tasks') == Obj(tasks)[t := c]
            && Charge(creds, tasks') == Charge(creds, tasks)[t := creds[c].user]
    ensures t !in Subj(tasks) && t !in Obj(tasks) && t !in Charge(creds, tasks)
  {
  }

  lemma ChargeOk(creds: map<nat, Cred>, processes: map<nat, int>, charge: map<nat, nat>, t: nat, u: nat)
    requires UsersOk(creds, processes, charge) && t !in charge && u in processes
    ensures UsersOk(creds, processes[u := processes[u] + 1], charge[t := u])
  {
    forall v ensures Count(charge[t := u], v) == Count(charge, v) + if u == v then 1 else 0 { CountPut(charge, t, u, v); }
    hide Count;
  }

  lemma SubsUsers(creds: map<nat, Cred>, c: nat, n: int)
    ensures forall x :: x in Subs(creds, c, n) <==> x in creds
    ensures forall x :: x in creds ==> Subs(creds, c, n)[x].user == creds[x].user
  {
  }

  lemma AddTaskKeepsInv(s: State, t: nat, c: nat)
    requires Inv(s) && t !in s.tasks && s.held[c] >= 2
    ensures c in s.creds && s.creds[c].user in s.processes && Inv(AddTask(s, t, c))
  {
    hide RefsOk, UsersOk, Subj, Obj, Charge, Subs;
    ObjLive(s.creds, s.tasks, s.held);
    UserKnown(s.creds, s.processes, Charge(s.creds, s.tasks), c);
    SubsUsers(s.creds, c, 2);
    TaskAdded(s.creds, s.tasks, t, c);
    AddTaskRefs(s.creds, Subj(s.tasks), Obj(s.tasks), s.held, t, c);
    ChargeOk(s.creds, s.processes, Charge(s.creds, s.tasks), t, s.creds[c].user);
    var s' := AddTask(s, t, c);
    ObjLive(s'.creds, s'.tasks, s'.held);
    SameCharge(s.creds, s'.creds, s'.tasks, s'.processes);
  }

  lemma UnchargeOk(creds: map<nat, Cred>, processes: map<nat, int>, charge: map<nat, nat>, t: nat)
    requires UsersOk(creds, processes, charge) && t in charge && charge[t] in processes
    ensures UsersOk(creds, processes[charge[t] := processes[charge[t]] - 1], charge - {t})
  {
    forall v ensures Count(charge - {t}, v) == Count(charge, v) - if charge[t] == v then 1 else 0 { CountDrop(charge, t, v); }
    hide Count;
  }

  lemma Uncharged(creds: map<nat, Cred>, tasks: map<nat, Task>, t: nat)
    requires t in tasks && tasks[t].charged && tasks[t].realCred in creds
    ensures var tasks' := tasks[t := tasks[t].(charged := false)];
            && Subj(tasks') == Subj(tasks) && Obj(tasks') == Obj(tasks) && Charge(creds, tasks') == Charge(creds, tasks) - {t}
    ensures t in Charge(creds, tasks) && Charge(creds, tasks)[t] == creds[tasks[t].realCred].user
  {
  }

  lemma UnchargeKeepsInv(s: State, t: nat)
    requires Inv(s) && t in s.tasks && s.tasks[t].charged
    ensures s.tasks[t].realCred in s.creds && s.creds[s.tasks[t].realCred].user in s.processes && Inv(Uncharge(s, t))
  {
    hide RefsOk, UsersOk, Subj, Obj, Charge;
    ObjLive(s.creds, s.tasks, s.held);
    UserKnown(s.creds, s.processes, Charge(s.creds, s.tasks), s.tasks[t].realCred);
    Uncharged(s.creds, s.tasks, t);
    UnchargeOk(s.creds, s.processes, Charge(s.creds, s.tasks), t);
  }

  lemma ObjDropRefs(creds: map<nat, Cred>, subj: map<nat, nat>, obj: map<nat, nat>, held: multiset<nat>, t: nat)
    requires RefsOk(creds, subj, obj, held) && t in obj
    ensures obj[t] in creds && RefsOk(Subs(creds, obj[t], -1), subj, obj - {t}, held + multiset{obj[t]})
  {
    EachCredOk(creds, subj, obj, held);
    forall v ensures Count(obj - {t}, v) == Count(obj, v) - if obj[t] == v then 1 else 0 { CountDrop(obj, t, v); }
    hide Count;
  }

  lemma SubjDropRefs(creds: map<nat, Cred>, subj: map<nat, nat>, obj: map<nat, nat>, held: multiset<nat>, t: nat)
    requires RefsOk(creds, subj, obj, held) && t in subj
    ensures subj[t] in creds && RefsOk(Subs(creds, subj[t], -1), subj - {t}, obj, held + multiset{subj[t]})
  {
    EachCredOk(creds, subj, obj, held);
    forall v ensures Count(subj - {t}, v) == Count(subj, v) - if subj[t] == v then 1 else 0 { CountDrop(subj, t, v); }
    hide Count;
  }

  lemma RemoveTaskRefs(creds: map<nat, Cred>, subj: map<nat, nat>, obj: map<nat, nat>, held: multiset<nat>, t: nat)
    requires RefsOk(creds, subj, obj, held) && t in subj && t in obj
    ensures subj[t] in creds && obj[t] in creds
    ensures RefsOk(Subs(Subs(creds, obj[t], -1), subj[t], -1), subj - {t}, obj - {t}, held + multiset{obj[t], subj[t]})
  {
    hide RefsOk;
    ObjDropRefs(creds, subj, obj, held, t);
    SubjDropRefs(Subs(creds, obj[t], -1), subj, obj - {t}, held + multiset{obj[t]}, t);
    assert held + multiset{obj[t]} + multiset{subj[t]} == held + multiset{obj[t], subj[t]};
  }

  lemma TaskRemoved(creds: map<nat, Cred>, tasks: map<nat, Task>, t: nat)
    requires t in tasks && !tasks[t].charged
    ensures Subj(tasks - {t}) == Subj(tasks) - {t} && Obj(tasks - {t}) == Obj(tasks) - {t}
    ensures Charge(creds, tasks - {t}) == Charge(creds, tasks)
  {
  }

  lemma RemoveTaskKeepsInv(s: State, t: nat)
    requires Inv(s) && t in s.tasks && !s.tasks[t].charged
    ensures s.tasks[t].realCred in s.creds && s.tasks[t].cred in s.creds && Inv(RemoveTask(s, t))
  {
    hide RefsOk, UsersOk, Subj, Obj, Charge;
    ObjLive(s.creds, s.tasks, s.held);
    ProjSubj(s.tasks, t);
    RemoveTaskRefs(s.creds, Subj(s.tasks), Obj(s.tasks), s.held, t);
    var s' := RemoveTask(s, t);
    TaskRemoved(s.creds, s.tasks, t);
    ObjLive(s'.creds, s'.tasks, s'.held);
    SameCharge(s.creds, s'.creds, s'.tasks, s'.processes);
  }

  // ---------------------------------------------------------------- the operations

  datatype Op =
    | DoGet(c: nat)
    | DoPut(c: nat)
    | DoGetTask(t: nat)
    | DoPrepare(t: nat, c: nat)
    | DoSetUser(c: nat, user: nat)
    | DoCommit(t: nat, c: nat)
    | DoOverride(t: nat, c: nat)
    | DoRevert(t: nat, c: nat)
    | DoShare(t: nat, child: nat)
    | DoFork(t: nat, child: nat, c: nat, newUser: Option<nat>, keyring: bool)
    | DoRelease(t: nat)
    | DoExit(t: nat)

  ghost predicate Running(s: State, t: nat) { t in s.tasks && s.tasks[t].charged }

  ghost predicate Enabled(s: State, op: Op) {
    match op
    case DoGet(c) => c in s.held
    case DoPut(c) => c in s.held
    case DoGetTask(t) => t in s.tasks
    case DoPrepare(t, c) => Running(s, t) && c !in s.creds
    case DoSetUser(c, _) => c in s.held && c in s.creds && s.creds[c].usage == 1
    case DoCommit(t, c) => Running(s, t) && c in s.held && s.tasks[t].cred == s.tasks[t].realCred
    case DoOverride(t, c) => Running(s, t) && c in s.held
    case DoRevert(t, c) => Running(s, t) && c in s.held
    case DoShare(t, child) => Running(s, t) && child !in s.tasks
    case DoFork(t, child, c, _, _) => Running(s, t) && child !in s.tasks && c !in s.creds
    case DoRelease(t) => Running(s, t)
    case DoExit(t) => t in s.tasks && !s.tasks[t].charged
  }

  /** prepare_creds: a copy of the subjective credentials, with one reference, for the caller. */
  function Prepare(s: State, t: nat, c: nat): State
    requires t in s.tasks && s.tasks[t].cred in s.creds
  {
    New(s, c, s.creds[s.tasks[t].cred].user, s.creds[s.tasks[t].cred].keyring)
  }

  /** commit_creds: the caller's reference and another become the task's two pointers; the old two are dropped. */
  function Commit(s: State, t: nat, c: nat): State
    requires t in s.tasks
  {
    var prev := s.tasks[t].realCred;
    Put(Put(SetCred(SetReal(Get(s, c), t, c), t, c), prev), prev)
  }

  /** override_creds: the task's subjective reference to the old credentials goes to the caller. */
  function Override(s: State, t: nat, c: nat): State
    requires t in s.tasks
  {
    SetCred(Get(s, c), t, c)
  }

  /** revert_creds: the caller's reference goes back to the task and the override is dropped. */
  function Revert(s: State, t: nat, c: nat): State
    requires t in s.tasks
  {
    Put(SetCred(s, t, c), s.tasks[t].cred)
  }

  /** copy_creds for a thread without its own keyring: it shares the parent's subjective credentials. */
  function Share(s: State, t: nat, child: nat): State
    requires t in s.tasks
  {
    var c := s.tasks[t].cred;
    AddTask(Get(Get(s, c), c), child, c)
  }

  /** copy_creds otherwise: the child gets new credentials; create_user_ns may give them another user. */
  function Fork(s: State, t: nat, child: nat, c: nat, newUser: Option<nat>, keyring: bool): State
    requires t in s.tasks && s.tasks[t].cred in s.creds
  {
    var s1 := Prepare(s, t, c);
    var s2 := if newUser.Some? then SetUser(s1, c, newUser.value) else s1;
    AddTask(Get(SetKeyring(s2, c, keyring), c), child, c)
  }

  function SetKeyring(s: State, c: nat, keyring: bool): State
    requires c in s.creds
  {
    s.(creds := s.creds[c := s.creds[c].(keyring := keyring)])
  }

  /** exit_creds: both pointers and their references are dropped. */
  function Exit(s: State, t: nat): State
    requires t in s.tasks
  {
    Put(Put(RemoveTask(s, t), s.tasks[t].realCred), s.tasks[t].cred)
  }

  lemma CommitKeepsInv(s: State, t: nat, c: nat)
    requires Inv(s) && Enabled(s, DoCommit(t, c))
    ensures Inv(Commit(s, t, c))
  {
    hide Inv;
    PointersLive(s);
    GetKeepsInv(s, c);
    var prev := s.tasks[t].realCred;
    var s1 := Get(s, c);
    SetRealKeepsInv(s1, t, c);
    var s2 := SetReal(s1, t, c);
    SetCredKeepsInv(s2, t, c);
    var s3 := SetCred(s2, t, c);
    PutKeepsInv(s3, prev);
    PutKeepsInv(Put(s3, prev), prev);
  }

  lemma OverrideKeepsInv(s: State, t: nat, c: nat)
    requires Inv(s) && Enabled(s, DoOverride(t, c))
    ensures Inv(Override(s, t, c))
  {
    hide Inv;
    PointersLive(s);
    GetKeepsInv(s, c);
    SetCredKeepsInv(Get(s, c), t, c);
  }

  lemma RevertKeepsInv(s: State, t: nat, c: nat)
    requires Inv(s) && Enabled(s, DoRevert(t, c))
    ensures Inv(Revert(s, t, c))
  {
    hide Inv;
    SetCredKeepsInv(s, t, c);
    PutKeepsInv(SetCred(s, t, c), s.tasks[t].cred);
  }

  lemma ShareKeepsInv(s: State, t: nat, child: nat)
    requires Inv(s) && Enabled(s, DoShare(t, child))
    ensures Inv(Share(s, t, child))
  {
    hide Inv;
    PointersLive(s);
    var c := s.tasks[t].cred;
    GetKeepsInv(s, c);
    GetKeepsInv(Get(s, c), c);
    AddTaskKeepsInv(Get(Get(s, c), c), child, c);
  }

  lemma KeyringKeepsInv(s: State, c: nat, keyring: bool)
    requires Inv(s) && c in s.creds
    ensures Inv(SetKeyring(s, c, keyring))
  {
    PointersLive(s);
    hide RefsOk, UsersOk, Subj, Obj, Charge;
    AlteredRefs(s.creds, Subj(s.tasks), Obj(s.tasks), s.held, c, s.creds[c].(keyring := keyring));
    SameCharge(s.creds, SetKeyring(s, c, keyring).creds, s.tasks, s.processes);
  }

  lemma ForkKeepsInv(s: State, t: nat, child: nat, c: nat, newUser: Option<nat>, keyring: bool)
    requires Inv(s) && Enabled(s, DoFork(t, child, c, newUser, keyring))
    ensures s.tasks[t].cred in s.creds && Inv(Fork(s, t, child, c, newUser, keyring))
  {
    hide Inv;
    PointersLive(s);
    NewKeepsInv(s, c, s.creds[s.tasks[t].cred].user, s.creds[s.tasks[t].cred].keyring);
    var s1 := Prepare(s, t, c);
    if newUser.Some? { SetUserKeepsInv(s1, c, newUser.value); }
    var s2 := if newUser.Some? then SetUser(s1, c, newUser.value) else s1;
    KeyringKeepsInv(s2, c, keyring);
    GetKeepsInv(SetKeyring(s2, c, keyring), c);
    AddTaskKeepsInv(Get(SetKeyring(s2, c, keyring), c), child, c);
  }

  lemma ExitKeepsInv(s: State, t: nat)
    requires Inv(s) && Enabled(s, DoExit(t))
    ensures Inv(Exit(s, t))
  {
    hide Inv;
    RemoveTaskKeepsInv(s, t);
    var s1 := RemoveTask(s, t);
    PutKeepsInv(s1, s.tasks[t].realCred);
    PutKeepsInv(Put(s1, s.tasks[t].realCred), s.tasks[t].cred);
  }

  ghost function Apply(s: State, op: Op): (s': State)
    requires Inv(s) && Enabled(s, op)
    ensures Inv(s')
  {
    hide Inv, Get, Put, SetUser, Commit, Override, Revert, Share, Fork, Uncharge, Exit;
    PointersLive(s);
    match op
    case DoGet(c) => GetKeepsInv(s, c); Get(s, c)
    case DoPut(c) => PutKeepsInv(s, c); Put(s, c)
    case DoGetTask(t) => GetKeepsInv(s, s.tasks[t].realCred); Get(s, s.tasks[t].realCred)
    case DoPrepare(t, c) => NewKeepsInv(s, c, s.creds[s.tasks[t].cred].user, s.creds[s.tasks[t].cred].keyring); Prepare(s, t, c)
    case DoSetUser(c, user) => SetUserKeepsInv(s, c, user); SetUser(s, c, user)
    case DoCommit(t, c) => CommitKeepsInv(s, t, c); Commit(s, t, c)
    case DoOverride(t, c) => OverrideKeepsInv(s, t, c); Override(s, t, c)
    case DoRevert(t, c) => RevertKeepsInv(s, t, c); Revert(s, t, c)
    case DoShare(t, child) => ShareKeepsInv(s, t, child); Share(s, t, child)
    case DoFork(t, child, c, newUser, keyring) =>
      ForkKeepsInv(s, t, child, c, newUser, keyring); Fork(s, t, child, c, newUser, keyring)
    case DoRelease(t) => UnchargeKeepsInv(s, t); Uncharge(s, t)
    case DoExit(t) => ExitKeepsInv(s, t); Exit(s, t)
  }

  /** The initial task, with both pointers to the initial credentials of user 0. */
  function Boot(): State {
    State(map[0 := Cred(2, 2, 0, false)], map[0 := Task(0, 0, true)], map[0 := 1], multiset{})
  }

  lemma BootInv()
    ensures Inv(Boot())
  {
    var s := Boot();
    assert Keys(Subj(s.tasks), 0) == {0} && Keys(Obj(s.tasks), 0) == {0};
    assert Keys(Charge(s.creds, s.tasks), 0) == {0};
  }

  /** A run of operations; one that is not enabled does nothing. */
  ghost function Run(s: State, ops: seq<Op>): (s': State)
    requires Inv(s)
    ensures Inv(s')
    decreases |ops|
  {
    if ops == [] then s else Run(if Enabled(s, ops[0]) then Apply(s, ops[0]) else s, ops[1..])
  }

  // ---------------------------------------------------------------- what this means

  /** The tasks whose subjective, and objective, credentials are `c`. */
  ghost function SubjTasks(s: State, c: nat): set<nat> { set t | t in s.tasks && s.tasks[t].cred == c }

  ghost function ObjTasks(s: State, c: nat): set<nat> { set t | t in s.tasks && s.tasks[t].realCred == c }

  /** The counted tasks whose objective credentials are of the user. */
  ghost function UserTasks(s: State, u: nat): set<nat> {
    set t | t in s.tasks && s.tasks[t].charged && s.tasks[t].realCred in s.creds && s.creds[s.tasks[t].realCred].user == u
  }

  lemma CountsOf(s: State, c: nat)
    requires Inv(s) && c in s.creds
    ensures s.creds[c].usage == |SubjTasks(s, c)| + |ObjTasks(s, c)| + s.held[c]
    ensures s.creds[c].subs == |SubjTasks(s, c)| + |ObjTasks(s, c)|
  {
    assert CredOk(s.creds[c], Count(Subj(s.tasks), c), Count(Obj(s.tasks), c), s.held[c]);
    hide RefsOk, UsersOk;
    assert Keys(Subj(s.tasks), c) == SubjTasks(s, c);
    assert Keys(Obj(s.tasks), c) == ObjTasks(s, c);
  }

  lemma ChargesOf(s: State, u: nat)
    requires Inv(s) && u in s.processes
    ensures s.processes[u] == |UserTasks(s, u)|
  {
    assert s.processes[u] == Count(Charge(s.creds, s.tasks), u);
    hide RefsOk, UsersOk;
    assert Keys(Charge(s.creds, s.tasks), u) == UserTasks(s, u);
  }

  /**
   * In every reachable state the counts are exact, no task's pointer dangles, and each user's process
   * count is the number of counted tasks of that user.
   */
  lemma ReachableCreds(ops: seq<Op>)
    ensures Inv(Boot())
    ensures var s := Run(Boot(), ops);
            && (forall t :: t in s.tasks ==> s.tasks[t].cred in s.creds && s.tasks[t].realCred in s.creds)
            && (forall c :: c in s.creds ==>
                  && s.creds[c].usage == |SubjTasks(s, c)| + |ObjTasks(s, c)| + s.held[c]
                  && s.creds[c].subs == |SubjTasks(s, c)| + |ObjTasks(s, c)|)
            && (forall u :: u in s.processes ==> s.processes[u] == |UserTasks(s, u)|)
  {
    BootInv();
    var s := Run(Boot(), ops);
    hide Inv, SubjTasks, ObjTasks, UserTasks, Run;
    PointersLive(s);
    forall c | c in s.creds
      ensures s.creds[c].usage == |SubjTasks(s, c)| + |ObjTasks(s, c)| + s.held[c]
      ensures s.creds[c].subs == |SubjTasks(s, c)| + |ObjTasks(s, c)|
    {
      CountsOf(s, c);
    }
    forall u | u in s.processes ensures s.processes[u] == |UserTasks(s, u)| { ChargesOf(s, u); }
  }

  /** Credentials are freed exactly by the put of the last reference, and then no task points at them. */
  lemma LastPut(s: State, c: nat)
    requires Inv(s) && c in s.held
    ensures c in s.creds
    ensures c !in Put(s, c).creds <==>
              s.held[c] == 1 && s.creds[c].subs == 0 && forall t :: t in s.tasks ==> s.tasks[t].cred != c && s.tasks[t].realCred != c
  {
    PointersLive(s);
    CountsOf(s, c);
    SoleOwner(s, c);
    hide Inv;
    if forall t :: t in s.tasks ==> s.tasks[t].cred != c && s.tasks[t].realCred != c {
      assert SubjTasks(s, c) == {} && ObjTasks(s, c) == {};
    }
  }

  /** After commit_creds both pointers are the new credentials, whose reference the caller no longer has. */
  lemma CommitEffect(s: State, t: nat, c: nat)
    requires t in s.tasks && s.tasks[t].charged && s.tasks[t].cred == s.tasks[t].realCred && c in s.held
    ensures var s' := Commit(s, t, c);
            && s'.tasks == s.tasks[t := Task(c, c, true)] && s'.held == s.held - multiset{c}
            && s'.processes == Recharge(s.processes, UserOf(s.creds, s.tasks[t].realCred), UserOf(s.creds, c))
  {
    hide Subs, Unref, Recharge, Usage;
    var prev := s.tasks[t].realCred;
    TwoForTwo(s.held, c, prev);
    UsersUntouched(s.creds, c);
    assert s.tasks[t].(realCred := c).(cred := c) == Task(c, c, true);
  }

  lemma TwoForTwo(held: multiset<nat>, c: nat, prev: nat)
    requires c in held
    ensures held + multiset{c} - multiset{c} + multiset{prev} - multiset{c} + multiset{prev} - multiset{prev} - multiset{prev}
         == held - multiset{c}
  {
  }

  lemma UsersUntouched(creds: map<nat, Cred>, c: nat)
    ensures forall x :: UserOf(Usage(creds, c, 1), x) == UserOf(creds, x)
  {
  }

  lemma SwapBack(creds: map<nat, Cred>, c: nat, prev: nat)
    requires c in creds && prev in creds && creds[c].usage > 0
    ensures var o := Subs(Subs(Usage(creds, c, 1), c, 1), prev, -1);
            Unref(Subs(Subs(o, prev, 1), c, -1), c) == creds
  {
  }

  lemma OneForOne(held: multiset<nat>, c: nat, prev: nat)
    ensures held + multiset{c} - multiset{c} + multiset{prev} == held + multiset{prev}
    ensures held + multiset{prev} - multiset{prev} + multiset{c} - multiset{c} == held
  {
  }

  /** A properly paired override and revert leave everything as it was. */
  lemma OverrideRevert(s: State, t: nat, c: nat)
    requires Inv(s) && Enabled(s, DoOverride(t, c))
    ensures var o := Override(s, t, c); var prev := s.tasks[t].cred;
            && o.tasks == s.tasks[t := s.tasks[t].(cred := c)] && o.held == s.held + multiset{prev}
            && Enabled(o, DoRevert(t, prev)) && Revert(o, t, prev) == s
  {
    hide Inv, Subs, Unref, Usage;
    PointersLive(s);
    CountsOf(s, c);
    var prev := s.tasks[t].cred;
    SwapBack(s.creds, c, prev);
    OneForOne(s.held, c, prev);
    assert Revert(Override(s, t, c), t, prev).tasks == s.tasks;
  }

  /** Preparing credentials and aborting leaves everything as it was. */
  lemma PrepareAbort(s: State, t: nat, c: nat)
    requires t in s.tasks && s.tasks[t].cred in s.creds && c !in s.creds
    ensures Put(Prepare(s, t, c), c) == s
  {
  }

  lemma SubsBack(creds: map<nat, Cred>, c: nat)
    ensures Subs(Subs(Subs(creds, c, 2), c, -1), c, -1) == creds && UserOf(Subs(creds, c, 2), c) == UserOf(creds, c)
  {
  }

  lemma BumpBack(processes: map<nat, int>, u: nat)
    ensures Bump(Bump(processes, u, 1), u, -1) == processes
  {
  }

  lemma HeldBack(held: multiset<nat>, c: nat)
    requires held[c] >= 2
    ensures held - multiset{c, c} + multiset{c, c} == held
  {
  }

  /** What is left when a new task is uncounted and exits at once: its two references are gone. */
  lemma ChildUndone(s: State, child: nat, c: nat)
    requires child !in s.tasks && s.held[c] >= 2
    ensures Exit(Uncharge(AddTask(s, child, c), child), child) == Put(Put(s, c), c)
  {
    hide Subs, Unref, Bump, UserOf;
    SubsBack(s.creds, c);
    BumpBack(s.processes, UserOf(s.creds, c));
    HeldBack(s.held, c);
    var s2 := Uncharge(AddTask(s, child, c), child);
    assert s2.tasks == s.tasks[child := Task(c, c, false)];
    assert RemoveTask(s2, child).tasks == s.tasks;
    assert RemoveTask(s2, child) == s;
  }

  /** A fork that fails later undoes copy_creds exactly: uncounting and exit_creds restore the state. */
  lemma ShareUndone(s: State, t: nat, child: nat)
    requires t in s.tasks && s.tasks[t].cred in s.creds && s.creds[s.tasks[t].cred].usage > 0 && child !in s.tasks
    ensures Exit(Uncharge(Share(s, t, child), child), child) == s
  {
    var c := s.tasks[t].cred;
    var s2 := Get(Get(s, c), c);
    assert Put(Put(s2, c), c).creds == s.creds;
    assert Put(Put(s2, c), c).held == s.held;
    hide Exit, Uncharge, AddTask, Put, Get;
    HeldTwo(s, c);
    ChildUndone(s2, child, c);
  }

  lemma HeldTwo(s: State, c: nat)
    ensures Get(Get(s, c), c).held[c] >= 2 && Get(Get(s, c), c).tasks == s.tasks
  {
  }

  /** The credentials with which copy_creds makes a child. */
  function Forked(s: State, t: nat, newUser: Option<nat>, keyring: bool): Cred
    requires t in s.tasks && s.tasks[t].cred in s.creds
  {
    Cred(1, 0, if newUser.Some? then newUser.value else s.creds[s.tasks[t].cred].user, keyring)
  }

  lemma ForkIs(s: State, t: nat, child: nat, c: nat, newUser: Option<nat>, keyring: bool)
    requires t in s.tasks && s.tasks[t].cred in s.creds && (newUser.Some? ==> newUser.value in s.processes)
    ensures Fork(s, t, child, c, newUser, keyring)
            == AddTask(Get(State(s.creds[c := Forked(s, t, newUser, keyring)], s.tasks, s.processes, s.held + multiset{c}), c), child, c)
  {
    hide AddTask, Get;
    var from, x := s.creds[s.tasks[t].cred], Forked(s, t, newUser, keyring);
    var creds1: map<nat, Cred> := s.creds[c := Cred(1, 0, from.user, from.keyring)];
    var creds2: map<nat, Cred> := creds1[c := Cred(1, 0, x.user, from.keyring)];
    assert creds2[c := x] == s.creds[c := x];
    assert creds1[c := x] == s.creds[c := x];
  }

  lemma PutNew(s: State, c: nat, x: Cred)
    requires c !in s.creds && x.usage == 1
    ensures var s2 := Get(State(s.creds[c := x], s.tasks, s.processes, s.held + multiset{c}), c);
            s2.held[c] >= 2 && s2.tasks == s.tasks && Put(Put(s2, c), c) == s
  {
    var s2 := Get(State(s.creds[c := x], s.tasks, s.processes, s.held + multiset{c}), c);
    assert Put(Put(s2, c), c).creds == s.creds;
    assert Put(Put(s2, c), c).held == s.held;
  }

  /** Likewise for a child with credentials of its own, which are freed. */
  lemma ForkUndone(s: State, t: nat, child: nat, c: nat, newUser: Option<nat>, keyring: bool)
    requires t in s.tasks && s.tasks[t].cred in s.creds && child !in s.tasks && c !in s.creds
    requires newUser.Some? ==> newUser.value in s.processes
    ensures Exit(Uncharge(Fork(s, t, child, c, newUser, keyring), child), child) == s
  {
    var x := Forked(s, t, newUser, keyring);
    ForkIs(s, t, child, c, newUser, keyring);
    PutNew(s, c, x);
    hide Exit, Uncharge, AddTask, Put, Get, Fork, Forked;
    ChildUndone(Get(State(s.creds[c := x], s.tasks, s.processes, s.held + multiset{c}), c), child, c);
  }

  lemma SubsKeys(creds: map<nat, Cred>, c: nat, n: int)
    ensures Subs(creds, c, n).Keys == creds.Keys && Usage(creds, c, n).Keys == creds.Keys
  {
  }

  lemma SubsTwice(creds: map<nat, Cred>, c: nat, prev: nat)
    ensures Subs(Subs(Subs(Subs(creds, c, 1), prev, -1), c, 1), prev, -1) == Subs(Subs(creds, c, 2), prev, -2)
  {
  }

  /** Moving both pointers of a task. */
  function MoveBoth(s: State, t: nat, c: nat): State
    requires t in s.tasks
  {
    SetCred(SetReal(s, t, c), t, c)
  }

  lemma CommitMoves(s: State, t: nat, c: nat)
    requires Inv(s) && Running(s, t) && s.tasks[t].cred == s.tasks[t].realCred && s.held[c] >= 2
    ensures var prev := s.tasks[t].realCred;
            MoveBoth(s, t, c) == State(Subs(Subs(s.creds, c, 2), prev, -2), s.tasks[t := s.tasks[t].(realCred := c, cred := c)],
                                       Recharge(s.processes, UserOf(s.creds, prev), UserOf(s.creds, c)),
                                       s.held - multiset{c, c} + multiset{prev, prev})
    ensures Inv(MoveBoth(s, t, c))
  {
    hide Inv, Subs, Recharge, UserOf;
    var prev := s.tasks[t].realCred;
    SubsTwice(s.creds, c, prev);
    SetRealKeepsInv(s, t, c);
    SetCredKeepsInv(SetReal(s, t, c), t, c);
    MovedTwice(s.held, c, prev);
  }

  lemma MovedTwice(held: multiset<nat>, c: nat, prev: nat)
    requires held[c] >= 2
    ensures held - multiset{c} + multiset{prev} - multiset{c} + multiset{prev} == held - multiset{c, c} + multiset{prev, prev}
  {
  }

  lemma RechargeIs(processes: map<nat, int>, from: nat, to: nat)
    ensures Recharge(processes, from, to) == if to == from then processes else Bump(Bump(processes, to, 1), from, -1)
    ensures Bump(processes, to, 1).Keys == processes.Keys
  {
  }

  // ---------------------------------------------------------------- the counts updated in place

  /** Without CLONE_NEWUSER, or how create_user_ns ends. */
  datatype Namespace = Same | Refused | Renamed(user: nat)

  /** Credentials may have gone, and their counts changed, but not whose they are. */
  ghost predicate SameOwners(was: map<nat, Cred>, now: map<nat, Cred>) {
    forall c :: c in now ==> c in was && now[c].user == was[c].user && now[c].keyring == was[c].keyring
  }

  /** One process counts for `to` instead of `from`. */
  ghost predicate Moved(was: map<nat, int>, from: nat, to: nat, now: map<nat, int>) {
    && now.Keys == was.Keys
    && forall u :: u in was ==> now[u] == was[u] + (if u == to then 1 else 0) - (if u == from then 1 else 0)
  }

  /** `u`, known from now on, has one process more. */
  ghost predicate OneMore(was: map<nat, int>, u: nat, now: map<nat, int>) {
    now == was[u := (if u in was then was[u] else 0) + 1]
  }

  /** The tasks' pointers, the callers' references and the owners say which credentials there are and all about them. */
  lemma RefsDetermine(a: State, b: State)
    requires Inv(a) && Inv(b) && a.tasks == b.tasks && a.held == b.held
    requires forall c :: c in a.creds && c in b.creds ==>
               a.creds[c].user == b.creds[c].user && a.creds[c].keyring == b.creds[c].keyring
    ensures a.creds == b.creds
  {
    forall c | c in a.creds ensures c in b.creds { Referenced(a, b, c); }
    forall c | c in b.creds ensures c in a.creds && a.creds[c] == b.creds[c] {
      Referenced(b, a, c);
      CountsOf(a, c);
      CountsOf(b, c);
    }
  }

  lemma Referenced(a: State, b: State, c: nat)
    requires Inv(a) && Inv(b) && a.tasks == b.tasks && a.held == b.held && c in a.creds
    ensures c in b.creds
  {
    EachCredOk(a.creds, Subj(a.tasks), Obj(a.tasks), a.held);
    CountZero(Subj(a.tasks), c);
    CountZero(Obj(a.tasks), c);
    PointersLive(b);
    hide Inv, Count;
  }

  lemma CountsKeepOwners(was: map<nat, Cred>, now: map<nat, Cred>, c: nat, n: int)
    requires SameOwners(was, now)
    ensures SameOwners(was, Subs(now, c, n)) && SameOwners(was, Usage(now, c, n)) && SameOwners(was, Unref(now, c))
  {
  }

  lemma SetCredOwners(was: map<nat, Cred>, s: State, t: nat, c: nat)
    requires t in s.tasks && SameOwners(was, s.creds)
    ensures SameOwners(was, SetCred(s, t, c).creds) && SameOwners(was, SetReal(s, t, c).creds)
  {
    hide SameOwners, Subs;
    CountsKeepOwners(was, s.creds, c, 1);
    CountsKeepOwners(was, Subs(s.creds, c, 1), s.tasks[t].cred, -1);
    CountsKeepOwners(was, Subs(s.creds, c, 1), s.tasks[t].realCred, -1);
  }

  lemma GetPutOwners(was: map<nat, Cred>, s: State, c: nat)
    requires SameOwners(was, s.creds)
    ensures SameOwners(was, Get(s, c).creds) && SameOwners(was, Put(s, c).creds)
  {
    hide SameOwners, Usage, Unref;
    CountsKeepOwners(was, s.creds, c, 1);
  }

  lemma CommitOwners(s: State, t: nat, c: nat)
    requires t in s.tasks
    ensures SameOwners(s.creds, Commit(s, t, c).creds)
  {
    assert SameOwners(s.creds, s.creds);
    hide SameOwners, Get, SetReal, SetCred, Put;
    var prev := s.tasks[t].realCred;
    var s1 := Get(s, c);
    GetPutOwners(s.creds, s, c);
    assert s1.tasks == s.tasks by { GetTasks(s, c); }
    SetCredOwners(s.creds, s1, t, c);
    var s2 := SetReal(s1, t, c);
    assert t in s2.tasks by { SetRealTasks(s1, t, c); }
    SetCredOwners(s.creds, s2, t, c);
    var s3 := SetCred(s2, t, c);
    GetPutOwners(s.creds, s3, prev);
    GetPutOwners(s.creds, Put(s3, prev), prev);
  }

  lemma GetTasks(s: State, c: nat)
    ensures Get(s, c).tasks == s.tasks
  {
  }

  lemma SetRealTasks(s: State, t: nat, c: nat)
    requires t in s.tasks
    ensures SetReal(s, t, c).tasks == s.tasks[t := s.tasks[t].(realCred := c)]
  {
  }

  lemma CommitUsers(s: State, t: nat, c: nat)
    requires Inv(s) && Enabled(s, DoCommit(t, c))
    ensures Moved(s.processes, UserOf(s.creds, s.tasks[t].realCred), UserOf(s.creds, c), Commit(s, t, c).processes)
  {
    hide Inv, Commit, Recharge, Moved;
    PointersLive(s);
    CommitEffect(s, t, c);
    RechargeMoves(s.processes, UserOf(s.creds, s.tasks[t].realCred), UserOf(s.creds, c));
  }

  lemma RechargeMoves(processes: map<nat, int>, from: nat, to: nat)
    requires from in processes && to in processes
    ensures Moved(processes, from, to, Recharge(processes, from, to))
  {
  }

  lemma OverrideMeans(s: State, t: nat, c: nat)
    requires t in s.tasks
    ensures var s' := Override(s, t, c);
            && s'.tasks == s.tasks[t := s.tasks[t].(cred := c)] && s'.held == s.held + multiset{s.tasks[t].cred}
            && SameOwners(s.creds, s'.creds) && s'.processes == s.processes
  {
    hide Subs, Usage, SameOwners;
    assert SameOwners(s.creds, s.creds) by { OwnersRefl(s.creds); }
    GetPutOwners(s.creds, s, c);
    SetCredOwners(s.creds, Get(s, c), t, c);
    OneForOne(s.held, c, s.tasks[t].cred);
  }

  lemma OwnersRefl(creds: map<nat, Cred>)
    ensures SameOwners(creds, creds)
  {
  }

  lemma RevertMeans(s: State, t: nat, c: nat)
    requires t in s.tasks && c in s.held
    ensures var s' := Revert(s, t, c);
            && s'.tasks == s.tasks[t := s.tasks[t].(cred := c)] && s'.held == s.held - multiset{c}
            && SameOwners(s.creds, s'.creds) && s'.processes == s.processes
  {
    hide Subs, Unref, SameOwners;
    OwnersRefl(s.creds);
    SetCredOwners(s.creds, s, t, c);
    GetPutOwners(s.creds, SetCred(s, t, c), s.tasks[t].cred);
    assert s.held - multiset{c} + multiset{s.tasks[t].cred} - multiset{s.tasks[t].cred} == s.held - multiset{c};
  }

  lemma ExitMeans(s: State, t: nat)
    requires t in s.tasks
    ensures var s' := Exit(s, t);
            && s'.tasks == s.tasks - {t} && s'.held == s.held
            && SameOwners(s.creds, s'.creds) && s'.processes == s.processes
  {
    hide Subs, Unref, SameOwners;
    var r, c := s.tasks[t].realCred, s.tasks[t].cred;
    OwnersRefl(s.creds);
    CountsKeepOwners(s.creds, s.creds, r, -1);
    CountsKeepOwners(s.creds, Subs(s.creds, r, -1), c, -1);
    var s1 := RemoveTask(s, t);
    GetPutOwners(s.creds, s1, r);
    GetPutOwners(s.creds, Put(s1, r), c);
    assert s.held + multiset{r, c} - multiset{r} - multiset{c} == s.held;
  }

  /** A thread without its own keyring shares its parent's credentials, which gain two references. */
  lemma ShareMeans(s: State, t: nat, child: nat)
    requires t in s.tasks && s.tasks[t].cred in s.creds && s.creds[s.tasks[t].cred].user in s.processes
    ensures var p := s.tasks[t].cred;
            var from, s' := s.creds[p], Share(s, t, child);
            && s'.creds == s.creds[p := Cred(from.usage + 2, from.subs + 2, from.user, from.keyring)]
            && s'.tasks == s.tasks[child := Task(p, p, true)] && s'.held == s.held
            && OneMore(s.processes, from.user, s'.processes)
  {
    var p := s.tasks[t].cred;
    assert s.held + multiset{p} + multiset{p} - multiset{p, p} == s.held;
  }

  lemma AdoptMeans(s: State, child: nat, c: nat, x: Cred)
    requires c in s.creds && s.creds[c] == x && x.user in s.processes
    ensures var s' := AddTask(Get(s, c), child, c);
            && s'.creds == s.creds[c := Cred(x.usage + 1, x.subs + 2, x.user, x.keyring)]
            && s'.tasks == s.tasks[child := Task(c, c, true)] && s'.held == s.held - multiset{c}
            && s'.processes == s.processes[x.user := s.processes[x.user] + 1]
  {
    assert s.held + multiset{c} - multiset{c, c} == s.held - multiset{c};
  }

  lemma PreparedMeans(s: State, t: nat, c: nat, newUser: Option<nat>, keyring: bool)
    requires t in s.tasks && s.tasks[t].cred in s.creds
    ensures var s1 := Prepare(s, t, c);
            var s2 := if newUser.Some? then SetUser(s1, c, newUser.value) else s1;
            var user := if newUser.Some? then newUser.value else s.creds[s.tasks[t].cred].user;
            && SetKeyring(s2, c, keyring).creds == s.creds[c := Cred(1, 0, user, keyring)]
            && SetKeyring(s2, c, keyring).tasks == s.tasks && SetKeyring(s2, c, keyring).held == s.held + multiset{c}
            && SetKeyring(s2, c, keyring).processes ==
               if newUser.Some? && user !in s.processes then s.processes[user := 0] else s.processes
  {
  }

  /** Any other child gets credentials of its own, of its parent's user unless it is given another. */
  lemma ForkMeans(s: State, t: nat, child: nat, c: nat, newUser: Option<nat>, keyring: bool)
    requires t in s.tasks && s.tasks[t].cred in s.creds && s.creds[s.tasks[t].cred].user in s.processes
    ensures var from, s' := s.creds[s.tasks[t].cred], Fork(s, t, child, c, newUser, keyring);
            var user := if newUser.Some? then newUser.value else from.user;
            && s'.creds == s.creds[c := Cred(2, 2, user, keyring)]
            && s'.tasks == s.tasks[child := Task(c, c, true)] && s'.held == s.held
            && OneMore(s.processes, user, s'.processes)
  {
    hide AddTask, Get, SetKeyring, SetUser, Prepare;
    PreparedMeans(s, t, c, newUser, keyring);
    var user := if newUser.Some? then newUser.value else s.creds[s.tasks[t].cred].user;
    var x := Cred(1, 0, user, keyring);
    var s1 := Prepare(s, t, c);
    assert c in s1.creds by { PreparedMeans(s, t, c, None, keyring); PreparedHas(s, t, c); }
    var s2 := if newUser.Some? then SetUser(s1, c, newUser.value) else s1;
    PreparedHas(s, t, c);
    AdoptMeans(SetKeyring(s2, c, keyring), child, c, x);
    assert s.creds[c := x][c := Cred(2, 2, user, keyring)] == s.creds[c := Cred(2, 2, user, keyring)];
    assert s.held + multiset{c} - multiset{c} == s.held;
  }

  lemma PreparedHas(s: State, t: nat, c: nat)
    requires t in s.tasks && s.tasks[t].cred in s.creds
    ensures c in Prepare(s, t, c).creds && forall u :: c in SetUser(Prepare(s, t, c), c, u).creds
  {
  }

  lemma ForkUnfolds(s: State, t: nat, child: nat, c: nat, newUser: Option<nat>, keyring: bool)
    requires t in s.tasks && s.tasks[t].cred in s.creds
    ensures var s1 := Prepare(s, t, c);
            var s2 := if newUser.Some? then SetUser(s1, c, newUser.value) else s1;
            Fork(s, t, child, c, newUser, keyring) == AddTask(Get(SetKeyring(s2, c, keyring), c), child, c)
  {
    hide AddTask, Get;
  }

  lemma HeldMore(held: multiset<nat>, c: nat)
    requires c in held
    ensures (held + multiset{c})[c] >= 2
  {
  }

  class CredTable {
    var creds: map<nat, Cred>
    var tasks: map<nat, Task>
    var processes: map<nat, int>
    ghost var held: multiset<nat>

    ghost function View(): State reads this { State(creds, tasks, processes, held) }

    ghost predicate Valid() reads this { Inv(View()) }

    constructor ()
      ensures View() == Boot()
      ensures Valid()
    {
      creds, tasks, processes := map[0 := Cred(2, 2, 0, false)], map[0 := Task(0, 0, true)], map[0 := 1];
      held := multiset{};
      new;
      hide Inv;
      BootInv();
    }

    method GetCred(c: nat)
      requires Valid() && c in creds
      modifies `creds, `held
      ensures View() == Get(old(View()), c)
      ensures creds == old(creds)[c := old(creds)[c].(usage := old(creds)[c].usage + 1)] && held == old(held) + multiset{c}
      ensures Valid()
    {
      hide Inv;
      GetKeepsInv(View(), c);
      creds := creds[c := creds[c].(usage := creds[c].usage + 1)];
      held := held + multiset{c};
    }

    /** put_cred; the checks of __put_cred hold: what is freed has no subscriber and is no task's. */
    method PutCred(c: nat)
      requires Valid() && c in held
      modifies `creds, `held
      ensures View() == Put(old(View()), c)
      ensures c in old(creds) && held == old(held) - multiset{c}
      ensures creds == if old(creds)[c].usage == 1 then old(creds) - {c}
                       else old(creds)[c := old(creds)[c].(usage := old(creds)[c].usage - 1)]
      ensures Valid()
      ensures c !in creds ==> forall t :: t in tasks ==> tasks[t].cred != c && tasks[t].realCred != c
    {
      hide Inv;
      PutKeepsInv(View(), c);
      LastPut(View(), c);
      var left := creds[c].usage - 1;
      if left == 0 {
        assert creds[c].subs == 0;
        creds := creds - {c};
      } else {
        creds := creds[c := creds[c].(usage := left)];
      }
      held := held - multiset{c};
    }

    method AlterSubscribers(c: nat, n: int)
      requires c in creds
      modifies `creds
      ensures creds == Subs(old(creds), c, n)
    {
      creds := creds[c := creds[c].(subs := creds[c].subs + n)];
    }

    /** prepare_creds; `c` is the memory it gets. It fails for want of memory or when a security module refuses. */
    method PrepareCreds(t: nat, c: nat, memory: bool, secure: bool) returns (r: Option<nat>)
      requires Valid() && Running(View(), t) && c !in creds
      modifies `creds, `held
      ensures r == if memory && secure then Some(c) else None
      ensures old(tasks[t].cred in creds) && View() == if r == None then old(View()) else Prepare(old(View()), t, c)
      ensures var from := old(creds)[old(tasks)[t].cred];
              if r == None then creds == old(creds) && held == old(held)
              else creds == old(creds)[c := Cred(1, 0, from.user, from.keyring)] && held == old(held) + multiset{c}
      ensures Valid()
    {
      hide Inv;
      PointersLive(View());
      if !memory { return None; }
      var from := creds[tasks[t].cred];
      NewKeepsInv(View(), c, from.user, from.keyring);
      PrepareAbort(View(), t, c);
      creds := creds[c := from.(usage := 1, subs := 0)];
      held := held + multiset{c};
      if !secure {
        AbortCreds(c);
        return None;
      }
      return Some(c);
    }

    method AbortCreds(c: nat)
      requires Valid() && c in held
      modifies `creds, `held
      ensures View() == Put(old(View()), c)
      ensures c in old(creds) && held == old(held) - multiset{c}
      ensures creds == if old(creds)[c].usage == 1 then old(creds) - {c}
                       else old(creds)[c := old(creds)[c].(usage := old(creds)[c].usage - 1)]
      ensures Valid()
    {
      hide Inv;
      PointersLive(View());
      CountsOf(View(), c);
      assert creds[c].usage >= 1;
      PutCred(c);
    }

    method CountProcess(user: nat, n: int)
      requires user in processes
      modifies `processes
      ensures processes == Bump(old(processes), user, n)
    {
      processes := processes[user := processes[user] + n];
    }

    /** The middle of commit_creds: count and point to the new credentials, uncount the old. */
    method MovePointers(t: nat, c: nat)
      requires Valid() && Running(View(), t) && tasks[t].cred == tasks[t].realCred && held[c] >= 2
      modifies this
      ensures View() == MoveBoth(old(View()), t, c)
      ensures Valid()
    {
      hide Inv, Recharge, MoveBoth, Subs, Bump;
      PointersLive(View());
      var prev := tasks[t].realCred;
      var from, to := creds[prev].user, creds[c].user;
      RechargeIs(processes, from, to);
      SubsKeys(creds, c, 2);
      CommitMoves(View(), t, c);
      AlterSubscribers(c, 2);
      if to != from { CountProcess(to, 1); }
      tasks := tasks[t := tasks[t].(realCred := c, cred := c)];
      held := held - multiset{c, c} + multiset{prev, prev};
      if to != from { CountProcess(from, -1); }
      AlterSubscribers(prev, -2);
    }

    /** commit_creds. */
    method CommitCreds(t: nat, c: nat)
      requires Valid() && Enabled(View(), DoCommit(t, c))
      modifies this
      ensures View() == Commit(old(View()), t, c)
      ensures tasks == old(tasks)[t := Task(c, c, true)] && held == old(held) - multiset{c} && SameOwners(old(creds), creds)
      ensures Moved(old(processes), UserOf(old(creds), old(tasks)[t].realCred), UserOf(old(creds), c), processes)
      ensures Valid()
    {
      hide Inv, Subs, Recharge, Usage, UserOf, Moved, SameOwners;
      CommitEffect(View(), t, c);
      CommitOwners(View(), t, c);
      CommitUsers(View(), t, c);
      PointersLive(View());
      var prev := tasks[t].realCred;
      GetCred(c);
      MovePointers(t, c);
      PutCred(prev);
      PutCred(prev);
    }

    /** A reference of the caller becomes the task's subjective pointer, and the other way round. */
    method SwapCred(t: nat, c: nat)
      requires Valid() && t in tasks && c in held
      modifies this
      ensures View() == SetCred(old(View()), t, c)
      ensures Valid()
    {
      hide Inv, Subs;
      PointersLive(View());
      SetCredKeepsInv(View(), t, c);
      SubsKeys(creds, c, 1);
      var prev := tasks[t].cred;
      AlterSubscribers(c, 1);
      tasks := tasks[t := tasks[t].(cred := c)];
      held := held - multiset{c} + multiset{prev};
      AlterSubscribers(prev, -1);
    }

    /** override_creds. */
    method OverrideCreds(t: nat, c: nat) returns (prev: nat)
      requires Valid() && t in tasks && Enabled(View(), DoOverride(t, c))
      modifies this
      ensures prev == old(tasks)[t].cred && prev in held
      ensures tasks == old(tasks)[t := Task(c, old(tasks)[t].realCred, true)] && held == old(held) + multiset{prev}
      ensures SameOwners(old(creds), creds) && processes == old(processes)
      ensures View() == Override(old(View()), t, c)
      ensures Valid()
    {
      hide Inv, Get, SetCred, SameOwners;
      OverrideMeans(View(), t, c);
      PointersLive(View());
      prev := tasks[t].cred;
      GetCred(c);
      SwapCred(t, c);
    }

    /** revert_creds. */
    method RevertCreds(t: nat, prev: nat)
      requires Valid() && t in tasks && Enabled(View(), DoRevert(t, prev))
      modifies this
      ensures tasks == old(tasks)[t := Task(prev, old(tasks)[t].realCred, true)] && held == old(held) - multiset{prev}
      ensures SameOwners(old(creds), creds) && processes == old(processes)
      ensures View() == Revert(old(View()), t, prev)
      ensures Valid()
    {
      hide Inv, Put, SameOwners, Subs;
      RevertMeans(View(), t, prev);
      var over := tasks[t].cred;
      SwapCred(t, prev);
      PutCred(over);
    }

    /** Both references of the caller become the pointers of a new task. */
    method Adopt(child: nat, c: nat)
      requires Valid() && child !in tasks && held[c] >= 2
      modifies this
      ensures View() == AddTask(old(View()), child, c)
      ensures Valid()
    {
      hide Inv, Subs, Bump;
      PointersLive(View());
      AddTaskKeepsInv(View(), child, c);
      CountProcess(creds[c].user, 1);
      tasks := tasks[child := Task(c, c, true)];
      held := held - multiset{c, c};
      AlterSubscribers(c, 2);
    }

    method ShareCreds(t: nat, child: nat)
      requires Valid() && Running(View(), t) && child !in tasks
      modifies this
      ensures View() == Share(old(View()), t, child)
      ensures Valid()
    {
      hide Inv, Usage;
      PointersLive(View());
      var c := tasks[t].cred;
      GetCred(c);
      SubsKeys(old(creds), c, 1);
      GetCred(c);
      Adopt(child, c);
    }

    /**
     * copy_creds for a child of `t`; `thread` is CLONE_THREAD and `space` CLONE_NEWUSER, with create_user_ns
     * failing or possibly giving another user. A failure leaves everything as it was.
     */
    method CopyCreds(t: nat, child: nat, c: nat, thread: bool, space: Namespace, memory: bool, secure: bool, installed: bool)
      returns (ok: bool)
      requires Valid() && Running(View(), t) && child !in tasks && c !in creds
      modifies this
      ensures old(tasks[t].cred in creds)
      ensures var own := old(creds[tasks[t].cred].keyring);
              && (ok <==> (thread && !own) || (memory && secure && space != Refused))
              && View() == if !ok then old(View())
                           else if thread && !own then Share(old(View()), t, child)
                           else Fork(old(View()), t, child, c, if space.Renamed? then Some(space.user) else None,
                                     own && thread && installed)
      ensures held == old(held)
      ensures var p := old(tasks)[t].cred;
              var from := old(creds)[p];
              if !ok then creds == old(creds) && tasks == old(tasks) && processes == old(processes)
              else if thread && !from.keyring then
                && creds == old(creds)[p := Cred(from.usage + 2, from.subs + 2, from.user, from.keyring)]
                && tasks == old(tasks)[child := Task(p, p, true)] && OneMore(old(processes), from.user, processes)
              else
                var user := if space.Renamed? then space.user else from.user;
                && creds == old(creds)[c := Cred(2, 2, user, from.keyring && thread && installed)]
                && tasks == old(tasks)[child := Task(c, c, true)] && OneMore(old(processes), user, processes)
      ensures Valid()
    {
      hide Inv, AddTask, Get, Put, Share, Fork, OneMore;
      PointersLive(View());
      ShareMeans(View(), t, child);
      ForkMeans(View(), t, child, c, if space.Renamed? then Some(space.user) else None,
                creds[tasks[t].cred].keyring && thread && installed);
      var parent := tasks[t].cred;
      if !creds[parent].keyring && thread {
        ShareCreds(t, child);
        return true;
      }
      PrepareAbort(View(), t, c);
      var made := PrepareCreds(t, c, memory, secure);
      if made == None { return false; }
      if space == Refused {
        PutCred(c);
        return false;
      }
      Finish(child, c, space, thread && installed);
      ForkUnfolds(old(View()), t, child, c, if space.Renamed? then Some(space.user) else None,
                  old(creds)[parent].keyring && thread && installed);
      return true;
    }

    /** The rest of copy_creds: the user and the thread keyring of the new credentials, then the child. */
    method Finish(child: nat, c: nat, space: Namespace, installed: bool)
      requires Valid() && child !in tasks && c in held && c in creds && creds[c].usage == 1 && space != Refused
      modifies this
      ensures var s2 := if space.Renamed? then SetUser(old(View()), c, space.user) else old(View());
              View() == AddTask(Get(SetKeyring(s2, c, old(creds)[c].keyring && installed), c), child, c)
      ensures Valid()
    {
      hide Inv, AddTask;
      if space.Renamed? {
        SetUserKeepsInv(View(), c, space.user);
        if space.user !in processes { processes := processes[space.user := 0]; }
        creds := creds[c := creds[c].(user := space.user)];
      }
      KeyringKeepsInv(View(), c, creds[c].keyring && installed);
      creds := creds[c := creds[c].(keyring := creds[c].keyring && installed)];
      ghost var s2 := if space.Renamed? then SetUser(old(View()), c, space.user) else old(View());
      assert View() == SetKeyring(s2, c, old(creds)[c].keyring && installed);
      GetCred(c);
      HeldMore(old(held), c);
      Adopt(child, c);
    }

    /** release_task takes the task off its user's count. */
    method ReleaseTask(t: nat)
      requires Valid() && Running(View(), t)
      modifies this
      ensures View() == Uncharge(old(View()), t)
      ensures creds == old(creds) && held == old(held)
      ensures tasks == old(tasks)[t := Task(old(tasks)[t].cred, old(tasks)[t].realCred, false)]
      ensures var u := UserOf(old(creds), old(tasks)[t].realCred);
              u in old(processes) && processes == old(processes)[u := old(processes)[u] - 1]
      ensures Valid()
    {
      hide Inv;
      PointersLive(View());
      UnchargeKeepsInv(View(), t);
      CountProcess(creds[tasks[t].realCred].user, -1);
      tasks := tasks[t := tasks[t].(charged := false)];
    }

    /** The pointers of a task go, and their references with them to the caller. */
    method Disown(t: nat)
      requires Valid() && t in tasks && !tasks[t].charged
      modifies this
      ensures View() == RemoveTask(old(View()), t)
      ensures Valid()
    {
      hide Inv, Subs;
      PointersLive(View());
      RemoveTaskKeepsInv(View(), t);
      var obj, subj := tasks[t].realCred, tasks[t].cred;
      SubsKeys(creds, obj, -1);
      AlterSubscribers(obj, -1);
      AlterSubscribers(subj, -1);
      tasks := tasks - {t};
      held := held + multiset{obj, subj};
    }

    /** exit_creds; its two halves commute, and the model drops both subscriptions first. */
    method ExitCreds(t: nat)
      requires Valid() && t in tasks && !tasks[t].charged
      modifies this
      ensures View() == Exit(old(View()), t)
      ensures tasks == old(tasks) - {t} && held == old(held) && processes == old(processes) && SameOwners(old(creds), creds)
      ensures Valid()
    {
      hide Inv, Put, SameOwners, Subs;
      ExitMeans(View(), t);
      var obj, subj := tasks[t].realCred, tasks[t].cred;
      Disown(t);
      PutCred(obj);
      PutCred(subj);
    }
  }
}
