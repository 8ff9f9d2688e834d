/**
 * css_scan_tasks: visiting every task of a css in passes through a heap of
 * bounded size, in the order (start time, task pointer).
 */
module ScanTasks {
  import opened Lists
  import opened SetFacts
  import opened Options

  /** A task, as the scan sees it: its start time and its address. */
  datatype Task = Task(sec: nat, nsec: nat, ptr: nat)

  /** `latest_time` {0, 0} and `latest_task` NULL. */
  const START := Task(0, 0, 0)

  /** started_after_time(a, b's start time, b). */
  predicate After(a: Task, b: Task) {
    a.sec > b.sec || (a.sec == b.sec && (a.nsec > b.nsec || (a.nsec == b.nsec && a.ptr > b.ptr)))
  }

  /** The start time in nanoseconds. */
  function Nanos(t: Task): nat { t.sec * 1_000_000_000 + t.nsec }

  /** Comparing seconds before nanoseconds orders by start time, and the pointer decides between equals. */
  lemma AfterMeans(a: Task, b: Task)
    requires a.nsec < 1_000_000_000 && b.nsec < 1_000_000_000
    ensures After(a, b) <==> Nanos(a) > Nanos(b) || (Nanos(a) == Nanos(b) && a.ptr > b.ptr)
  {
  }

  ghost function Elems(s: seq<Task>): set<Task> { set t | t in s }

  // ---------------------------------------------------------------- the heap

  /** The first entry is the latest one; nothing else is promised about the order. */
  ghost predicate HeapOk(s: seq<Task>) {
    Distinct(s) && forall i :: 0 < i < |s| ==> After(s[0], s[i])
  }

  /** `kept` are the `max` earliest tasks of `all`. */
  ghost predicate Earliest(kept: set<Task>, all: set<Task>, max: nat) {
    && kept <= all && |kept| == (if |all| < max then |all| else max)
    && forall k, t :: k in kept && t in all && t !in kept ==> After(t, k)
  }

  class PtrHeap {
    const max: nat
    var ptrs: seq<Task>

    ghost predicate Valid() reads this {
      max > 0 && |ptrs| <= max && HeapOk(ptrs)
    }

    constructor (max: nat)
      requires max > 0
      ensures Valid() && this.max == max && ptrs == []
    {
      this.max := max;
      ptrs := [];
    }

    /** heap_insert: the task dropped to make room, which may be `p` itself. */
    method Insert(p: Task) returns (dropped: Option<Task>)
      requires Valid() && p !in ptrs
      modifies `ptrs
      ensures Valid()
      ensures |old(ptrs)| < max ==> dropped == None && Elems(ptrs) == Elems(old(ptrs)) + {p}
      ensures |old(ptrs)| == max && After(p, old(ptrs)[0]) ==> dropped == Some(p) && ptrs == old(ptrs)
      ensures |old(ptrs)| == max && !After(p, old(ptrs)[0]) ==>
                dropped == Some(old(ptrs)[0]) && Elems(ptrs) == Elems(old(ptrs)) - {old(ptrs)[0]} + {p}
    {
      if |ptrs| < max {
        ptrs := Put(ptrs, p);
        return None;
      }
      if After(p, ptrs[0]) { return Some(p); }
      dropped := Some(ptrs[0]);
      var rest := Raise(ptrs[1..]);
      ptrs := Put(rest, p);
    }
  }

  /** Adds a task, keeping the latest one in front. */
  function Put(s: seq<Task>, p: Task): (r: seq<Task>)
    requires HeapOk(s) && p !in s
    ensures HeapOk(r) && |r| == |s| + 1 && forall t :: t in r <==> t in s || t == p
  {
    if s == [] || After(p, s[0]) then [p] + s else s + [p]
  }

  /** Brings the latest task to the front. */
  function Raise(s: seq<Task>): (r: seq<Task>)
    requires Distinct(s)
    ensures HeapOk(r) && |r| == |s| && forall t :: t in r <==> t in s
  {
    if s == [] then [] else Put(Raise(s[1..]), s[0])
  }

  // ---------------------------------------------------------------- one pass

  /** What a pass looks for: qualifying tasks later than the mark of the previous one. */
  ghost function Pending(view: seq<Task>, test: Task -> bool, mark: Task): set<Task> {
    set t | t in view && test(t) && After(t, mark)
  }

  lemma EarliestRoom(kept: set<Task>, all: set<Task>, p: Task, max: nat)
    requires Earliest(kept, all, max) && |kept| < max && p !in all
    ensures Earliest(kept + {p}, all + {p}, max)
  {
    SubsetSize(kept, all);
  }

  lemma EarliestLate(kept: set<Task>, all: set<Task>, top: Task, p: Task, max: nat)
    requires Earliest(kept, all, max) && |kept| == max && p !in all
    requires top in kept && (forall t :: t in kept && t != top ==> After(top, t)) && After(p, top)
    ensures Earliest(kept, all + {p}, max)
  {
  }

  lemma EarliestSwap(kept: set<Task>, all: set<Task>, top: Task, p: Task, max: nat)
    requires Earliest(kept, all, max) && |kept| == max && p !in all
    requires top in kept && (forall t :: t in kept && t != top ==> After(top, t)) && !After(p, top)
    ensures Earliest(kept - {top} + {p}, all + {p}, max)
  {
  }

  /** Scanning one more task keeps the heap holding the earliest. */
  lemma EarliestPlus(kept: seq<Task>, kept': seq<Task>, all: set<Task>, p: Task, max: nat)
    requires max > 0 && HeapOk(kept) && p !in all && Earliest(Elems(kept), all, max)
    requires |kept| < max ==> Elems(kept') == Elems(kept) + {p}
    requires |kept| == max && After(p, kept[0]) ==> kept' == kept
    requires |kept| == max && !After(p, kept[0]) ==> Elems(kept') == Elems(kept) - {kept[0]} + {p}
    ensures Earliest(Elems(kept'), all + {p}, max)
  {
    hide Earliest;
    SizeOfDistinct(kept);
    if |kept| < max {
      EarliestRoom(Elems(kept), all, p, max);
    } else {
      KeptSize(Elems(kept), all, max);
      if After(p, kept[0]) {
        EarliestLate(Elems(kept), all, kept[0], p, max);
      } else {
        EarliestSwap(Elems(kept), all, kept[0], p, max);
      }
    }
  }

  lemma KeptSize(kept: set<Task>, all: set<Task>, max: nat)
    requires Earliest(kept, all, max)
    ensures |kept| <= max
  {
  }

  lemma DistinctCounts(s: seq<Task>, t: Task)
    requires Distinct(s)
    ensures multiset(s)[t] == if t in s then 1 else 0
  {
    if s != [] {
      DistinctCounts(s[1..], t);
      assert s == [s[0]] + s[1..];
    }
  }

  /** Taking and dropping references as the heap changes leaves one for each entry. */
  lemma RefsFollow(held: multiset<Task>, s: seq<Task>, s': seq<Task>, gained: Task, lost: Option<Task>)
    requires Distinct(s) && Distinct(s') && held == multiset(s) && gained !in s
    requires lost.Some? ==> lost.value in s
    requires forall t :: t in s' <==> (t in s && lost != Some(t)) || t == gained
    ensures held + multiset{gained} - (if lost.Some? then multiset{lost.value} else multiset{}) == multiset(s')
  {
    var left := held + multiset{gained} - (if lost.Some? then multiset{lost.value} else multiset{});
    forall t ensures left[t] == multiset(s')[t] {
      DistinctCounts(s, t);
      DistinctCounts(s', t);
    }
  }

  lemma PendingPlus(view: seq<Task>, i: nat, test: Task -> bool, mark: Task)
    requires i < |view| && Distinct(view)
    ensures Pending(view[..i + 1], test, mark) ==
              Pending(view[..i], test, mark) + (if test(view[i]) && After(view[i], mark) then {view[i]} else {})
    ensures view[i] !in Pending(view[..i], test, mark)
  {
  }

  lemma KeptAmong(kept: seq<Task>, all: set<Task>, max: nat, p: Task)
    requires Earliest(Elems(kept), all, max)
    ensures p in kept ==> p in all
  {
  }

  /** Offering one task to the heap, with the references this takes and drops. */
  method Offer(heap: PtrHeap, p: Task, held: multiset<Task>, ghost all: set<Task>) returns (held': multiset<Task>)
    requires heap.Valid() && held == multiset(heap.ptrs) && Earliest(Elems(heap.ptrs), all, heap.max) && p !in all
    modifies heap`ptrs
    ensures heap.Valid() && held' == multiset(heap.ptrs) && Earliest(Elems(heap.ptrs), all + {p}, heap.max)
  {
    hide Earliest;
    ghost var was := heap.ptrs;
    KeptAmong(was, all, heap.max, p);
    var dropped := heap.Insert(p);
    EarliestPlus(was, heap.ptrs, all, p, heap.max);
    held' := held;
    if dropped == None {
      assert forall t :: t in heap.ptrs <==> t in Elems(heap.ptrs);
      RefsFollow(held, was, heap.ptrs, p, None);
      held' := held + multiset{p};
    } else if dropped.value != p {
      assert forall t :: t in heap.ptrs <==> t in Elems(heap.ptrs);
      RefsFollow(held, was, heap.ptrs, p, dropped);
      held' := held + multiset{p} - multiset{dropped.value};
    }
  }

  lemma PendingNone(view: seq<Task>, test: Task -> bool, mark: Task, max: nat)
    ensures Earliest(Elems([]), Pending(view[..0], test, mark), max)
  {
  }

  /**
   * The scanning half of a pass: the heap ends with the earliest qualifying tasks after
   * the mark, and one reference is held on each of them and on nothing else.
   */
  method Gather(heap: PtrHeap, view: seq<Task>, test: Task -> bool, mark: Task) returns (held: multiset<Task>)
    requires heap.Valid() && Distinct(view)
    modifies heap`ptrs
    ensures heap.Valid() && held == multiset(heap.ptrs)
    ensures Earliest(Elems(heap.ptrs), Pending(view, test, mark), heap.max)
  {
    hide Earliest, Elems, Pending;
    PendingNone(view, test, mark, heap.max);
    heap.ptrs := [];
    held := multiset{};
    var i := 0;
    while i < |view|
      invariant i <= |view|
      invariant heap.Valid() && held == multiset(heap.ptrs)
      invariant Earliest(Elems(heap.ptrs), Pending(view[..i], test, mark), heap.max)
    {
      var p := view[i];
      PendingPlus(view, i, test, mark);
      ghost var all := Pending(view[..i], test, mark);
      assert all + {} == all;
      i := i + 1;
      if !test(p) { continue; }
      if !After(p, mark) { continue; }
      held := Offer(heap, p, held, all);
    }
    assert view[..|view|] == view;
  }

  // ---------------------------------------------------------------- all passes

  ghost predicate Batch(b: seq<Task>, all: set<Task>, max: nat) {
    HeapOk(b) && Earliest(Elems(b), all, max)
  }

  /** The mark with which pass `i` starts. */
  function Mark(batches: seq<seq<Task>>, i: nat): Task
    requires i <= |batches| && (i > 0 ==> batches[i - 1] != [])
  {
    if i == 0 then START else batches[i - 1][0]
  }

  /**
   * The tasks processed in each pass, when pass `i` finds the tasks `view(i)` in the css:
   * each pass takes the earliest tasks after the mark, and all but the last pass are non-empty.
   */
  ghost predicate Passes(batches: seq<seq<Task>>, view: nat -> seq<Task>, test: Task -> bool, max: nat) {
    forall i :: 0 <= i < |batches| ==> PassOk(batches, view, test, max, i)
  }

  ghost predicate PassOk(batches: seq<seq<Task>>, view: nat -> seq<Task>, test: Task -> bool, max: nat, i: nat)
    requires i < |batches|
  {
    && (i > 0 ==> batches[i - 1] != [])
    && Batch(batches[i], Pending(view(i), test, Mark(batches, i)), max)
  }

  ghost predicate IsScan(batches: seq<seq<Task>>, view: nat -> seq<Task>, test: Task -> bool, max: nat) {
    Passes(batches, view, test, max) && batches != [] && batches[|batches| - 1] == []
  }

  lemma PassesPlus(batches: seq<seq<Task>>, b: seq<Task>, view: nat -> seq<Task>, test: Task -> bool, max: nat)
    requires Passes(batches, view, test, max) && (batches != [] ==> batches[|batches| - 1] != [])
    requires Batch(b, Pending(view(|batches|), test, Mark(batches, |batches|)), max)
    ensures Passes(batches + [b], view, test, max)
  {
    hide Batch, Pending;
    var bs := batches + [b];
    forall i | 0 <= i < |bs| ensures PassOk(bs, view, test, max, i) {
      assert i < |batches| ==> PassOk(batches, view, test, max, i);
    }
  }

  lemma PassMember(batches: seq<seq<Task>>, view: nat -> seq<Task>, test: Task -> bool, max: nat, i: nat, t: Task)
    requires Passes(batches, view, test, max) && i < |batches| && t in batches[i]
    ensures i > 0 ==> batches[i - 1] != []
    ensures t in view(i) && test(t) && After(t, Mark(batches, i))
    ensures t == batches[i][0] || After(batches[i][0], t)
  {
    assert PassOk(batches, view, test, max, i);
    hide Passes;
    assert t in Elems(batches[i]);
  }

  /** A pass handles only tasks later than everything handled before. */
  lemma {:induction false} Later(batches: seq<seq<Task>>, view: nat -> seq<Task>, test: Task -> bool, max: nat,
                                 i: nat, j: nat, t: Task, u: Task)
    requires Passes(batches, view, test, max) && i < j < |batches| && t in batches[i] && u in batches[j]
    ensures After(u, t)
    decreases j
  {
    hide Passes;
    PassMember(batches, view, test, max, j, u);
    var top := batches[j - 1][0];
    if i < j - 1 {
      Later(batches, view, test, max, i, j - 1, t, top);
    } else {
      PassMember(batches, view, test, max, i, t);
    }
  }

  /** What an earlier pass handles did not start later than what a later pass does. */
  lemma InStartOrder(batches: seq<seq<Task>>, view: nat -> seq<Task>, test: Task -> bool, max: nat,
                     i: nat, j: nat, t: Task, u: Task)
    requires Passes(batches, view, test, max) && i < j < |batches| && t in batches[i] && u in batches[j]
    requires t.nsec < 1_000_000_000 && u.nsec < 1_000_000_000
    ensures Nanos(t) < Nanos(u) || (Nanos(t) == Nanos(u) && t.ptr < u.ptr)
  {
    hide Passes;
    Later(batches, view, test, max, i, j, t, u);
    AfterMeans(u, t);
  }

  ghost function Handled(batches: seq<seq<Task>>): set<Task> {
    set i, t | 0 <= i < |batches| && t in batches[i] :: t
  }

  /** No task is processed twice: not within a pass and not by two passes. */
  lemma AtMostOnce(batches: seq<seq<Task>>, view: nat -> seq<Task>, test: Task -> bool, max: nat, i: nat, k: nat, j: nat, l: nat)
    requires Passes(batches, view, test, max)
    requires i < |batches| && k < |batches[i]| && j < |batches| && l < |batches[j]| && batches[i][k] == batches[j][l]
    ensures i == j && k == l
  {
    assert PassOk(batches, view, test, max, i);
    hide Passes;
    var t := batches[i][k];
    if i < j { Later(batches, view, test, max, i, j, t, t); }
    if j < i { Later(batches, view, test, max, j, i, t, t); }
  }

  /** Nothing left to do means no qualifying task is later than the last mark. */
  lemma LastPass(batches: seq<seq<Task>>, view: nat -> seq<Task>, test: Task -> bool, max: nat)
    requires IsScan(batches, view, test, max) && max > 0
    ensures |batches| > 1 ==> batches[|batches| - 2] != []
    ensures Pending(view(|batches| - 1), test, Mark(batches, |batches| - 1)) == {}
  {
    assert PassOk(batches, view, test, max, |batches| - 1);
    assert Elems([]) == {};
  }

  /** A task found by pass `i` and not later than the next mark is processed by pass `i`. */
  lemma Caught(batches: seq<seq<Task>>, view: nat -> seq<Task>, test: Task -> bool, max: nat, i: nat, t: Task)
    requires Passes(batches, view, test, max) && i + 1 < |batches|
    ensures (i > 0 ==> batches[i - 1] != []) && batches[i] != []
    ensures t in view(i) && test(t) && After(t, Mark(batches, i)) && !After(t, Mark(batches, i + 1)) ==> t in batches[i]
  {
    assert PassOk(batches, view, test, max, i);
    assert PassOk(batches, view, test, max, i + 1);
    hide Passes;
    assert batches[i][0] in Elems(batches[i]);
    assert t in Elems(batches[i]) <==> t in batches[i];
  }

  /** Some pass up to `n` has caught every task that all of them saw and that `n`'s mark has overtaken. */
  lemma {:induction false} Overtaken(batches: seq<seq<Task>>, view: nat -> seq<Task>, test: Task -> bool, max: nat, n: nat, t: Task)
    requires Passes(batches, view, test, max) && n < |batches| && test(t) && t.ptr != 0
    requires forall i :: 0 <= i < n ==> t in view(i)
    ensures n > 0 ==> batches[n - 1] != []
    ensures After(t, Mark(batches, n)) || t in Handled(batches)
  {
    if n > 0 {
      Caught(batches, view, test, max, n - 1, t);
      Overtaken(batches, view, test, max, n - 1, t);
    }
  }

  /**
   * The guarantee of css_scan_tasks: every qualifying task that each pass finds in the css is
   * processed, and only qualifying tasks that some pass found there are.
   */
  lemma EveryTaskProcessed(batches: seq<seq<Task>>, view: nat -> seq<Task>, test: Task -> bool, max: nat, t: Task)
    requires IsScan(batches, view, test, max) && max > 0 && t.ptr != 0
    ensures test(t) && (forall i :: 0 <= i < |batches| ==> t in view(i)) ==> t in Handled(batches)
    ensures t in Handled(batches) ==> test(t) && exists i :: 0 <= i < |batches| && t in view(i)
  {
    hide Passes;
    if test(t) && forall i :: 0 <= i < |batches| ==> t in view(i) {
      Overtaken(batches, view, test, max, |batches| - 1, t);
      LastPass(batches, view, test, max);
      assert t !in Pending(view(|batches| - 1), test, Mark(batches, |batches| - 1));
    }
    if t in Handled(batches) {
      var i :| 0 <= i < |batches| && t in batches[i];
      PassMember(batches, view, test, max, i, t);
    }
  }

  /** With a task set that does not change, exactly its qualifying tasks are processed. */
  lemma FixedSet(batches: seq<seq<Task>>, tasks: seq<Task>, test: Task -> bool, max: nat)
    requires IsScan(batches, n => tasks, test, max) && max > 0 && forall i :: 0 <= i < |tasks| ==> tasks[i].ptr != 0
    ensures Handled(batches) == set t | t in tasks && test(t)
  {
    hide IsScan;
    forall t | t in tasks ensures t in Handled(batches) <==> test(t) {
      EveryTaskProcessed(batches, n => tasks, test, max, t);
    }
    forall t | t in Handled(batches) ensures t in tasks {
      assert IsScan(batches, n => tasks, test, max);
      HandledInView(batches, n => tasks, test, max, t);
    }
  }

  lemma HandledInView(batches: seq<seq<Task>>, view: nat -> seq<Task>, test: Task -> bool, max: nat, t: Task)
    requires IsScan(batches, view, test, max) && t in Handled(batches)
    ensures exists i :: 0 <= i < |batches| && t in view(i)
  {
    var i :| 0 <= i < |batches| && t in batches[i];
    PassMember(batches, view, test, max, i, t);
  }

  /** A pass over an unchanged task set removes just its batch from what is pending. */
  lemma PendingLess(batches: seq<seq<Task>>, tasks: seq<Task>, test: Task -> bool, max: nat, i: nat)
    requires Passes(batches, n => tasks, test, max) && i + 1 < |batches|
    ensures (i > 0 ==> batches[i - 1] != []) && batches[i] != []
    ensures Pending(tasks, test, Mark(batches, i + 1)) == Pending(tasks, test, Mark(batches, i)) - Elems(batches[i])
    ensures |batches[i]| == var n := |Pending(tasks, test, Mark(batches, i))|; if n < max then n else max
    ensures |Pending(tasks, test, Mark(batches, i + 1))| == |Pending(tasks, test, Mark(batches, i))| - |batches[i]|
  {
    assert PassOk(batches, n => tasks, test, max, i);
    assert PassOk(batches, n => tasks, test, max, i + 1);
    hide Passes;
    var b := batches[i];
    var before, later := Pending(tasks, test, Mark(batches, i)), Pending(tasks, test, Mark(batches, i + 1));
    SizeOfDistinct(b);
    assert b[0] in Elems(b);
    forall t | t in before ensures t in later <==> t !in Elems(b) {
      if t in Elems(b) {
        assert t == b[0] || After(b[0], t);
      }
    }
    assert After(b[0], Mark(batches, i));
    assert later == before - Elems(b);
    assert Elems(b) <= before;
  }

  lemma OnePassMore(k: nat, n: nat, max: nat)
    requires n > 0 && max > 0
    requires var rest := if n < max then 0 else n - max; rest <= k * max < rest + max
    ensures n <= (k + 1) * max < n + max
  {
  }

  lemma {:induction false} PassCountFrom(batches: seq<seq<Task>>, tasks: seq<Task>, test: Task -> bool, max: nat, i: nat)
    requires IsScan(batches, n => tasks, test, max) && max > 0 && i < |batches|
    ensures i > 0 ==> batches[i - 1] != []
    ensures var n := |Pending(tasks, test, Mark(batches, i))|; n <= (|batches| - 1 - i) * max < n + max
    decreases |batches| - i
  {
    if i == |batches| - 1 {
      LastPass(batches, n => tasks, test, max);
    } else {
      hide IsScan, Passes;
      PassesOf(batches, n => tasks, test, max);
      PendingLess(batches, tasks, test, max, i);
      PassCountFrom(batches, tasks, test, max, i + 1);
      OnePassMore(|batches| - 2 - i, |Pending(tasks, test, Mark(batches, i))|, max);
    }
  }

  lemma PassesOf(batches: seq<seq<Task>>, view: nat -> seq<Task>, test: Task -> bool, max: nat)
    requires IsScan(batches, view, test, max)
    ensures Passes(batches, view, test, max)
  {
  }

  /** An unchanged set of n qualifying tasks takes n / max passes, rounded up, and one that finds nothing. */
  lemma PassCount(batches: seq<seq<Task>>, tasks: seq<Task>, test: Task -> bool, max: nat)
    requires IsScan(batches, n => tasks, test, max) && max > 0 && forall i :: 0 <= i < |tasks| ==> tasks[i].ptr != 0
    ensures var n := |set t | t in tasks && test(t)|; n <= (|batches| - 1) * max < n + max
  {
    PassCountFrom(batches, tasks, test, max, 0);
    assert Pending(tasks, test, START) == set t | t in tasks && test(t);
  }

  lemma ProcessOne(ptrs: seq<Task>, i: nat)
    requires i < |ptrs|
    ensures multiset(ptrs[i..]) - multiset{ptrs[i]} == multiset(ptrs[i + 1..])
  {
    assert ptrs[i..] == [ptrs[i]] + ptrs[i + 1..];
  }

  /** The processing half of a pass: every gathered task once, each with its reference dropped. */
  method Process(heap: PtrHeap, held: multiset<Task>) returns (batch: seq<Task>, mark: Task, held': multiset<Task>)
    requires heap.ptrs != [] && held == multiset(heap.ptrs)
    ensures batch == heap.ptrs && mark == heap.ptrs[0] && held' == multiset{}
  {
    batch, held', mark := [], held, START;
    var i := 0;
    assert heap.ptrs[0..] == heap.ptrs;
    while i < |heap.ptrs|
      invariant i <= |heap.ptrs| && batch == heap.ptrs[..i]
      invariant i > 0 ==> mark == heap.ptrs[0]
      invariant held' == multiset(heap.ptrs[i..])
    {
      var q := heap.ptrs[i];
      if i == 0 { mark := q; }
      ProcessOne(heap.ptrs, i);
      batch := batch + [q];
      held' := held' - multiset{q};
      i := i + 1;
    }
  }

  lemma HandledGrows(batches: seq<seq<Task>>, b: seq<Task>, view: nat -> seq<Task>, test: Task -> bool, max: nat, universe: set<Task>)
    requires Passes(batches + [b], view, test, max) && Handled(batches) <= universe && b != []
    requires forall t :: t in view(|batches|) ==> t in universe
    ensures Handled(batches) < Handled(batches + [b]) <= universe
  {
    hide Passes;
    var bs := batches + [b];
    assert forall t :: t in Handled(bs) <==> t in Handled(batches) || t in bs[|batches|] by {
      assert forall i :: 0 <= i < |batches| ==> bs[i] == batches[i];
    }
    forall t | t in b ensures t in universe {
      PassMember(bs, view, test, max, |batches|, t);
    }
    if b[0] in Handled(batches) {
      var i :| 0 <= i < |batches| && b[0] in batches[i];
      Later(bs, view, test, max, i, |batches|, b[0], b[0]);
    }
    assert b[0] in bs[|batches|];
  }

  /**
   * css_scan_tasks. Pass n finds the tasks view(n) in the css; `universe` is any finite set that
   * covers them all. Each entry of `batches` lists the tasks processed by one pass.
   */
  method Scan(heap: PtrHeap, view: nat -> seq<Task>, test: Task -> bool, ghost universe: set<Task>)
    returns (batches: seq<seq<Task>>, held: multiset<Task>)
    requires heap.Valid() && forall n :: Distinct(view(n))
    requires forall n, t :: t in view(n) ==> t in universe
    modifies heap`ptrs
    ensures IsScan(batches, view, test, heap.max) && held == multiset{}
  {
    hide Earliest, Pending, Passes, Handled;
    batches, held := [], multiset{};
    var mark := START;
    NonePassed(view, test, heap.max);
    while true
      invariant heap.Valid() && held == multiset{}
      invariant Passes(batches, view, test, heap.max) && Handled(batches) <= universe
      invariant (batches != [] ==> batches[|batches| - 1] != []) && mark == Mark(batches, |batches|)
      decreases universe - Handled(batches)
    {
      held := Gather(heap, view(|batches|), test, mark);
      PassesPlus(batches, heap.ptrs, view, test, heap.max);
      if heap.ptrs == [] {
        batches := batches + [[]];
        return;
      }
      HandledGrows(batches, heap.ptrs, view, test, heap.max, universe);
      var batch;
      batch, mark, held := Process(heap, held);
      batches := batches + [batch];
    }
  }

  lemma NonePassed(view: nat -> seq<Task>, test: Task -> bool, max: nat)
    ensures Passes([], view, test, max) && Handled([]) == {}
  {
  }
}
