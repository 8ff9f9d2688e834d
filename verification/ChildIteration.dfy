/** One iteration over a parent's children while children are created, marked
    dead and taken off the list between any two of its steps. */
module ChildIteration {
  import opened Hierarchy
  import opened Lists
  import opened Options

  /** `kids` is the sibling list, `dead` the cgroups marked CGRP_DEAD, `next` the
      serial-number counter, `pos` the cursor and `visited` what it returned. */
  datatype State = State(kids: seq<nat>, dead: set<nat>, next: nat, pos: Option<nat>, visited: seq<nat>, done: bool)

  datatype Event = Create | Kill(c: nat) | Unlink(c: nat) | Advance

  ghost predicate Start(s: State) {
    && Ascending(s.kids) && (forall i :: 0 <= i < |s.kids| ==> s.kids[i] < s.next)
    && s.pos == None && s.visited == [] && !s.done
  }

  /** Death is marked before the cgroup leaves the list. */
  ghost predicate Step(s: State, e: Event, t: State) {
    match e
    case Create => t == s.(kids := s.kids + [s.next], next := s.next + 1)
    case Kill(c) => c in s.kids && c !in s.dead && t == s.(dead := s.dead + {c})
    case Unlink(c) => c in s.kids && c in s.dead && t == s.(kids := Without(s.kids, c))
    case Advance =>
      !s.done && exists r :: IsNextChild(s.kids, s.pos, r) && t == Moved(s, r)
  }

  ghost function Moved(s: State, r: Option<nat>): State {
    if r.Some? then s.(pos := r, visited := s.visited + [r.value]) else s.(done := true)
  }

  ghost predicate Inv(s: State) {
    && Ascending(s.kids) && (forall i :: 0 <= i < |s.kids| ==> s.kids[i] < s.next)
    && Ascending(s.visited) && (forall i :: 0 <= i < |s.visited| ==> s.visited[i] < s.next)
    && s.pos == (if s.visited == [] then None else Some(s.visited[|s.visited| - 1]))
    && (s.pos.Some? ==> s.pos.value in s.kids || s.pos.value in s.dead)
    && (forall c :: c in s.kids && s.pos.Some? && c <= s.pos.value ==> c in s.visited)
  }

  lemma WithoutKeeps(kids: seq<nat>, c: nat)
    requires Ascending(kids) && c in kids
    ensures Ascending(Without(kids, c))
  {
    WithoutOrdered(kids, c, (x, y) => x < y);
  }

  lemma StepKeepsInv(s: State, e: Event, t: State)
    requires Inv(s) && Step(s, e, t)
    ensures Inv(t)
  {
    match e {
      case Create => AppendAscending(s.kids, s.next);
      case Kill(c) =>
      case Unlink(c) => UnlinkKeepsInv(s, c, t);
      case Advance =>
        var r :| IsNextChild(s.kids, s.pos, r) && t == Moved(s, r);
        AdvanceKeepsInv(s, r, t);
    }
  }

  lemma UnlinkKeepsInv(s: State, c: nat, t: State)
    requires Inv(s) && Step(s, Unlink(c), t)
    ensures Inv(t)
  {
    WithoutKeeps(s.kids, c);
    forall i | 0 <= i < |t.kids| ensures t.kids[i] < t.next {
      assert t.kids[i] in t.kids;
    }
  }

  lemma AdvanceKeepsInv(s: State, r: Option<nat>, t: State)
    requires Inv(s) && IsNextChild(s.kids, s.pos, r) && t == Moved(s, r)
    ensures Inv(t)
  {
    if r.Some? {
      assert forall i :: 0 <= i < |s.visited| ==> s.visited[i] <= s.visited[|s.visited| - 1];
      AppendAscending(s.visited, r.value);
      forall c | c in t.kids && c <= r.value ensures c in t.visited {
        if c == r.value { assert t.visited[|s.visited|] == c; }
      }
    }
  }

  /** Only creation adds to the list, and only numbers from the counter on. */
  lemma StepAddsNoOld(s: State, e: Event, t: State, c: nat)
    requires Inv(s) && Step(s, e, t) && c < s.next && c in t.kids
    ensures c in s.kids && s.next <= t.next
  {
    if e.Unlink? { WithoutKeeps(s.kids, e.c); }
  }

  /** The cursor can always be advanced by css_next_child: a position that is not
      marked dead is still listed. */
  method AdvanceCursor(s: State) returns (r: Option<nat>, t: State)
    requires Inv(s) && !s.done
    ensures Step(s, Advance, t) && Inv(t)
    ensures IsNextChild(s.kids, s.pos, r) && (t.done <==> r.None?)
  {
    r := NextChild(s.kids, s.dead, s.pos);
    t := if r.Some? then s.(pos := r, visited := s.visited + [r.value]) else s.(done := true);
    assert t == Moved(s, r);
    StepKeepsInv(s, Advance, t);
  }

  ghost predicate IsRun(states: seq<State>, events: seq<Event>) {
    && |states| == |events| + 1
    && Start(states[0])
    && forall i :: 0 <= i < |events| ==> Step(states[i], events[i], states[i + 1])
  }

  lemma {:induction false} RunKeepsInv(states: seq<State>, events: seq<Event>, n: nat)
    requires IsRun(states, events) && n < |states|
    ensures Inv(states[n])
  {
    if n > 0 {
      RunKeepsInv(states, events, n - 1);
      StepKeepsInv(states[n - 1], events[n - 1], states[n]);
    }
  }

  /** However creation and removal interleave, an iteration returns strictly
      increasing serial numbers, and when it ends every child then listed (so every
      child that was never unlinked) has been returned, at exactly one place. */
  lemma IterationIsComplete(states: seq<State>, events: seq<Event>)
    requires IsRun(states, events) && |events| > 0
    ensures var last := states[|events|];
            && Ascending(last.visited)
            && (events[|events| - 1] == Advance && last.done ==>
                  forall c :: c in last.kids ==>
                    exists i :: 0 <= i < |last.visited| && last.visited[i] == c
                                && forall j :: 0 <= j < |last.visited| && j != i ==> last.visited[j] != c)
  {
    var n := |events|;
    RunKeepsInv(states, events, n - 1);
    RunKeepsInv(states, events, n);
    var s, t := states[n - 1], states[n];
    assert Step(s, events[n - 1], t);
    if events[n - 1] == Advance && t.done {
      forall c | c in t.kids
        ensures exists i :: 0 <= i < |t.visited| && t.visited[i] == c
                            && forall j :: 0 <= j < |t.visited| && j != i ==> t.visited[j] != c
      {
        assert c in t.visited;
        var i := IndexOf(t.visited, c);
        assert forall j :: 0 <= j < |t.visited| && j != i ==> t.visited[j] != c;
      }
    }
  }

  /** A child that is listed at the end and was listed at the start was listed throughout. */
  lemma {:induction false} ListedThroughout(states: seq<State>, events: seq<Event>, c: nat, m: nat, n: nat)
    requires IsRun(states, events) && m <= n < |states|
    requires c < states[m].next && c in states[n].kids
    ensures c in states[m].kids
    decreases n
  {
    if m < n {
      assert Step(states[n - 1], events[n - 1], states[n]);
      hide IsRun, Inv, Step;
      RunKeepsInv(states, events, n - 1);
      NextGrows(states, events, m, n - 1);
      StepAddsNoOld(states[n - 1], events[n - 1], states[n], c);
      ListedThroughout(states, events, c, m, n - 1);
    }
  }

  lemma {:induction false} NextGrows(states: seq<State>, events: seq<Event>, m: nat, n: nat)
    requires IsRun(states, events) && m <= n < |states|
    ensures states[m].next <= states[n].next
    decreases n
  {
    if m < n {
      NextGrows(states, events, m, n - 1);
      assert Step(states[n - 1], events[n - 1], states[n]);
    }
  }
}
