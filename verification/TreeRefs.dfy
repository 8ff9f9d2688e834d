/**
 * The chunk references of an audit context: a chain of blocks of 31 slots,
 * filled from the last slot of a block down to its first.
 */
module TreeRefs {
  import opened Options

  const SLOTS := 31

  type Slots = seq<Option<nat>>

  // ------------------------------------------------- blocks read as one stack

  /** How many slots are filled before slot `n` of block `b`. */
  function Pos(b: int, n: int): int { SLOTS * b + SLOTS - 1 - n }

  ghost predicate Shaped(blocks: seq<Slots>) {
    forall b :: 0 <= b < |blocks| ==> |blocks[b]| == SLOTS
  }

  /** Exactly the first `size` slots hold a chunk: no NULL below, nothing stale above. */
  ghost predicate Filled(blocks: seq<Slots>, size: nat) {
    && Shaped(blocks) && size <= SLOTS * |blocks|
    && forall b, n :: 0 <= b < |blocks| && 0 <= n < SLOTS ==> (blocks[b][n].Some? <==> Pos(b, n) < size)
  }

  function Nth(blocks: seq<Slots>, k: nat): Option<nat>
    requires Shaped(blocks) && k < SLOTS * |blocks|
  {
    blocks[k / SLOTS][SLOTS - 1 - k % SLOTS]
  }

  lemma NthSome(blocks: seq<Slots>, size: nat, k: nat)
    requires Filled(blocks, size) && k < size
    ensures Nth(blocks, k).Some?
  {
  }

  /** The references in the order in which they were put. */
  ghost function Flat(blocks: seq<Slots>, size: nat): (r: seq<nat>)
    requires Filled(blocks, size)
    ensures |r| == size
    ensures forall k :: 0 <= k < size ==> Nth(blocks, k) == Some(r[k])
  {
    seq(size, k requires 0 <= k < size => NthSome(blocks, size, k); Nth(blocks, k).value)
  }

  lemma PutFills(blocks: seq<Slots>, size: nat, b: nat, n: nat, x: nat)
    requires Filled(blocks, size) && b < |blocks| && n < SLOTS && Pos(b, n) == size
    ensures Filled(blocks[b := blocks[b][n := Some(x)]], size + 1)
    ensures Flat(blocks[b := blocks[b][n := Some(x)]], size + 1) == Flat(blocks, size) + [x]
  {
  }

  function Nulls(): Slots { seq(SLOTS, i => None) }

  lemma GrowFills(blocks: seq<Slots>, size: nat)
    requires Filled(blocks, size)
    ensures Filled(blocks + [Nulls()], size) && Flat(blocks + [Nulls()], size) == Flat(blocks, size)
  {
  }

  /** `now` is `was` with the slots at positions lo to hi cleared. */
  ghost predicate Cleared(was: seq<Slots>, now: seq<Slots>, lo: int, hi: int) {
    && Shaped(was) && Shaped(now) && |was| == |now|
    && forall b, n :: 0 <= b < |was| && 0 <= n < SLOTS ==>
         now[b][n] == if lo <= Pos(b, n) < hi then None else was[b][n]
  }

  /** An unroll in progress: the blocks, the size and the references at its start, and the size it goes back to. */
  datatype Unrolling = Unrolling(was: seq<Slots>, size: nat, lo: nat, held: multiset<nat>)

  /** All references from `lo` up to `hi` are dropped, each once and in order. */
  ghost predicate Unrolled(u: Unrolling, now: seq<Slots>, held: multiset<nat>, dropped: seq<nat>, hi: int) {
    && Filled(u.was, u.size) && u.lo <= hi <= u.size && Cleared(u.was, now, u.lo, hi)
    && dropped == Flat(u.was, u.size)[u.lo..hi] && held == u.held - multiset(dropped)
  }

  lemma UnrollStart(was: seq<Slots>, size: nat, lo: nat, held: multiset<nat>)
    requires Filled(was, size) && lo <= size
    ensures Unrolled(Unrolling(was, size, lo, held), was, held, [], lo)
  {
  }

  lemma UnrollStep(u: Unrolling, now: seq<Slots>, held: multiset<nat>, dropped: seq<nat>, b: nat, n: nat)
    requires b < |now| && n < SLOTS && Pos(b, n) < u.size && Unrolled(u, now, held, dropped, Pos(b, n))
    ensures |now[b]| == SLOTS && now[b][n].Some?
    ensures Unrolled(u, now[b := now[b][n := None]], held - multiset{now[b][n].value}, dropped + [now[b][n].value], Pos(b, n) + 1)
  {
  }

  lemma UnrolledBound(u: Unrolling, now: seq<Slots>, held: multiset<nat>, dropped: seq<nat>, hi: int)
    requires Unrolled(u, now, held, dropped, hi)
    ensures u.lo <= hi <= u.size
  {
  }

  lemma UnrollEnd(u: Unrolling, now: seq<Slots>, held: multiset<nat>, dropped: seq<nat>)
    requires Unrolled(u, now, held, dropped, u.size)
    ensures Filled(u.was, u.size) && u.lo <= u.size && Filled(now, u.lo)
    ensures Flat(now, u.lo) == Flat(u.was, u.size)[..u.lo] && dropped == Flat(u.was, u.size)[u.lo..]
    ensures held == u.held - multiset(dropped)
  {
  }

  ghost function SnapSize(k: int, count: nat): int {
    if k == -1 then 0 else Pos(k, count) + 1
  }

  lemma SlotValue(blocks: seq<Slots>, size: nat, b: nat, n: nat)
    requires Filled(blocks, size) && b < |blocks| && n < SLOTS && Pos(b, n) < size
    ensures |blocks[b]| == SLOTS && blocks[b][n] == Some(Flat(blocks, size)[Pos(b, n)])
  {
  }

  /** The chunks found along a path. */
  /** The blocks of the chain before try `n`: each try that does not fit, and is followed by another, adds one. */
  ghost function BlocksAt(view: nat -> seq<Option<nat>>, size: nat, blocks: nat, n: nat): nat
    decreases n, 0
  {
    if n == 0 then blocks else
      BlocksAt(view, size, blocks, n - 1) + if FitsAt(view, size, blocks, n - 1) then 0 else 1
  }

  /** The chunks of try `n` find slots, `size` being taken. */
  ghost predicate FitsAt(view: nat -> seq<Option<nat>>, size: nat, blocks: nat, n: nat)
    decreases n, 1
  {
    size + |Tagged(view(n))| <= SLOTS * BlocksAt(view, size, blocks, n)
  }

  /** Each of the first `n` tries met a rename, or did not fit and found memory for another block. */
  ghost predicate Retried(view: nat -> seq<Option<nat>>, renamed: nat -> bool, memory: nat -> bool, size: nat, blocks: nat, n: nat) {
    forall i :: 0 <= i < n ==> if FitsAt(view, size, blocks, i) then renamed(i) else memory(i)
  }

  lemma RetriedStep(view: nat -> seq<Option<nat>>, renamed: nat -> bool, memory: nat -> bool, size: nat, blocks: nat, n: nat)
    requires Retried(view, renamed, memory, size, blocks, n) && if FitsAt(view, size, blocks, n) then renamed(n) else memory(n)
    ensures Retried(view, renamed, memory, size, blocks, n + 1)
    ensures BlocksAt(view, size, blocks, n + 1) == BlocksAt(view, size, blocks, n) + if FitsAt(view, size, blocks, n) then 0 else 1
  {
  }

  lemma FitsIs(view: nat -> seq<Option<nat>>, size: nat, blocks: nat, n: nat)
    ensures FitsAt(view, size, blocks, n) <==> size + |Tagged(view(n))| <= SLOTS * BlocksAt(view, size, blocks, n)
  {
  }

  lemma NotYetTried(view: nat -> seq<Option<nat>>, renamed: nat -> bool, memory: nat -> bool, size: nat, blocks: nat)
    ensures Retried(view, renamed, memory, size, blocks, 0) && BlocksAt(view, size, blocks, 0) == blocks
  {
  }

  function Tagged(path: seq<Option<nat>>): (r: seq<nat>)
    ensures |r| <= |path|
  {
    if path == [] then []
    else
      var last := path[|path| - 1];
      Tagged(path[..|path| - 1]) + if last.Some? then [last.value] else []
  }

  lemma TaggedPlus(path: seq<Option<nat>>, i: nat)
    requires i < |path|
    ensures Tagged(path[..i + 1]) == Tagged(path[..i]) + if path[i].Some? then [path[i].value] else []
    ensures |Tagged(path[..i])| + (if path[i].Some? then 1 else 0) <= |Tagged(path)|
  {
    assert path[..i + 1][..i] == path[..i];
    TaggedGrows(path, i + 1);
  }

  lemma {:induction false} TaggedGrows(path: seq<Option<nat>>, i: nat)
    requires i <= |path|
    ensures |Tagged(path[..i])| <= |Tagged(path)|
  {
    if i == |path| {
      assert path[..i] == path;
    } else {
      TaggedGrows(path[..|path| - 1], i);
      assert path[..|path| - 1][..i] == path[..i];
    }
  }

  lemma NoneTagged(path: seq<Option<nat>>)
    ensures Tagged(path[..0]) == []
  {
  }

  lemma Assoc(a: seq<nat>, b: seq<nat>, x: nat)
    ensures a + (b + [x]) == a + b + [x]
  {
  }

  lemma TakeBack(c: seq<nat>, n: nat)
    requires n <= |c|
    ensures multiset(c) - multiset(c[n..]) == multiset(c[..n])
  {
    assert c == c[..n] + c[n..];
  }

  ghost function Short(need: nat, room: nat): nat {
    if need > room then need - room else 0
  }

  /** Another block brings the longest path closer to fitting. */
  lemma ShortShrinks(size: nat, found: nat, depth: nat, blocks: nat)
    requires found <= depth && size + found > SLOTS * blocks
    ensures Short(size + depth, SLOTS * (blocks + 1)) < Short(size + depth, SLOTS * blocks)
  {
  }

  lemma OneMore(c: seq<nat>, x: nat)
    ensures multiset(c + [x]) == multiset(c) + multiset{x} && c + [] == c
  {
  }

  // ---------------------------------------------------------------- the chain

  class Block {
    var next: Block?
    var c: Slots

    constructor ()
      ensures next == null && c == Nulls()
    {
      next := null;
      c := Nulls();
    }
  }

  ghost function BlocksOf(chain: seq<Block>): (r: seq<Slots>)
    reads chain
    ensures |r| == |chain| && forall i :: 0 <= i < |r| ==> r[i] == chain[i].c
  {
    if chain == [] then [] else BlocksOf(chain[..|chain| - 1]) + [chain[|chain| - 1].c]
  }

  /** The blocks are distinct and each points to the next. */
  ghost predicate Chained(chain: seq<Block>) reads chain {
    && (forall i, j :: 0 <= i < j < |chain| ==> chain[i] != chain[j])
    && (forall i :: 0 <= i < |chain| ==> |chain[i].c| == SLOTS)
    && (forall i {:trigger chain[i].next} :: 0 <= i < |chain| ==>
          chain[i].next == if i + 1 < |chain| then chain[i + 1] else null)
  }

  lemma NextOf(chain: seq<Block>, b: nat)
    requires Chained(chain) && b < |chain|
    ensures chain[b].next == if b + 1 < |chain| then chain[b + 1] else null
  {
  }

  lemma Differ(chain: seq<Block>, i: nat, j: nat)
    requires Chained(chain) && i < |chain| && j < |chain|
    ensures i != j ==> chain[i] != chain[j]
  {
  }

  method SetSlot(ghost chain: seq<Block>, q: Block, ghost b: nat, n: nat, v: Option<nat>)
    requires Chained(chain) && b < |chain| && q == chain[b] && n < SLOTS
    modifies q`c
    ensures Chained(chain) && BlocksOf(chain) == old(BlocksOf(chain))[b := old(BlocksOf(chain))[b][n := v]]
  {
    q.c := q.c[n := v];
    assert forall i :: 0 <= i < |chain| ==> chain[i].next == old(chain[i].next);
  }

  lemma BlocksPlus(chain: seq<Block>, q: Block)
    ensures BlocksOf(chain + [q]) == BlocksOf(chain) + [q.c]
  {
  }

  /** Appending a zeroed block. */
  method Append(ghost chain: seq<Block>, p: Block?) returns (q: Block)
    requires Chained(chain) && p == if chain == [] then null else chain[|chain| - 1]
    modifies if p == null then {} else {p}
    ensures fresh(q) && Chained(chain + [q]) && BlocksOf(chain + [q]) == old(BlocksOf(chain)) + [Nulls()]
  {
    hide BlocksOf;
    q := new Block();
    if p != null {
      p.next := q;
      assert forall i :: 0 <= i < |chain| - 1 ==> chain[i].next == old(chain[i].next);
    }
    BlocksPlus(chain, q);
    assert BlocksOf(chain) == old(BlocksOf(chain));
  }

  /** A put, and a put whose failure is followed by growing the chain. */
  datatype Op = Put(x: nat) | PutGrowing(x: nat, memory: bool)

  /** What a run of puts records when it starts with `free` empty slots: growing a full chain gives 31 more. */
  function Taken(ops: seq<Op>, free: nat): seq<nat> {
    if ops == [] then []
    else if free > 0 then [ops[0].x] + Taken(ops[1..], free - 1)
    else Taken(ops[1..], FreeAfter(ops[0], 0))
  }

  function FreeAfter(op: Op, free: nat): nat {
    if free > 0 then free - 1 else if op.PutGrowing? && op.memory then SLOTS else 0
  }

  lemma TakenStep(ops: seq<Op>, i: nat, free: nat)
    requires i < |ops|
    ensures Taken(ops[i..], free) == (if free > 0 then [ops[i].x] else []) + Taken(ops[i + 1..], FreeAfter(ops[i], free))
  {
    assert ops[i..][1..] == ops[i + 1..];
  }

  lemma NoneTaken(ops: seq<Op>, free: nat)
    ensures Taken(ops[|ops|..], free) == []
  {
  }

  lemma Assoc3(a: seq<nat>, b: seq<nat>, c: seq<nat>)
    ensures a + (b + c) == a + b + c
  {
  }

  class AuditContext {
    var firstTrees: Block?
    var trees: Block?
    var treeCount: nat
    /** The chunk references this context owns. */
    var held: multiset<nat>
    var prio: nat
    var recording: bool

    ghost var chain: seq<Block>
    ghost var cur: int

    ghost predicate Linked() reads `firstTrees, `trees, `treeCount, `chain, `cur, chain {
      && Chained(chain) && -1 <= cur < |chain| && (cur == -1 <==> chain == []) && treeCount <= SLOTS && (cur == -1 ==> treeCount == 0)
      && firstTrees == (if chain == [] then null else chain[0]) && trees == (if cur == -1 then null else chain[cur])
    }

    ghost function Size(): nat
      requires Linked()
      reads `firstTrees, `trees, `treeCount, `chain, `cur, chain
    {
      if cur == -1 then 0 else SLOTS * cur + SLOTS - treeCount
    }

    ghost predicate Valid() reads `firstTrees, `trees, `treeCount, `chain, `cur, chain {
      Linked() && Filled(BlocksOf(chain), Size())
    }

    /** The references in the order in which they were put. */
    ghost function Contents(): (r: seq<nat>)
      requires Valid()
      reads `firstTrees, `trees, `treeCount, `chain, `cur, chain
      ensures |r| == Size() <= SLOTS * |chain|
    {
      Flat(BlocksOf(chain), Size())
    }

    constructor ()
      ensures Valid() && Contents() == [] && held == multiset{} && trees == null && chain == []
    {
      firstTrees, trees, treeCount, held, prio, recording := null, null, 0, multiset{}, 0, false;
      chain, cur := [], -1;
    }

    /** put_tree_ref: fails exactly when every slot of the chain is taken. */
    method PutTreeRef(chunk: nat) returns (ok: bool)
      requires Valid()
      modifies `trees, `treeCount, `cur, chain
      ensures Valid() && chain == old(chain) && (ok <==> |old(Contents())| < SLOTS * |chain|)
      ensures Contents() == old(Contents()) + (if ok then [chunk] else []) && cur >= old(cur)
      ensures !ok ==> trees == old(trees) && treeCount == old(treeCount)
    {
      hide Filled, Flat, Chained, BlocksOf, Nth;
      var p := trees;
      var left := treeCount;
      ghost var was, size := BlocksOf(chain), Size();
      if left != 0 {
        left := left - 1;
        SetSlot(chain, p, cur, left, Some(chunk));
        PutFills(was, size, cur, left, chunk);
        treeCount := left;
        return true;
      }
      if p == null { return false; }
      NextOf(chain, cur);
      p := p.next;
      if p != null {
        SetSlot(chain, p, cur + 1, SLOTS - 1, Some(chunk));
        PutFills(was, size, cur + 1, SLOTS - 1, chunk);
        trees, cur := p, cur + 1;
        treeCount := SLOTS - 1;
        return true;
      }
      return false;
    }

    /** grow_tree_refs, called only when a put has failed. `memory` says whether the allocation succeeds. */
    method GrowTreeRefs(memory: bool) returns (ok: bool)
      requires Valid() && |Contents()| == SLOTS * |chain|
      modifies `firstTrees, `trees, `treeCount, `chain, `cur, chain
      ensures Valid() && Contents() == old(Contents()) && ok == memory && cur >= old(cur)
      ensures ok ==> |chain| == |old(chain)| + 1 && old(chain) <= chain && fresh(chain[|chain| - 1])
      ensures !ok ==> chain == old(chain) && trees == old(trees) && treeCount == old(treeCount)
    {
      hide Filled, Flat, Chained, BlocksOf, Nth;
      if !memory { return false; }
      GrowFills(BlocksOf(chain), Size());
      var q := Append(chain, trees);
      if trees == null { firstTrees := q; }
      trees := q;
      cur := |chain|;
      chain := chain + [trees];
      treeCount := SLOTS;
      return true;
    }

    /** audit_put_chunk on one slot. */
    method DropSlot(q: Block, ghost b: nat, n: nat, dropped: seq<nat>, ghost u: Unrolling) returns (dropped': seq<nat>)
      requires Chained(chain) && b < |chain| && q == chain[b] && n < SLOTS && Pos(b, n) < u.size
      requires Unrolled(u, BlocksOf(chain), held, dropped, Pos(b, n))
      modifies `held, q`c
      ensures Chained(chain) && Unrolled(u, BlocksOf(chain), held, dropped', Pos(b, n) + 1)
    {
      hide Chained, Unrolled;
      UnrollStep(u, BlocksOf(chain), held, dropped, b, n);
      var x := q.c[n].value;
      held := held - multiset{x};
      dropped' := dropped + [x];
      SetSlot(chain, q, b, n, None);
    }

    /** Drops the slots of one block from the one before `from` down to `stop`. */
    method DropDown(q: Block, ghost b: nat, from: nat, stop: nat, dropped: seq<nat>, ghost u: Unrolling) returns (dropped': seq<nat>)
      requires Chained(chain) && b < |chain| && q == chain[b] && stop <= from <= SLOTS && Pos(b, stop) < u.size
      requires Unrolled(u, BlocksOf(chain), held, dropped, Pos(b, from) + 1)
      modifies `held, q`c
      ensures Chained(chain) && Unrolled(u, BlocksOf(chain), held, dropped', Pos(b, stop) + 1)
    {
      hide Chained, Unrolled, BlocksOf;
      dropped' := dropped;
      var n := from;
      while n > stop
        invariant stop <= n <= from && Chained(chain) && Unrolled(u, BlocksOf(chain), held, dropped', Pos(b, n) + 1)
      {
        n := n - 1;
        dropped' := DropSlot(q, b, n, dropped', u);
      }
    }

    /** The loops of unroll_tree_refs, from slot `count` of block `p`, the k-th of the chain, to the end of the data. */
    method DropSince(p: Block, count: nat, ghost k: nat, ghost u: Unrolling) returns (dropped: seq<nat>)
      requires Linked() && k <= cur && p == chain[k] && count <= SLOTS && u.size == Size()
      requires Unrolled(u, BlocksOf(chain), held, [], Pos(k, count) + 1)
      modifies `held, chain
      ensures Chained(chain) && Unrolled(u, BlocksOf(chain), held, dropped, u.size)
    {
      hide Chained, Unrolled, BlocksOf;
      dropped := [];
      var n, q := count, p;
      ghost var b := k;
      UnrolledBound(u, BlocksOf(chain), held, [], Pos(k, count) + 1);
      while q != trees
        invariant k <= b <= cur && q == chain[b] && n == (if b == k then count else SLOTS)
        invariant Chained(chain) && Unrolled(u, BlocksOf(chain), held, dropped, Pos(b, n) + 1)
        decreases cur - b
      {
        Differ(chain, b, cur);
        dropped := DropDown(q, b, n, 0, dropped, u);
        NextOf(chain, b);
        q, n, b := q.next, SLOTS, b + 1;
      }
      Differ(chain, b, cur);
      dropped := DropDown(q, b, n, treeCount, dropped, u);
    }

    /** `p` and `count` are the position after the first SnapSize(k, count) references; k is p's place in the chain. */
    ghost predicate IsSnapshot(p: Block?, count: nat, k: int)
      requires Valid()
      reads `firstTrees, `trees, `treeCount, `chain, `cur, chain
    {
      || (k == -1 && p == null)
      || (0 <= k <= cur && k < |chain| && p == chain[k] && count <= SLOTS && SnapSize(k, count) <= |Contents()|)
    }

    lemma SnapshotIs(p: Block?, count: nat, k: int)
      requires Valid()
      ensures IsSnapshot(p, count, k) <==>
              || (k == -1 && p == null)
              || (0 <= k <= cur && k < |chain| && p == chain[k] && count <= SLOTS && SnapSize(k, count) <= |Contents()|)
    {
    }

    lemma SnapshotNow()
      requires Valid()
      ensures IsSnapshot(trees, treeCount, cur) && SnapSize(cur, treeCount) == |Contents()|
      ensures cur == -1 <==> chain == []
    {
    }

    /**
     * unroll_tree_refs: back to exactly what was there at the snapshot, with each later reference
     * dropped once.
     */
    method UnrollTreeRefs(p: Block?, count: nat, ghost k: int) returns (dropped: seq<nat>)
      requires Valid() && IsSnapshot(p, count, k)
      modifies `trees, `treeCount, `cur, `held, chain
      ensures Valid() && chain == old(chain)
      ensures Contents() == old(Contents())[..SnapSize(k, count)] && dropped == old(Contents())[SnapSize(k, count)..]
      ensures held == old(held) - multiset(dropped)
      ensures Restored(p, count) && (k >= 0 ==> cur == k)
    {
      hide Filled, Flat, Chained, BlocksOf, Unrolled, Nth;
      if p == null {
        if firstTrees == null { return []; }
        dropped := UnrollTo(firstTrees, SLOTS, 0);
      } else {
        dropped := UnrollTo(p, count, k);
      }
    }

    method UnrollTo(p: Block, count: nat, ghost k: nat) returns (dropped: seq<nat>)
      requires Valid() && k <= cur && p == chain[k] && count <= SLOTS && Pos(k, count) + 1 <= Size()
      modifies `trees, `treeCount, `cur, `held, chain
      ensures Valid() && chain == old(chain) && trees == p && treeCount == count && cur == k
      ensures Contents() == old(Contents())[..Pos(k, count) + 1] && dropped == old(Contents())[Pos(k, count) + 1..]
      ensures held == old(held) - multiset(dropped)
    {
      hide Filled, Flat, Chained, BlocksOf, Unrolled, Nth;
      ghost var u := Unrolling(BlocksOf(chain), Size(), Pos(k, count) + 1, held);
      UnrollStart(u.was, u.size, u.lo, u.held);
      dropped := DropSince(p, count, k, u);
      UnrollEnd(u, BlocksOf(chain), held, dropped);
      ghost var after := BlocksOf(chain);
      trees, treeCount, cur := p, count, k;
      assert BlocksOf(chain) == after && Chained(chain) && Size() == u.lo;
    }

    /** Compares the slots of one block from `from` on, none of which is NULL. */
    method MatchBlock(q: Block, ghost b: nat, from: nat, tree: nat, matches: (nat, nat) -> bool) returns (r: bool)
      requires Valid() && b < |chain| && q == chain[b] && from <= SLOTS && Pos(b, from) < Size()
      ensures !r ==> forall k :: SLOTS * b <= k <= Pos(b, from) ==> !matches(Contents()[k], tree)
      ensures r ==> exists k :: SLOTS * b <= k <= Pos(b, from) && matches(Contents()[k], tree)
    {
      hide Filled, Flat, Chained, BlocksOf, Nth;
      ghost var all := Contents();
      var n := from;
      while n < SLOTS
        invariant from <= n <= SLOTS
        invariant forall k :: Pos(b, n) < k <= Pos(b, from) ==> !matches(all[k], tree)
      {
        SlotValue(BlocksOf(chain), Size(), b, n);
        if matches(q.c[n].value, tree) { return true; }
        n := n + 1;
      }
      return false;
    }

    /** match_tree_refs: whether any reference held belongs to the tree. */
    method MatchTreeRefs(tree: Option<nat>, matches: (nat, nat) -> bool) returns (r: bool)
      requires Valid()
      ensures r <==> tree.Some? && exists k :: 0 <= k < |Contents()| && matches(Contents()[k], tree.value)
    {
      hide Filled, Flat, Chained, BlocksOf, Nth;
      ghost var all := Contents();
      if tree == None { return false; }
      var p := firstTrees;
      ghost var b := 0;
      while p != trees
        invariant Valid() && all == Contents()
        invariant p != null ==> 0 <= b <= cur && p == chain[b]
        invariant p == null ==> cur == -1
        invariant forall k :: 0 <= k < SLOTS * b && k < |all| ==> !matches(all[k], tree.value)
        decreases cur - b
      {
        Differ(chain, b, cur);
        r := MatchBlock(p, b, 0, tree.value, matches);
        if r { return; }
        NextOf(chain, b);
        p, b := p.next, b + 1;
      }
      if p != null {
        Differ(chain, b, cur);
        r := MatchBlock(p, b, treeCount, tree.value, matches);
        return;
      }
      return false;
    }

    /** audit_set_auditable. */
    method SetAuditable()
      modifies `prio, `recording
      ensures if old(prio) == 0 then prio == 1 && recording else prio == old(prio) && recording == old(recording)
    {
      if prio == 0 { prio, recording := 1, true; }
    }

    /** audit_tree_lookup takes a reference on the chunk, put_tree_ref records it. */
    method Record(x: nat) returns (ok: bool)
      requires Valid() && held == multiset(Contents())
      modifies `trees, `treeCount, `cur, `held, chain
      ensures Valid() && chain == old(chain) && cur >= old(cur) && (ok <==> |old(Contents())| < SLOTS * |chain|)
      ensures Contents() == old(Contents()) + if ok then [x] else []
      ensures held == multiset(Contents()) + if ok then multiset{} else multiset{x}
      ensures !ok ==> trees == old(trees) && treeCount == old(treeCount)
    {
      hide Valid, Contents;
      OneMore(Contents(), x);
      held := held + multiset{x};
      ok := PutTreeRef(x);
    }

    /** Unrolling to a snapshot gives back exactly the references taken since. */
    method Restore(p: Block?, count: nat, ghost k: int)
      requires Valid() && IsSnapshot(p, count, k) && held == multiset(Contents())
      modifies `trees, `treeCount, `cur, `held, chain
      ensures Valid() && chain == old(chain) && 0 <= SnapSize(k, count) <= |old(Contents())|
      ensures Contents() == old(Contents())[..SnapSize(k, count)] && held == multiset(Contents())
      ensures Restored(p, count) && (k >= 0 ==> cur == k)
    {
      hide Valid, Contents;
      ghost var c := Contents();
      var dropped := UnrollTreeRefs(p, count, k);
      TakeBack(c, SnapSize(k, count));
    }

    /** The position of a snapshot; a context that had no block yet is at the start of its first one. */
    predicate Restored(p: Block?, count: nat)
      reads `trees, `treeCount, `firstTrees
    {
      if p != null then trees == p && treeCount == count
      else trees == firstTrees && treeCount == if firstTrees == null then 0 else SLOTS
    }

    /** Out of memory: the reference in hand is dropped and so is all that was recorded since the snapshot. */
    method GiveUp(x: nat, p: Block?, count: nat, ghost k: int)
      requires Valid() && IsSnapshot(p, count, k) && held == multiset(Contents()) + multiset{x}
      modifies `trees, `treeCount, `cur, `held, `prio, `recording, chain
      ensures Valid() && chain == old(chain) && 0 <= SnapSize(k, count) <= |old(Contents())|
      ensures Contents() == old(Contents())[..SnapSize(k, count)] && held == multiset(Contents())
      ensures Restored(p, count) && prio != 0
    {
      hide Valid, Contents, SnapSize, IsSnapshot;
      SetAuditable();
      held := held - multiset{x};
      Restore(p, count, k);
    }

    /** The chunk in hand found no slot: the chain is extended for it, or all is undone. */
    method PutGrowing(x: nat, memory: bool, p: Block?, count: nat, ghost k: int)
      requires Valid() && held == multiset(Contents()) + multiset{x} && |Contents()| == SLOTS * |chain|
      requires IsSnapshot(p, count, k) && SnapSize(k, count) == |Contents()|
      modifies this, chain
      ensures Valid() && held == multiset(Contents()) && old(chain) <= chain
      ensures |chain| == |old(chain)| + if memory then 1 else 0
      ensures Contents() == old(Contents()) + if memory then [x] else []
      ensures if memory then prio == old(prio) && recording == old(recording) else prio != 0 && Restored(p, count)
    {
      hide Valid, Contents, SnapSize, IsSnapshot, Restored;
      ghost var c := Contents();
      SnapshotIs(p, count, k);
      var ok := GrowTreeRefs(memory);
      if !ok {
        SnapshotIs(p, count, k);
        GiveUp(x, p, count, k);
        return;
      }
      ok := PutTreeRef(x);
      OneMore(c, x);
    }

    /** handle_one: the chunk found for an inode, if any, is recorded unless the chain is full and memory has run out. */
    method HandleOne(chunk: Option<nat>, memory: bool)
      requires Valid() && held == multiset(Contents())
      modifies this, chain
      ensures Valid() && held == multiset(Contents()) && old(chain) <= chain
      ensures Contents() == old(Contents())
                + if chunk.Some? && (|old(Contents())| < SLOTS * |old(chain)| || memory) then [chunk.value] else []
      ensures var full := chunk.Some? && |old(Contents())| == SLOTS * |old(chain)|;
              && |chain| == |old(chain)| + (if full && memory then 1 else 0)
              && (full && !memory ==> prio != 0 && Restored(old(trees), old(treeCount)))
              && (!full || memory ==> prio == old(prio) && recording == old(recording))
    {
      hide Valid, Contents, SnapSize, IsSnapshot, Restored;
      var p, count := trees, treeCount;
      ghost var k := cur;
      SnapshotNow();
      if chunk == None { return; }
      SnapshotIs(p, count, k);
      var ok := Record(chunk.value);
      if ok { return; }
      SnapshotIs(p, count, k);
      PutGrowing(chunk.value, memory, p, count, k);
    }

    /**
     * The walk of handle_path from a dentry to the root: `path` gives the chunk found at each of them.
     * It stops early at a chunk for which there is no slot.
     */
    method WalkUp(path: seq<Option<nat>>) returns (drop: Option<nat>)
      requires Valid() && held == multiset(Contents())
      modifies `trees, `treeCount, `cur, `held, chain
      ensures Valid() && chain == old(chain) && old(Contents()) <= Contents() && cur >= old(cur)
      ensures held == multiset(Contents()) + if drop.Some? then multiset{drop.value} else multiset{}
      ensures drop == None ==> Contents() == old(Contents()) + Tagged(path)
      ensures drop.Some? ==> |Contents()| == SLOTS * |chain| && |old(Contents())| + |path| > SLOTS * |chain|
      ensures drop.Some? <==> |old(Contents())| + |Tagged(path)| > SLOTS * |chain|
    {
      hide Valid, Contents, SnapSize, Tagged;
      drop := None;
      var i := 0;
      ghost var c := Contents();
      NoneTagged(path);
      while i < |path|
        invariant i <= |path| && Valid() && chain == old(chain) && cur >= old(cur)
        invariant Contents() == c + Tagged(path[..i]) && held == multiset(Contents())
      {
        TaggedPlus(path, i);
        if path[i].Some? { Assoc(c, Tagged(path[..i]), path[i].value); }
        if path[i].Some? {
          var x := path[i].value;
          var ok := Record(x);
          if !ok { return Some(x); }
        }
        i := i + 1;
      }
      assert path[..|path|] == path;
    }

    method Rewind(p: Block?, count: nat, ghost k: int, ghost c: seq<nat>)
      requires Valid() && held == multiset(Contents()) && IsSnapshot(p, count, k)
      requires SnapSize(k, count) == |c| && c <= Contents()
      modifies `trees, `treeCount, `cur, `held, chain
      ensures Valid() && chain == old(chain) && Contents() == c && held == multiset(c)
      ensures Restored(p, count) && IsSnapshot(p, count, k)
    {
      hide Valid, Contents, SnapSize;
      Restore(p, count, k);
      assert Contents() == c;
    }

    /** The chunk that found no slot is let go and the chain extended. */
    method MakeRoom(x: nat, memory: bool) returns (got: bool)
      requires Valid() && |Contents()| == SLOTS * |chain| && held == multiset(Contents()) + multiset{x}
      modifies `firstTrees, `trees, `treeCount, `chain, `cur, `held, chain
      ensures Valid() && Contents() == old(Contents()) && held == multiset(Contents()) && got == memory && cur >= old(cur)
      ensures old(chain) <= chain && |chain| == |old(chain)| + if got then 1 else 0
      ensures got ==> fresh(chain[|chain| - 1])
    {
      hide Valid, Contents;
      held := held - multiset{x};
      got := GrowTreeRefs(memory);
    }

    /** A walk that cannot be kept is undone, after the chain was extended if it had not fitted. */
    method Undo(drop: Option<nat>, memory: bool, p: Block?, count: nat, ghost k: int, ghost c: seq<nat>) returns (lost: bool)
      requires Valid() && held == multiset(Contents()) + if drop.Some? then multiset{drop.value} else multiset{}
      requires drop.Some? ==> |Contents()| == SLOTS * |chain|
      requires IsSnapshot(p, count, k) && SnapSize(k, count) == |c| && c <= Contents()
      modifies `firstTrees, `trees, `treeCount, `chain, `cur, `held, chain
      ensures Valid() && held == multiset(Contents()) && Contents() == c && Restored(p, count) && IsSnapshot(p, count, k)
      ensures lost == (drop.Some? && !memory) && |chain| == |old(chain)| + if drop.Some? && memory then 1 else 0
      ensures old(chain) <= chain && forall i :: |old(chain)| <= i < |chain| ==> fresh(chain[i])
    {
      hide Valid, Contents, SnapSize, IsSnapshot, Restored;
      lost := false;
      if drop.Some? {
        SnapshotIs(p, count, k);
        var got := MakeRoom(drop.value, memory);
        SnapshotIs(p, count, k);
        lost := !got;
      }
      Rewind(p, count, k, c);
    }

    /** One try of handle_path: the walk, and what follows it when it cannot be kept. */
    method TryPath(path: seq<Option<nat>>, renamed: bool, memory: bool, p: Block?, count: nat, ghost k: int)
      returns (done: bool, lost: bool)
      requires Valid() && held == multiset(Contents())
      requires IsSnapshot(p, count, k) && SnapSize(k, count) == |Contents()|
      modifies `firstTrees, `trees, `treeCount, `chain, `cur, `held, chain
      ensures Valid() && held == multiset(Contents())
      ensures old(chain) <= chain && forall i :: |old(chain)| <= i < |chain| ==> fresh(chain[i])
      ensures done ==> !renamed && Contents() == old(Contents()) + Tagged(path)
      ensures !done ==> Contents() == old(Contents()) && Restored(p, count) && IsSnapshot(p, count, k)
      ensures var fits := |old(Contents())| + |Tagged(path)| <= SLOTS * |old(chain)|;
              && (done <==> fits && !renamed) && (lost <==> !fits && !memory)
              && |chain| == |old(chain)| + if fits || !memory then 0 else 1
    {
      hide Valid, Contents, SnapSize, Tagged, IsSnapshot, Restored;
      ghost var c := Contents();
      SnapshotIs(p, count, k);
      var drop := WalkUp(path);
      if !renamed && drop == None { return true, false; }
      SnapshotIs(p, count, k);
      lost := Undo(drop, memory, p, count, k, c);
      done := false;
    }

    /**
     * handle_path. Try n finds the chunks view(n) on the way to the root, meets a rename if renamed(n),
     * and can allocate if memory(n). With renames ending at some point and paths of bounded length it
     * terminates, having recorded every chunk of the path or restored the snapshot: it records at the first try
     * whose chunks fit and that meets no rename, and gives up at the first whose chunks do not fit when there
     * is no memory, whichever comes first.
     */
    method HandlePath(view: nat -> seq<Option<nat>>, renamed: nat -> bool, memory: nat -> bool, ghost calm: nat, ghost depth: nat)
      returns (ok: bool, n: nat)
      requires Valid() && held == multiset(Contents())
      requires (forall i :: i >= calm ==> !renamed(i)) && forall i :: |view(i)| <= depth
      modifies this, chain
      ensures Valid() && held == multiset(Contents()) && old(chain) <= chain
      ensures ok ==> !renamed(n) && Contents() == old(Contents()) + Tagged(view(n))
      ensures ok ==> prio == old(prio) && recording == old(recording)
      ensures !ok ==> !memory(n) && prio != 0 && Contents() == old(Contents()) && Restored(old(trees), old(treeCount))
      ensures !ok ==> |old(Contents())| + |Tagged(view(n))| > SLOTS * |chain|
      ensures |chain| == BlocksAt(view, |old(Contents())|, |old(chain)|, n)
      ensures ok <==> FitsAt(view, |old(Contents())|, |old(chain)|, n)
      ensures Retried(view, renamed, memory, |old(Contents())|, |old(chain)|, n)
    {
      hide Valid, Contents, SnapSize, Tagged, IsSnapshot, Restored, BlocksAt, FitsAt, Retried, Short;
      var p, count := trees, treeCount;
      ghost var k, c := cur, Contents();
      SnapshotNow();
      NotYetTried(view, renamed, memory, |c|, |chain|);
      n := 0;
      while true
        invariant Valid() && held == multiset(Contents()) && Contents() == c
        invariant IsSnapshot(p, count, k) && SnapSize(k, count) == |c|
        invariant old(chain) <= chain && forall i :: |old(chain)| <= i < |chain| ==> fresh(chain[i])
        invariant prio == old(prio) && recording == old(recording)
        invariant |chain| == BlocksAt(view, |c|, |old(chain)|, n)
        invariant Retried(view, renamed, memory, |c|, |old(chain)|, n)
        decreases if n < calm then calm - n else 0, Short(|c| + depth, SLOTS * |chain|)
      {
        FitsIs(view, |c|, |old(chain)|, n);
        assert |view(n)| <= depth;
        if |c| + |Tagged(view(n))| > SLOTS * |chain| { ShortShrinks(|c|, |Tagged(view(n))|, depth, |chain|); }
        var done, lost := TryPath(view(n), renamed(n), memory(n), p, count, k);
        if done { return true, n; }
        if lost {
          SetAuditable();
          return false, n;
        }
        RetriedStep(view, renamed, memory, |c|, |old(chain)|, n);
        n := n + 1;
      }
    }

    ghost function Free(): nat
      requires Valid()
      reads `firstTrees, `trees, `treeCount, `chain, `cur, chain
    {
      SLOTS * |chain| - |Contents()|
    }

    /**
     * Any run of puts and grows after a snapshot records the chunks that find a slot, and unrolling to the
     * snapshot undoes it: what was recorded, and only that, is dropped.
     */
    method RunAndUnroll(ops: seq<Op>) returns (put: seq<nat>, dropped: seq<nat>)
      requires Valid()
      modifies this, chain
      ensures Valid() && Contents() == old(Contents()) && Restored(old(trees), old(treeCount))
      ensures put == Taken(ops, old(Free()))
      ensures dropped == put && held == old(held) - multiset(put)
    {
      hide Valid, Contents, SnapSize, Taken;
      var p, count := trees, treeCount;
      ghost var k, c := cur, Contents();
      SnapshotNow();
      put := [];
      var i := 0;
      assert ops[0..] == ops;
      while i < |ops|
        invariant i <= |ops| && Valid() && Contents() == c + put && held == old(held)
        invariant put + Taken(ops[i..], Free()) == Taken(ops, old(Free()))
        invariant IsSnapshot(p, count, k) && SnapSize(k, count) == |c|
        invariant old(chain) <= chain && forall i :: |old(chain)| <= i < |chain| ==> fresh(chain[i])
      {
        TakenStep(ops, i, Free());
        ghost var was, rest := put, Taken(ops[i + 1..], FreeAfter(ops[i], Free()));
        Assoc3(was, if Free() > 0 then [ops[i].x] else [], rest);
        put := Perform(ops[i], put, c);
        i := i + 1;
      }
      NoneTaken(ops, Free());
      dropped := UnrollTreeRefs(p, count, k);
      assert (c + put)[..|c|] == c && (c + put)[|c|..] == put;
    }

    method Perform(op: Op, put: seq<nat>, ghost c: seq<nat>) returns (put': seq<nat>)
      requires Valid() && Contents() == c + put
      modifies `firstTrees, `trees, `treeCount, `chain, `cur, chain
      ensures Valid() && Contents() == c + put' && cur >= old(cur)
      ensures put' == put + (if old(Free()) > 0 then [op.x] else []) && Free() == FreeAfter(op, old(Free()))
      ensures old(chain) <= chain && forall i :: |old(chain)| <= i < |chain| ==> fresh(chain[i])
    {
      hide Valid, Contents;
      put' := put;
      Assoc(c, put, op.x);
      var ok := PutTreeRef(op.x);
      if ok {
        put' := put + [op.x];
      } else if op.PutGrowing? {
        ok := GrowTreeRefs(op.memory);
      }
    }
  }
}
