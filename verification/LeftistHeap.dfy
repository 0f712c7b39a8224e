/**
 The intrusive leftist heap of timers: `Merge` rewrites the links and depths of nodes that the
 callers own. `Tree` is the shape that the links of some nodes spell out.
 */
module LeftistHeap {
  import opened Common

  /** `task` names the task that the timer runs when it is due. */
  class TimerBase {
    const task: nat
    var prev: TimerBase?
    var next: TimerBase?
    var deadline: int
    var depth: nat

    constructor (task: nat)
      ensures this.task == task && prev == null && next == null
    {
      this.task, prev, next, deadline, depth := task, null, null, 0, 0;
    }
  }

  datatype Tree = Empty | Fork(node: TimerBase, deadline: int, left: Tree, right: Tree)

  ghost function Nodes(t: Tree): set<TimerBase> {
    match t
    case Empty => {}
    case Fork(node, _, left, right) => {node} + Nodes(left) + Nodes(right)
  }

  ghost function Size(t: Tree): nat {
    match t
    case Empty => 0
    case Fork(_, _, left, right) => Size(left) + 1 + Size(right)
  }

  /** The null-path length: how many nodes lie on the shortest way down to a missing child. */
  ghost function Rank(t: Tree): nat {
    match t
    case Empty => 0
    case Fork(_, _, left, right) => Min(Rank(left), Rank(right)) + 1
  }

  ghost predicate Leftist(t: Tree) {
    t.Fork? ==> Rank(t.right) <= Rank(t.left) && Leftist(t.left) && Leftist(t.right)
  }

  ghost predicate NoneBefore(t: Tree, deadline: int) {
    t.Fork? ==> deadline <= t.deadline && NoneBefore(t.left, deadline) && NoneBefore(t.right, deadline)
  }

  ghost predicate HeapOrdered(t: Tree) {
    t.Fork? ==> && NoneBefore(t.left, t.deadline) && NoneBefore(t.right, t.deadline)
                && HeapOrdered(t.left) && HeapOrdered(t.right)
  }

  /** No node occurs twice. */
  ghost predicate Separate(t: Tree) {
    t.Fork? ==> && t.node !in Nodes(t.left) + Nodes(t.right) && Nodes(t.left) !! Nodes(t.right)
                && Separate(t.left) && Separate(t.right)
  }

  ghost predicate WellFormed(t: Tree) { Separate(t) && HeapOrdered(t) && Leftist(t) }

  /** The links from `top` spell out `t`, and every `depth` is the rank of its subtree. */
  ghost predicate Spells(top: TimerBase?, t: Tree)
    reads Nodes(t)
    decreases t
  {
    match t
    case Empty => top == null
    case Fork(node, deadline, left, right) =>
      && top == node && node.deadline == deadline && node.depth == Rank(t)
      && Spells(node.prev, left) && Spells(node.next, right)
  }

  // ---------------------------------------------------------------------------------------------
  // Merging trees

  ghost function Under(t: Tree, m: Tree): Tree
    requires t.Fork?
  {
    if Rank(t.left) < Rank(m) then Fork(t.node, t.deadline, m, t.left) else Fork(t.node, t.deadline, t.left, m)
  }

  ghost function Merged(l: Tree, r: Tree): Tree
    decreases Size(l) + Size(r)
  {
    if l.Empty? then r
    else if r.Empty? then l
    else if l.deadline > r.deadline then Under(r, Merged(r.right, l))
    else Under(l, Merged(l.right, r))
  }

  lemma {:induction false} MergedNodes(l: Tree, r: Tree)
    ensures Nodes(Merged(l, r)) == Nodes(l) + Nodes(r)
    ensures Size(Merged(l, r)) == Size(l) + Size(r)
    decreases Size(l) + Size(r)
  {
    if l.Fork? && r.Fork? {
      if l.deadline > r.deadline { MergedNodes(r.right, l); } else { MergedNodes(l.right, r); }
    }
  }

  lemma {:induction false} MergedSeparate(l: Tree, r: Tree)
    requires Separate(l) && Separate(r) && Nodes(l) !! Nodes(r)
    ensures Separate(Merged(l, r))
    decreases Size(l) + Size(r)
  {
    if l.Fork? && r.Fork? {
      if l.deadline > r.deadline {
        MergedSeparate(r.right, l);
        MergedNodes(r.right, l);
      } else {
        MergedSeparate(l.right, r);
        MergedNodes(l.right, r);
      }
    }
  }

  lemma {:induction false} MergedLeftist(l: Tree, r: Tree)
    requires Leftist(l) && Leftist(r)
    ensures Leftist(Merged(l, r))
    decreases Size(l) + Size(r)
  {
    if l.Fork? && r.Fork? {
      if l.deadline > r.deadline { MergedLeftist(r.right, l); } else { MergedLeftist(l.right, r); }
    }
  }

  lemma {:induction false} NoneBeforeEarlier(t: Tree, d: int, e: int)
    requires NoneBefore(t, d) && e <= d
    ensures NoneBefore(t, e)
  {
    if t.Fork? {
      NoneBeforeEarlier(t.left, d, e);
      NoneBeforeEarlier(t.right, d, e);
    }
  }

  lemma {:induction false} MergedNoneBefore(l: Tree, r: Tree, d: int)
    requires NoneBefore(l, d) && NoneBefore(r, d)
    ensures NoneBefore(Merged(l, r), d)
    decreases Size(l) + Size(r)
  {
    if l.Fork? && r.Fork? {
      if l.deadline > r.deadline { MergedNoneBefore(r.right, l, d); } else { MergedNoneBefore(l.right, r, d); }
    }
  }

  lemma {:induction false} MergedOrdered(l: Tree, r: Tree)
    requires HeapOrdered(l) && HeapOrdered(r)
    ensures HeapOrdered(Merged(l, r))
    decreases Size(l) + Size(r)
  {
    if l.Fork? && r.Fork? {
      if l.deadline > r.deadline {
        MergedOrdered(r.right, l);
        RootIsEarliest(l, r.deadline);
        MergedNoneBefore(r.right, l, r.deadline);
      } else {
        MergedOrdered(l.right, r);
        RootIsEarliest(r, l.deadline);
        MergedNoneBefore(l.right, r, l.deadline);
      }
    }
  }

  lemma RootIsEarliest(t: Tree, d: int)
    requires HeapOrdered(t) && t.Fork? && d <= t.deadline
    ensures NoneBefore(t, d)
  {
    NoneBeforeEarlier(t.left, t.deadline, d);
    NoneBeforeEarlier(t.right, t.deadline, d);
  }

  /** Merging keeps every node, the heap order, and the leftist shape. */
  lemma MergedWellFormed(l: Tree, r: Tree)
    requires WellFormed(l) && WellFormed(r) && Nodes(l) !! Nodes(r)
    ensures WellFormed(Merged(l, r)) && Nodes(Merged(l, r)) == Nodes(l) + Nodes(r)
  {
    MergedSeparate(l, r);
    MergedOrdered(l, r);
    MergedLeftist(l, r);
    MergedNodes(l, r);
  }

  /** The children of the root are heaps of all the other nodes. */
  lemma RootApart(t: Tree)
    requires WellFormed(t) && t.Fork?
    ensures WellFormed(t.left) && WellFormed(t.right) && Nodes(t.left) !! Nodes(t.right)
    ensures Nodes(t.left) + Nodes(t.right) == Nodes(t) - {t.node}
  {
  }

  /** On the nodes themselves: no node of a tree has a deadline before `d`. */
  lemma {:induction false} EarliestNode(top: TimerBase?, t: Tree, d: int)
    requires Spells(top, t) && NoneBefore(t, d)
    ensures forall n :: n in Nodes(t) ==> d <= n.deadline
    decreases t
  {
    if t.Fork? {
      EarliestNode(t.node.prev, t.left, d);
      EarliestNode(t.node.next, t.right, d);
    }
  }

  lemma {:induction false} SizeIsCount(t: Tree)
    requires Separate(t)
    ensures |Nodes(t)| == Size(t)
  {
    if t.Fork? {
      SizeIsCount(t.left);
      SizeIsCount(t.right);
      assert |{t.node} + Nodes(t.left)| == 1 + |Nodes(t.left)|;
      assert |({t.node} + Nodes(t.left)) + Nodes(t.right)| == |{t.node} + Nodes(t.left)| + |Nodes(t.right)|;
    }
  }

  // ---------------------------------------------------------------------------------------------
  // Cost

  /** The logarithm to base 2, rounded down. */
  ghost function Log2(n: nat): nat { if n <= 1 then 0 else 1 + Log2(n / 2) }

  lemma {:induction false} LogGrows(m: nat, n: nat)
    requires m <= n
    ensures Log2(m) <= Log2(n)
  {
    if m > 1 { LogGrows(m / 2, n / 2); }
  }

  /** The rank of a node is at most logarithmic in the number of nodes below it. */
  lemma {:induction false} RankIsLogarithmic(t: Tree)
    ensures Rank(t) <= Log2(Size(t) + 1)
  {
    if t.Fork? {
      RankIsLogarithmic(t.left);
      RankIsLogarithmic(t.right);
      var least := Min(Size(t.left), Size(t.right));
      assert Min(Rank(t.left), Rank(t.right)) <= Log2(least + 1);
      LogGrows(least + 1, (Size(t) + 1) / 2);
    }
  }

  /** As many nested calls as `Merge` is allowed are at most logarithmic in both sizes. */
  lemma CallsAreLogarithmic(l: Tree, r: Tree, calls: nat)
    requires calls <= Rank(l) + Rank(r) + 1
    ensures calls <= Log2(Size(l) + 1) + Log2(Size(r) + 1) + 1
  {
    RankIsLogarithmic(l);
    RankIsLogarithmic(r);
  }

  lemma RankBelow(t: Tree, n: nat)
    requires Size(t) < n
    ensures Rank(t) <= Log2(n)
  {
    RankIsLogarithmic(t);
    LogGrows(Size(t) + 1, n);
  }

  /** So `Push` into n timers nests at most 2 + log2(n + 1) calls. */
  lemma PushIsLogarithmic(t: Tree, calls: nat)
    requires calls <= Rank(t) + 2
    ensures calls <= Log2(Size(t) + 1) + 2
  {
    RankIsLogarithmic(t);
  }

  /** And `Pop` from n timers nests at most 1 + 2 log2(n) calls. */
  lemma PopIsLogarithmic(t: Tree, calls: nat)
    requires t.Fork? && calls <= Rank(t.left) + Rank(t.right) + 1
    ensures calls <= 2 * Log2(Size(t)) + 1
  {
    RankBelow(t.left, Size(t));
    RankBelow(t.right, Size(t));
  }

  // ---------------------------------------------------------------------------------------------
  // The heap

  /** Depth of a subtree, as its root stores it. */
  function Depth(node: TimerBase?): nat
    reads node
  {
    if node != null then node.depth else 0
  }

  /** Links an owned node over the merged subtree `m`, in place. */
  method Relink(node: TimerBase, sub: TimerBase?, ghost t: Tree, ghost m: Tree)
    requires t.Fork? && t.node == node && node.deadline == t.deadline
    requires node !in Nodes(t.left) && node !in Nodes(m)
    requires Spells(node.prev, t.left) && Spells(sub, m)
    modifies node`prev, node`next, node`depth
    ensures Spells(node, Under(t, m))
  {
    node.next := sub;
    if Depth(node.prev) < Depth(node.next) {
      node.prev, node.next := node.next, node.prev;
    }
    node.depth := Depth(node.next) + 1;
  }

  /** Merges in place; no deadline changes. `calls` is how many calls of `Merge` this one nests. */
  method Merge(lhs0: TimerBase?, rhs0: TimerBase?, ghost l0: Tree, ghost r0: Tree)
    returns (top: TimerBase?, ghost calls: nat)
    requires Spells(lhs0, l0) && Spells(rhs0, r0)
    requires Separate(l0) && Separate(r0) && Nodes(l0) !! Nodes(r0)
    requires Leftist(l0) && Leftist(r0)
    modifies (Nodes(l0) + Nodes(r0))`prev, (Nodes(l0) + Nodes(r0))`next, (Nodes(l0) + Nodes(r0))`depth
    ensures Spells(top, Merged(l0, r0))
    ensures calls <= Rank(l0) + Rank(r0) + 1
    decreases Size(l0) + Size(r0)
  {
    if lhs0 == null {
      return rhs0, 1;
    }
    if rhs0 == null {
      return lhs0, 1;
    }
    var lhs, rhs := lhs0, rhs0;
    ghost var l, r := l0, r0;
    if lhs.deadline > rhs.deadline {
      lhs, rhs := rhs, lhs;
      l, r := r, l;
    }
    assert Merged(l0, r0) == Under(l, Merged(l.right, r));
    MergedNodes(l.right, r);
    assert allocated(Nodes(l.left));
    var sub;
    sub, calls := Merge(lhs.next, rhs, l.right, r);
    calls := calls + 1;
    Relink(lhs, sub, l, Merged(l.right, r));
    top := lhs;
  }

  /** Merges two heaps, in place, into one. */
  method MergeHeaps(lhs: TimerBase?, rhs: TimerBase?, ghost l: Tree, ghost r: Tree)
    returns (top: TimerBase?, ghost m: Tree, ghost calls: nat)
    requires Spells(lhs, l) && Spells(rhs, r) && WellFormed(l) && WellFormed(r) && Nodes(l) !! Nodes(r)
    modifies (Nodes(l) + Nodes(r))`prev, (Nodes(l) + Nodes(r))`next, (Nodes(l) + Nodes(r))`depth
    ensures Spells(top, m) && WellFormed(m) && Nodes(m) == Nodes(l) + Nodes(r)
    ensures calls <= Rank(l) + Rank(r) + 1
  {
    MergedWellFormed(l, r);
    top, calls := Merge(lhs, rhs, l, r);
    m := Merged(l, r);
  }

  /** A tree of one node. */
  ghost function Single(item: TimerBase): (t: Tree)
    reads item
    ensures WellFormed(t) && Nodes(t) == {item} && Rank(t) == 1
  {
    Fork(item, item.deadline, Empty, Empty)
  }

  class IntrusiveTimerLeftistHeap {
    var top: TimerBase?
    ghost var tree: Tree
    ghost var timers: set<TimerBase>

    /** How many calls of `Merge` the last operation nested. */
    ghost var calls: nat

    ghost predicate Valid()
      reads this, timers
    {
      timers == Nodes(tree) && Spells(top, tree) && WellFormed(tree)
    }

    /** How many timers there are; see `CountsTimers`. */
    ghost function Count(): nat
      reads this
    {
      Size(tree)
    }

    lemma CountsTimers()
      requires Valid()
      ensures Count() == |timers|
    {
      SizeIsCount(tree);
    }

    constructor ()
      ensures Valid() && timers == {} && fresh(this)
    {
      top, tree, timers, calls := null, Empty, {}, 0;
    }

    predicate IsEmpty()
      reads this
    {
      top == null
    }

    method Push(item: TimerBase)
      requires Valid() && item !in timers
      modifies this, timers`prev, timers`next, timers`depth, item`prev, item`next, item`depth
      ensures Valid() && timers == old(timers) + {item}
      ensures calls <= Log2(old(Count()) + 1) + 2
    {
      ghost var limit := Log2(Count() + 1) + 2;
      assert Rank(tree) + 2 <= limit by { PushIsLogarithmic(tree, Rank(tree) + 2); }
      item.prev, item.next, item.depth := null, null, 1;
      top, tree, calls := MergeHeaps(top, item, tree, Single(item));
      timers := timers + {item};
    }

    /** Takes out a timer with the earliest deadline and leaves it unlinked. */
    method Pop() returns (ret: TimerBase)
      requires Valid() && !IsEmpty()
      modifies this, timers`prev, timers`next, timers`depth
      ensures Valid() && timers == old(timers) - {ret} && ret == old(top)
      ensures ret in old(timers) && ret.prev == null && ret.next == null
      ensures forall n :: n in old(timers) ==> ret.deadline <= n.deadline
      ensures calls <= 2 * Log2(old(Count())) + 1
    {
      EarliestTop();
      ret := top;
      ReplaceTop();
      ret.prev, ret.next := null, null;
    }

    /** The part of `Pop` that merges the children of the top. */
    method ReplaceTop()
      requires Valid() && !IsEmpty()
      modifies this, timers`prev, timers`next, timers`depth
      ensures Valid() && timers == old(timers) - {old(top)} && old(top) in old(timers)
      ensures calls <= 2 * Log2(old(Count())) + 1
    {
      ghost var was := tree;
      RootApart(tree);
      assert allocated(timers);
      timers := timers - {top};
      top, tree, calls := MergeHeaps(top.prev, top.next, tree.left, tree.right);
      PopIsLogarithmic(was, calls);
    }

    /** The top timer is in the heap and none of the others is due before it. */
    lemma EarliestTop()
      requires Valid()
      ensures IsEmpty() <==> timers == {}
      ensures top != null ==> top in timers && forall n :: n in timers ==> top.deadline <= n.deadline
    {
      if tree.Fork? {
        RootIsEarliest(tree, tree.deadline);
        EarliestNode(top, tree, tree.deadline);
      }
    }
  }
}
