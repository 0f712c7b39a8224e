/**
 `Mutator::Gc` and `Collector::IsProtected` as they run while no other thread changes a hazard slot
 or registers: what exactly is kept, what is destroyed, and how much garbage can pile up.
 */
module HazardGc {
  import opened Counting
  import opened HazardMachine

  /** The elements of `s` that are (`keep`) or are not in `slots`, in their order. */
  function Select(s: seq<Ptr>, slots: seq<Ptr>, keep: bool): (r: seq<Ptr>)
    ensures forall p :: p in r <==> p in s && (p in slots <==> keep)
  {
    if s == [] then [] else
    var rest := Select(s[..|s| - 1], slots, keep);
    assert s == s[..|s| - 1] + [s[|s| - 1]];
    if (s[|s| - 1] in slots) == keep then rest + [s[|s| - 1]] else rest
  }

  lemma SelectNext(s: seq<Ptr>, n: nat, slots: seq<Ptr>)
    requires n < |s|
    ensures Select(s[..n + 1], slots, true) == Select(s[..n], slots, true) + (if s[n] in slots then [s[n]] else [])
    ensures Select(s[..n + 1], slots, false) == Select(s[..n], slots, false) + (if s[n] in slots then [] else [s[n]])
  {
    assert s[..n + 1][..n] == s[..n];
  }

  /** Every retired object is kept once or destroyed once. */
  lemma {:induction false} SelectConserves(s: seq<Ptr>, slots: seq<Ptr>, p: Ptr)
    ensures Occ(Select(s, slots, true), p) + Occ(Select(s, slots, false), p) == Occ(s, p)
  {
    if s != [] {
      var front, last := s[..|s| - 1], s[|s| - 1];
      SelectConserves(front, slots, p);
      assert s == front + [last];
      OccConcat(front, [last], p);
      OccConcat(Select(front, slots, true), [last], p);
      OccConcat(Select(front, slots, false), [last], p);
    }
  }

  /** Pigeonhole over the slots. */
  lemma {:induction false} Pigeonhole(pigeons: set<Ptr>, holes: seq<Ptr>)
    requires forall p :: p in pigeons ==> p in holes
    ensures |pigeons| <= |holes|
  {
    if pigeons != {} {
      var last := holes[|holes| - 1];
      Pigeonhole(pigeons - {last}, holes[..|holes| - 1]);
      assert |pigeons| <= |pigeons - {last}| + 1 by {
        assert pigeons <= (pigeons - {last}) + {last};
        SubsetSize(pigeons, (pigeons - {last}) + {last});
      }
    }
  }

  lemma {:induction false} SubsetSize(a: set<Ptr>, b: set<Ptr>)
    requires a <= b
    ensures |a| <= |b|
  {
    if a != {} {
      var x :| x in a;
      SubsetSize(a - {x}, b - {x});
    }
  }

  function Distinct(s: seq<Ptr>): set<Ptr> {
    set p | p in s
  }

  /** The objects a collection keeps are no more than the slots, however long the retired list. */
  lemma GarbageBound(retired: seq<Ptr>, slots: seq<Ptr>)
    ensures |Distinct(Select(retired, slots, true))| <= |slots|
  {
    Pigeonhole(Distinct(Select(retired, slots, true)), slots);
  }

  class Mutator {
    const hazardPtrs: array<Ptr>
    var retired: seq<Ptr>
    var next: Mutator?

    constructor ()
      ensures fresh(hazardPtrs) && hazardPtrs[..] == [NULL, NULL]
      ensures retired == [] && next == null
    {
      hazardPtrs := new Ptr[SLOTS_PER_MUTATOR](_ => NULL);
      retired := [];
      next := null;
    }
  }

  class Collector {
    var head: Mutator?
    /** The registered mutators in the order of the list. */
    ghost var registered: seq<Mutator>

    ghost predicate Valid()
      reads this, registered`next
    {
      && (head == if registered == [] then null else registered[0])
      && (forall i :: 0 <= i < |registered| ==>
            registered[i].next == if i + 1 < |registered| then registered[i + 1] else null)
      && (forall i :: 0 <= i < |registered| ==> registered[i].hazardPtrs.Length == SLOTS_PER_MUTATOR)
    }

    /** The contents of all hazard slots of the first `n` mutators. */
    ghost function Slots(n: nat): (r: seq<Ptr>)
      requires n <= |registered|
      requires forall i :: 0 <= i < n ==> registered[i].hazardPtrs.Length == SLOTS_PER_MUTATOR
      reads this, set m | m in registered :: m.hazardPtrs
      ensures |r| == SLOTS_PER_MUTATOR * n
    {
      if n == 0 then [] else Slots(n - 1) + registered[n - 1].hazardPtrs[..]
    }

    constructor ()
      ensures Valid() && registered == []
    {
      head := null;
      registered := [];
    }

    /** The mutator of the calling thread: `current` if it has one, or a new one that is put in front of
        the list. `spurious` is how often the weak CAS on `head_` fails before it succeeds. */
    method GetMutator(current: Mutator?, spurious: nat) returns (m: Mutator)
      requires Valid() && (current != null ==> current in registered)
      modifies this
      ensures Valid()
      ensures current != null ==> m == current && registered == old(registered)
      ensures current == null ==> fresh(m) && registered == [m] + old(registered)
      ensures current == null ==> m.hazardPtrs[..] == [NULL, NULL] && m.retired == []
    {
      if current != null {
        return current;
      }
      m := new Mutator();
      assert |m.hazardPtrs[..]| == SLOTS_PER_MUTATOR;
      var failures := spurious;
      while true
        invariant Valid() && registered == old(registered) && fresh(m)
        invariant fresh(m.hazardPtrs) && m.hazardPtrs[..] == [NULL, NULL] && m.retired == []
        decreases failures
      {
        var first := head;
        m.next := first;
        if failures == 0 {
          Prepend(m);
          return;
        }
        failures := failures - 1;
      }
    }

    /** The CAS that succeeds. */
    method Prepend(m: Mutator)
      requires Valid() && m !in registered && m.next == head && m.hazardPtrs.Length == SLOTS_PER_MUTATOR
      modifies this
      ensures Valid() && registered == [m] + old(registered)
    {
      head := m;
      registered := [m] + registered;
      forall i | 0 <= i < |registered|
        ensures registered[i].next == if i + 1 < |registered| then registered[i + 1] else null
      {
        if i > 0 {
          var j := i - 1;
          assert registered[i] == old(registered[j]);
          assert old(registered[j].next == if j + 1 < |registered| then registered[j + 1] else null);
        }
      }
    }

    method IsProtected(obj: Ptr) returns (found: bool)
      requires Valid()
      ensures found <==> obj in Slots(|registered|)
    {
      var stable := false;
      while !stable
        invariant stable ==> obj !in Slots(|registered|)
        decreases !stable
      {
        var first := head;
        var cur := first;
        ghost var n := 0;
        while cur != null
          invariant n <= |registered|
          invariant cur == if n < |registered| then registered[n] else null
          invariant obj !in Slots(n)
          decreases |registered| - n
        {
          for k := 0 to SLOTS_PER_MUTATOR
            invariant obj !in cur.hazardPtrs[..k]
          {
            if cur.hazardPtrs[k] == obj {
              SlotSeen(n, k);
              return true;
            }
          }
          assert cur.hazardPtrs[..SLOTS_PER_MUTATOR] == cur.hazardPtrs[..];
          n := n + 1;
          cur := cur.next;
        }
        stable := head == first;
      }
      found := false;
    }

    lemma {:induction false} SlotSeenIn(n: nat, i: nat, k: nat)
      requires Valid() && i < n <= |registered| && k < SLOTS_PER_MUTATOR
      ensures registered[i].hazardPtrs[k] in Slots(n)
    {
      if i == n - 1 {
        assert registered[i].hazardPtrs[k] in registered[i].hazardPtrs[..];
      } else {
        SlotSeenIn(n - 1, i, k);
      }
    }

    lemma SlotSeen(i: nat, k: nat)
      requires Valid() && i < |registered| && k < SLOTS_PER_MUTATOR
      ensures registered[i].hazardPtrs[k] in Slots(|registered|)
    {
      SlotSeenIn(|registered|, i, k);
    }

    /** One garbage collection of mutator `m`. Exactly the objects that no slot names are destroyed. */
    method Gc(m: Mutator) returns (destroyed: seq<Ptr>)
      requires Valid()
      modifies m`retired
      ensures Valid()
      ensures m.retired == Select(old(m.retired), Slots(|registered|), true)
      ensures destroyed == Select(old(m.retired), Slots(|registered|), false)
      ensures |Distinct(m.retired)| <= SLOTS_PER_MUTATOR * |registered|
    {
      ghost var all, slots := m.retired, Slots(|registered|);
      var kept: seq<Ptr> := [];
      destroyed := [];
      ghost var n := 0;
      while m.retired != []
        invariant Valid() && Slots(|registered|) == slots
        invariant n <= |all| && m.retired == all[n..]
        invariant kept == Select(all[..n], slots, true) && destroyed == Select(all[..n], slots, false)
        decreases |m.retired|
      {
        var obj := m.retired[0];
        m.retired := m.retired[1..];
        var isProtected := IsProtected(obj);
        if isProtected {
          kept := kept + [obj];
        } else {
          destroyed := destroyed + [obj];
        }
        SelectNext(all, n, slots);
        n := n + 1;
      }
      assert all[..n] == all && m.retired + kept == kept;
      m.retired := m.retired + kept;
      GarbageBound(all, slots);
    }

    /** `Mutator::Retire`. */
    method Retire(m: Mutator, obj: Ptr) returns (destroyed: seq<Ptr>)
      requires Valid()
      modifies m`retired
      ensures Valid()
      ensures m.retired == Select(old(m.retired) + [obj], Slots(|registered|), true)
      ensures destroyed == Select(old(m.retired) + [obj], Slots(|registered|), false)
      ensures |Distinct(m.retired)| <= SLOTS_PER_MUTATOR * |registered|
    {
      m.retired := m.retired + [obj];
      destroyed := Gc(m);
    }
  }
}
