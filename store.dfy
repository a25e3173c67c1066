/** The C port's solution storage: a heap array of solution buffers that starts with
    room for 10 and doubles when full, a count of stored solutions, and the 10,000,000
    cap checked before anything else. */
module Store {
  import opened Selection
  import opened Engine

  const InitialCapacity: nat := 10

  class SolutionStore {
    var slots: array<seq<int>>
    var count: nat
    var capacity: nat

    /** `solution_capacity` is the length of the allocation, is never zero, and bounds
        `solution_count`, which never passes the cap. */
    ghost predicate Valid()
      reads this
    {
      slots.Length == capacity && 0 < capacity && count <= capacity && count <= MaxSolutions
    }

    /** The solutions stored so far, in the order they were stored. */
    ghost function Contents(): seq<seq<int>>
      reads this, slots
      requires Valid()
    {
      slots[..count]
    }

    /** `solution_count = 0; solution_capacity = 10; calloc(10, ...)`. */
    constructor()
      ensures Valid() && Contents() == [] && capacity == InitialCapacity
    {
      slots := new seq<int>[InitialCapacity];
      count := 0;
      capacity := InitialCapacity;
    }

    /** The accept step's storage: refuse once the cap is reached; otherwise double the
        capacity (copying into a fresh allocation) when full, then store at `count`. */
    method Record(sol: seq<int>) returns (stored: bool)
      requires Valid()
      modifies this, slots
      ensures Valid()
      ensures stored <==> old(count) < MaxSolutions
      ensures Contents() == if stored then old(Contents()) + [sol] else old(Contents())
      ensures capacity == if stored && old(count) == old(capacity) then 2 * old(capacity) else old(capacity)
      ensures slots == old(slots) || fresh(slots)
    {
      if count >= MaxSolutions {
        return false;
      }
      if count >= capacity {
        var grown := new seq<int>[2 * capacity];
        var k := 0;
        while k < count
          invariant k <= count
          invariant grown[..k] == slots[..k]
          modifies grown
        {
          grown[k] := slots[k];
          k := k + 1;
        }
        slots := grown;
        capacity := 2 * capacity;
      }
      slots[count] := sol;
      count := count + 1;
      return true;
    }

    /** Recording a run of solutions one after the other keeps what the capped search
        specification admits: the store's contents follow `Admit` at the C cap. */
    method RecordAll(sols: seq<seq<int>>)
      requires Valid()
      modifies this, slots
      ensures Valid()
      ensures Contents() == old(Contents()) + Admit(AtMost(MaxSolutions), old(count), sols)
    {
      var k := 0;
      while k < |sols|
        invariant k <= |sols|
        invariant Valid()
        invariant slots == old(slots) || fresh(slots)
        invariant Contents() == old(Contents()) + Admit(AtMost(MaxSolutions), old(count), sols[..k])
      {
        ghost var before := Contents();
        AdmitAppend(AtMost(MaxSolutions), old(count), sols[..k], [sols[k]]);
        assert sols[..k + 1] == sols[..k] + [sols[k]];
        var stored := Record(sols[k]);
        k := k + 1;
      }
      assert sols[..k] == sols;
    }
  }

  /** The C accept step's buffer: `malloc(i)` slots, of which the first `used` receive
      original[k] for each k < i whose marker is set, in index order. */
  method FillSolution(original: array<int>, x: array<bool>, i: nat) returns (sol: array<int>, used: nat)
    requires i <= original.Length && i <= x.Length
    ensures fresh(sol) && sol.Length == i
    ensures used <= i && sol[..used] == Pick(original[..], x[..i])
  {
    sol := new int[i];
    used := 0;
    var k := 0;
    while k < i
      invariant k <= i && used <= k
      invariant sol[..used] == Pick(original[..], x[..k])
    {
      assert x[..k + 1][..k] == x[..k];
      if x[k] {
        sol[used] := original[k];
        used := used + 1;
      }
      k := k + 1;
    }
  }
}
