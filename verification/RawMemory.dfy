/** The data container over memory that the caller allocated. */
module RawMemories {

  function Max(a: nat, b: nat): nat {
    if a > b then a else b
  }

  /** The capacity after a request for `n` elements. */
  function Grow(capacity: nat, n: nat): nat {
    if n > capacity then Max(capacity * 2, n) else capacity
  }

  function CapacityAfter(capacity: nat, requests: seq<nat>): nat
    decreases |requests|
  {
    if requests == [] then capacity
    else Grow(CapacityAfter(capacity, requests[..|requests| - 1]), requests[|requests| - 1])
  }

  /** The number of elements the reallocations copied. */
  function CopiedAfter(capacity: nat, requests: seq<nat>): nat
    decreases |requests|
  {
    if requests == [] then 0
    else
      var before := CapacityAfter(capacity, requests[..|requests| - 1]);
      CopiedAfter(capacity, requests[..|requests| - 1]) + (if requests[|requests| - 1] > before then before else 0)
  }

  function Largest(requests: seq<nat>): nat
    decreases |requests|
  {
    if requests == [] then 0 else Max(Largest(requests[..|requests| - 1]), requests[|requests| - 1])
  }

  /** Main result: growing costs no more copies than it gains capacity. */
  lemma {:induction false} CopyingIsAmortized(capacity: nat, requests: seq<nat>)
    ensures capacity + CopiedAfter(capacity, requests) <= CapacityAfter(capacity, requests)
    decreases |requests|
  {
    if requests != [] {
      CopyingIsAmortized(capacity, requests[..|requests| - 1]);
    }
  }

  /** The capacity holds every request and is at most twice the largest, unless it was larger to begin with. */
  lemma {:induction false} CapacityIsBounded(capacity: nat, requests: seq<nat>)
    ensures Max(capacity, Largest(requests)) <= CapacityAfter(capacity, requests)
    ensures CapacityAfter(capacity, requests) <= Max(capacity, 2 * Largest(requests))
    decreases |requests|
  {
    if requests != [] {
      CapacityIsBounded(capacity, requests[..|requests| - 1]);
    }
  }

  class RawMemory<T(0)> {
    var data: array<T>
    var size: nat
    var capacity: nat
    ghost var copied: nat

    ghost predicate Valid()
      reads this
    {
      data.Length == capacity && size <= capacity
    }

    constructor (memory: array<T>)
      ensures Valid() && data == memory && size == memory.Length && capacity == memory.Length && copied == 0
    {
      data, size, capacity, copied := memory, memory.Length, memory.Length, 0;
    }

    /** Elements between the sizes are kept too; new ones are arbitrary. */
    method Resize(n: nat)
      requires Valid()
      modifies this
      ensures Valid() && size == n && capacity == Grow(old(capacity), n)
      ensures data[..old(capacity)] == old(data[..])
      ensures copied == old(copied) + (if n > old(capacity) then old(capacity) else 0)
      ensures data == old(data) <==> n <= old(capacity)
      ensures data == old(data) || fresh(data)
    {
      size := n;
      if n > capacity {
        capacity := Max(capacity * 2, n);
        data := Reallocate(data, capacity);
        copied := copied + old(capacity);
      }
    }

    /** `realloc` to a larger block. */
    static method Reallocate(block: array<T>, n: nat) returns (larger: array<T>)
      requires n >= block.Length
      ensures fresh(larger) && larger.Length == n && larger[..block.Length] == block[..]
    {
      larger := new T[n];
      for i := 0 to block.Length
        invariant larger[..i] == block[..i]
      {
        larger[i] := block[i];
      }
    }

    /** Any sequence of requests. */
    method ResizeAll(requests: seq<nat>)
      requires Valid()
      modifies this
      ensures Valid() && (requests != [] ==> size == requests[|requests| - 1])
      ensures capacity == CapacityAfter(old(capacity), requests)
      ensures old(capacity) <= data.Length && data[..old(capacity)] == old(data[..])
      ensures old(capacity) + (copied - old(copied)) <= capacity
      ensures capacity <= Max(old(capacity), 2 * Largest(requests))
    {
      ghost var start := capacity;
      ghost var content := data[..];
      for i := 0 to |requests|
        invariant Valid() && (i > 0 ==> size == requests[i - 1])
        invariant capacity == CapacityAfter(start, requests[..i])
        invariant copied == old(copied) + CopiedAfter(start, requests[..i])
        invariant start <= data.Length && data[..start] == content
        invariant data == old(data) || fresh(data)
      {
        assert requests[..i + 1][..i] == requests[..i];
        ghost var before := data[..];
        Resize(requests[i]);
        assert data[..start] == before[..start];
      }
      assert requests[..|requests|] == requests;
      CopyingIsAmortized(start, requests);
      CapacityIsBounded(start, requests);
    }
  }
}
