/** The fixed-capacity ring behind every rolling statistic
    (snapshot_quant_v4/buffers/ring_buffer.py). */
module RingBuffers {
  import opened Prelude

  class RingBuffer {
    const capacity: nat
    const data: array<real>
    var index: nat
    var count: nat

    ghost predicate Valid()
      reads this
    {
      && 0 < capacity == data.Length
      && index < capacity
      && count <= capacity
      && (count < capacity ==> index == count)
    }

    /** The retained samples, oldest first. */
    ghost function Contents(): (s: seq<real>)
      requires Valid()
      reads this, data
      ensures |s| == count
    {
      if count < capacity then data[..count] else data[index..] + data[..index]
    }

    constructor (capacity: nat)
      requires 0 < capacity
      ensures Valid() && fresh(data)
      ensures this.capacity == capacity && Contents() == []
    {
      this.capacity := capacity;
      data := new real[capacity](_ => 0.0);
      index, count := 0, 0;
    }

    /** Appends a sample and hands back the one that left the window, if any. */
    method Push(value: real) returns (evicted: Option<real>)
      requires Valid()
      modifies this, data
      ensures Valid()
      ensures Contents() == LastN(old(Contents()) + [value], capacity)
      ensures evicted == if |old(Contents())| == capacity then Some(old(Contents())[0]) else None
    {
      ghost var before := Contents();
      evicted := None;
      if count == capacity {
        evicted := Some(data[index]);
      } else {
        count := count + 1;
      }
      data[index] := value;
      index := index + 1;
      if index == capacity {
        index := 0;
      }
      assert Contents() == if |before| < capacity then before + [value] else before[1..] + [value];
    }

    method Clear()
      requires Valid()
      modifies this
      ensures Valid()
      ensures Contents() == []
    {
      index, count := 0, 0;
    }

    /** Access by age; None is the IndexError of an age not populated. */
    function At(age: int): (r: Option<real>)
      requires Valid()
      reads this, data
      ensures r.Some? <==> 0 <= age < |Contents()|
      ensures r.Some? ==> r.value == Contents()[|Contents()| - 1 - age]
    {
      if age < 0 || age >= count then None
      else
        var position := index - 1 - age;
        Some(data[if position < 0 then position + capacity else position])
    }

    /** Oldest-to-newest iteration, used for the periodic exact recomputation. */
    method Values() returns (values: seq<real>)
      requires Valid()
      ensures values == Contents()
    {
      var start: int := index - count;
      if start < 0 {
        start := start + capacity;
      }
      values := [];
      for offset := 0 to count
        invariant values == Contents()[..offset]
      {
        var position := start + offset;
        if position >= capacity {
          position := position - capacity;
        }
        values := values + [data[position]];
      }
    }
  }
}
