/**
 * Device buffers and the grow-only reuse policy every owner applies to them:
 * reallocate when the buffer is absent or smaller than the data about to be uploaded,
 * otherwise overwrite it in place.
 *
 * A `CuBuffer` is modelled by its capacity and by the records the last upload wrote;
 * there are no device semantics. Capacities are counted in records rather than bytes:
 * each buffer holds one record type, so `sizeof(T) * n` compares as `n` does. Allocating a new buffer is a fresh
 * object, overwriting one in place keeps the object (and so its device address).
 */
module DeviceBuffers {
  import opened Options

  class CuBuffer<T> {
    /** Records the cudaMalloc'd block holds; `Size()` divided by the record size. */
    const size: nat
    /** The records the last upload copied into the buffer. */
    var contents: seq<T>

    /** `CuBuffer(size, data)`: allocate room for `size` records and upload `data`. */
    constructor Create(size: nat, data: seq<T>)
      ensures this.size == size && contents == data
    {
      this.size := size;
      contents := data;
    }

    /** `CuBuffer(size)`: allocate only; nothing is uploaded. */
    constructor Allocate(size: nat)
      ensures this.size == size && contents == []
    {
      this.size := size;
      contents := [];
    }

    /** `SetData(data, size)`: overwrite from offset 0. */
    method SetData(data: seq<T>)
      modifies this
      ensures contents == data
    {
      contents := data;
    }
  }

  /** The capacity of an owned buffer, None for a null `unique_ptr`. */
  function CapacityOf<T>(b: CuBuffer?<T>): Option<nat> {
    if b == null then None else Some(b.size)
  }

  /** `!buffer || buffer->Size() < required` */
  predicate NeedsRealloc(current: Option<nat>, required: nat) {
    current.None? || current.value < required
  }

  /** The capacity after one upload of `required` records under the grow-only policy. */
  function CapacityAfter(current: Option<nat>, required: nat): (r: nat)
    ensures r >= required
    ensures current.Some? ==> r >= current.value
    ensures NeedsRealloc(current, required) <==> current != Some(r)
    ensures NeedsRealloc(current, required) ==> r == required
  {
    if NeedsRealloc(current, required) then required else current.value
  }

  /**
   * The grow-only upload: a fresh buffer of exactly `required` records when the old one is
   * absent or too small, otherwise the same buffer overwritten. The copy reads `required`
   * records from `data`, which must hold that many.
   */
  method Upload<T>(b: CuBuffer?<T>, required: nat, data: seq<T>) returns (r: CuBuffer<T>)
    requires required <= |data|
    modifies b
    ensures NeedsRealloc(CapacityOf(b), required) ==> fresh(r)
    ensures !NeedsRealloc(CapacityOf(b), required) ==> r == b
    ensures r.size == CapacityAfter(CapacityOf(b), required)
    ensures r.contents == data[..required]
  {
    if b == null || b.size < required {
      r := new CuBuffer.Create(required, data[..required]);
    } else {
      b.SetData(data[..required]);
      r := b;
    }
  }

  /**
   * Allocation without upload, `CuBuffer(size)` under the same policy: a fresh empty
   * buffer when the old one is absent or too small, otherwise the old one untouched.
   */
  method Reserve<T>(b: CuBuffer?<T>, required: nat) returns (r: CuBuffer<T>)
    ensures NeedsRealloc(CapacityOf(b), required) ==> fresh(r) && r.contents == []
    ensures !NeedsRealloc(CapacityOf(b), required) ==> r == b
    ensures r.size == CapacityAfter(CapacityOf(b), required)
  {
    if b == null || b.size < required {
      r := new CuBuffer.Allocate(required);
    } else {
      r := b;
    }
  }

  /** A record that is created on first use and overwritten on every later one. */
  method Store<T>(b: CuBuffer?<T>, size: nat, data: T) returns (r: CuBuffer<T>)
    modifies b
    ensures b == null ==> fresh(r) && r.size == size
    ensures b != null ==> r == b
    ensures r.contents == [data]
  {
    if b == null {
      r := new CuBuffer.Create(size, [data]);
    } else {
      b.SetData([data]);
      r := b;
    }
  }

  // ----- a sequence of uploads to one buffer -----

  /** Capacity after uploading `sizes[0]`, `sizes[1]`, ... in turn. */
  function CapacityAfterAll(current: Option<nat>, sizes: seq<nat>): Option<nat> {
    if sizes == [] then current
    else Some(CapacityAfter(CapacityAfterAll(current, sizes[..|sizes| - 1]), sizes[|sizes| - 1]))
  }

  function MaxOf(s: seq<nat>): (m: nat)
    requires |s| >= 1
  {
    if |s| == 1 then s[0]
    else if MaxOf(s[..|s| - 1]) < s[|s| - 1] then s[|s| - 1] else MaxOf(s[..|s| - 1])
  }

  lemma {:induction false} MaxOfBounds(s: seq<nat>)
    requires |s| >= 1
    ensures forall i | 0 <= i < |s| :: s[i] <= MaxOf(s)
    ensures exists i | 0 <= i < |s| :: s[i] == MaxOf(s)
  {
    if |s| > 1 {
      MaxOfBounds(s[..|s| - 1]);
      assert forall i | 0 <= i < |s| - 1 :: s[i] == s[..|s| - 1][i];
      var k :| 0 <= k < |s| - 1 && s[..|s| - 1][k] == MaxOf(s[..|s| - 1]);
      if MaxOf(s) != s[|s| - 1] {
        assert s[k] == MaxOf(s);
      } else {
        assert s[|s| - 1] == MaxOf(s);
      }
    } else {
      assert s[0] == MaxOf(s);
    }
  }

  /** Starting from no buffer, the capacity is the largest upload so far. */
  lemma {:induction false} CapacityIsLargestUpload(sizes: seq<nat>)
    requires |sizes| >= 1
    ensures CapacityAfterAll(None, sizes) == Some(MaxOf(sizes))
  {
    if |sizes| > 1 {
      CapacityIsLargestUpload(sizes[..|sizes| - 1]);
    }
  }

  /** The k-th upload reallocates exactly when it exceeds every earlier upload. */
  lemma ReallocatesOnNewMaximum(sizes: seq<nat>, k: nat)
    requires 1 <= k < |sizes|
    ensures NeedsRealloc(CapacityAfterAll(None, sizes[..k]), sizes[k])
        <==> forall i | 0 <= i < k :: sizes[i] < sizes[k]
  {
    CapacityIsLargestUpload(sizes[..k]);
    MaxOfBounds(sizes[..k]);
    assert forall i | 0 <= i < k :: sizes[..k][i] == sizes[i];
  }

  /** Capacity never shrinks along a sequence of uploads. */
  lemma {:induction false} CapacityNeverShrinks(current: Option<nat>, sizes: seq<nat>, j: nat)
    requires current.Some?
    requires j <= |sizes|
    ensures CapacityAfterAll(current, sizes[..j]).Some?
    ensures CapacityAfterAll(current, sizes).Some?
    ensures CapacityAfterAll(current, sizes[..j]).value <= CapacityAfterAll(current, sizes).value
  {
    if j < |sizes| {
      CapacityNeverShrinks(current, sizes[..|sizes| - 1], j);
      assert sizes[..|sizes| - 1][..j] == sizes[..j];
    } else {
      assert sizes[..j] == sizes;
    }
  }
}
