/** The array macros of src/DXAlgorithms.h and their capacity manager. */
module DxArrays {

  /** DX_NUMERIC_COMPARATOR */
  function NumericComparator(l: int, r: int): int {
    if l > r then 1 else if l < r then -1 else 0
  }

  /** `cmp(x)` is the comparator applied to an element and the key: negative when the element
      sorts before the key, zero on a match, positive when it sorts after. The run is ordered
      with respect to the key when the signs go negative, at most one zero, positive. */
  ghost predicate OrderedFor<T>(a: seq<T>, cmp: T -> int, lo: nat, hi: nat)
    requires lo <= hi <= |a|
  {
    && (forall i, j :: lo <= i < j < hi && cmp(a[i]) >= 0 ==> cmp(a[j]) > 0)
    && (forall i, j :: lo <= i < j < hi && cmp(a[j]) <= 0 ==> cmp(a[i]) < 0)
  }

  /** DX_ARRAY_BINARY_SEARCH: a match, or the place where the key keeps the order. */
  method BinarySearch<T>(a: seq<T>, start: nat, end: nat, cmp: T -> int) returns (found: bool, res: nat)
    requires start <= end <= |a|
    requires OrderedFor(a, cmp, start, end)
    ensures start <= res <= end
    ensures found ==> res < end && cmp(a[res]) == 0
    ensures forall i :: start <= i < res ==> cmp(a[i]) < 0
    ensures forall i :: res <= i < end && (found ==> i != res) ==> cmp(a[i]) > 0
  {
    var begin, last := start, end;
    found, res := false, end;
    while begin < last && !found
      invariant start <= begin <= last <= end
      invariant found ==> begin <= res < last && cmp(a[res]) == 0
      invariant forall i :: start <= i < begin ==> cmp(a[i]) < 0
      invariant forall i :: last <= i < end ==> cmp(a[i]) > 0
      decreases last - begin, !found
    {
      var mid := (begin + last) / 2;
      var order := cmp(a[mid]);
      if order == 0 {
        res := mid;
        found := true;
      } else if order < 0 {
        begin := mid + 1;
      } else {
        last := mid;
      }
    }
    if !found {
      res := last;
    }
  }

  /** dx_capacity_manager_halfer: whether to reallocate for `newSize` elements, and the new
      capacity. The C code grows by half in floating point and truncates, which for array sizes
      is `3 * capacity / 2`. */
  function Halfer(newSize: nat, capacity: nat): (r: (bool, nat))
    ensures newSize <= capacity + 1 ==> newSize <= r.1
    ensures r.0 <==> r.1 != capacity
  {
    if newSize > capacity then (true, 3 * capacity / 2 + 1)
    else if newSize < capacity && 2 * newSize < capacity then (true, newSize)
    else (false, capacity)
  }

  /** The memmove or memcpy of the cells from `position` on, one cell up, and the write into the
      gap. The cells below `position` are in place already. */
  method OpenGap<T>(dst: array<T>, src: array<T>, position: nat, n: nat, x: T)
    requires position <= n < dst.Length && n <= src.Length
    requires dst[..position] == src[..position]
    modifies dst
    ensures dst[..n + 1] == old(src[..position] + [x] + src[position..n])
  {
    forall i | position <= i < n { dst[i + 1] := src[i]; }
    dst[position] := x;
    assert forall i :: 0 <= i < position ==> dst[i] == old(dst[..position])[i] == old(src[..position])[i];
  }

  /** The cells above `position` move one cell down. Those below it are in place already. */
  method CloseGap<T>(dst: array<T>, src: array<T>, position: nat, n: nat)
    requires position < n <= src.Length && n - 1 <= dst.Length
    requires dst[..position] == src[..position]
    modifies dst
    ensures dst[..n - 1] == old(src[..position] + src[position + 1..n])
  {
    forall i | position <= i < n - 1 { dst[i] := src[i + 1]; }
    assert forall i :: 0 <= i < position ==> dst[i] == old(dst[..position])[i] == old(src[..position])[i];
    assert forall i :: position <= i < n - 1 ==> dst[i] == old(src[i + 1]);
  }

  /** An array descriptor: `elements` holds `capacity` cells, the first `size` of them in use. The
      NULL buffer of an empty C array is a buffer of no cells here. */
  class DxArray<T(0)> {
    var elements: array<T>
    var size: nat
    var capacity: nat

    ghost predicate Valid()
      reads this
    {
      size <= capacity == elements.Length
    }

    ghost function Contents(): seq<T>
      reads this, elements
      requires Valid()
    {
      elements[..size]
    }

    /** DX_EMPTY_ARRAY */
    constructor ()
      ensures Valid() && Contents() == [] && fresh(elements)
    {
      elements, size, capacity := new T[0], 0, 0;
    }

    /** The buffer for a new size: the old one, or a new one with the elements before `position` copied */
    method Reallocated(newSize: nat, position: nat) returns (buffer: array<T>)
      requires Valid() && position <= size && position <= newSize <= size + 1
      modifies this`capacity
      ensures capacity == buffer.Length >= newSize && (buffer == elements || fresh(buffer))
      ensures buffer[..position] == elements[..position]
    {
      buffer := elements;
      var (reallocate, newCapacity) := Halfer(newSize, capacity);
      capacity := newCapacity;
      if reallocate {
        buffer := new T[newCapacity];
        forall i | 0 <= i < position { buffer[i] := elements[i]; }
      }
    }

    /** DX_ARRAY_INSERT */
    method Insert(newElem: T, position: nat)
      requires Valid() && position <= size
      modifies this, elements
      ensures Valid()
      ensures elements == old(elements) || fresh(elements)
      ensures Contents() == old(Contents()[..position] + [newElem] + Contents()[position..])
    {
      var buffer := Reallocated(size + 1, position);
      ghost var was := elements[..size];
      assert was[..position] == elements[..position] && was[position..] == elements[position..size];
      OpenGap(buffer, elements, position, size, newElem);
      elements := buffer;
      size := size + 1;
      assert elements[..size] == was[..position] + [newElem] + was[position..];
    }

    /** DX_ARRAY_DELETE */
    method Delete(position: nat)
      requires Valid() && position < size
      modifies this, elements
      ensures Valid()
      ensures elements == old(elements) || fresh(elements)
      ensures Contents() == old(Contents()[..position] + Contents()[position + 1..])
    {
      var buffer := Reallocated(size - 1, position);
      ghost var was := elements[..size];
      assert was[..position] == buffer[..position] && was[position + 1..] == elements[position + 1..size];
      CloseGap(buffer, elements, position, size);
      elements := buffer;
      size := size - 1;
      assert elements[..size] == was[..position] + was[position + 1..];
    }

    /** DX_ARRAY_RESERVE: never shrinks; the elements in use keep their values. */
    method Reserve(reserveSize: nat)
      requires Valid()
      modifies this
      ensures Valid()
      ensures elements == old(elements) || fresh(elements)
      ensures size == if reserveSize <= old(size) then old(size) else reserveSize
      ensures Contents()[..old(size)] == old(Contents())
    {
      if reserveSize <= size {
        return;
      }
      if reserveSize > capacity {
        var buffer := new T[reserveSize];
        forall i | 0 <= i < size { buffer[i] := elements[i]; }
        capacity := reserveSize;
        elements := buffer;
      }
      size := reserveSize;
    }
  }

  /** Growing or shrinking by one keeps at least half of the capacity in use. */
  lemma HalferWastesLittle(size: nat, newSize: nat, capacity: nat)
    requires capacity <= 2 * size && size <= newSize + 1 && newSize <= size + 1 && size <= capacity
    ensures newSize <= Halfer(newSize, capacity).1 <= 2 * newSize
  {}

  /** No capacity changes while the size stays between its half and itself, and growing adds a half. */
  lemma HalferExactly(newSize: nat, capacity: nat)
    ensures newSize <= capacity <= 2 * newSize ==> !Halfer(newSize, capacity).0
    ensures newSize > capacity ==> 2 * Halfer(newSize, capacity).1 >= 3 * capacity + 1
  {}
}
