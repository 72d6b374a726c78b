/** `array_swap_last` of `src/state.hpp`: the slot at `index` is overwritten
    with the last live element, the usual first half of an unordered removal.
    The count is passed by value; shrinking the array is the caller's job. */
module ArrayState {

  /** The array's contents after the copy. */
  function SwapLast<T>(s: seq<T>, count: int, index: int): (r: seq<T>)
    requires 0 <= index < count <= |s|
    ensures |r| == |s|
    ensures r[index] == s[count - 1]
    ensures forall j :: 0 <= j < |s| && j != index ==> r[j] == s[j]
  {
    s[index := s[count - 1]]
  }

  /** The copy on an array in place: one element is written, every other one,
      the last live element included, is left as it was. */
  method ArraySwapLast<T>(arr: array<T>, count: int, index: int)
    requires 0 <= index < count <= arr.Length
    modifies arr
    ensures arr[..] == SwapLast(old(arr[..]), count, index)
    ensures arr[index] == old(arr[count - 1])
    ensures forall j :: 0 <= j < arr.Length && j != index ==> arr[j] == old(arr[j])
  {
    arr[index] := arr[count - 1];
  }

  /** What the caller gets after shrinking the count by one: the live
      elements are the old ones with the element at `index` removed, once. */
  lemma RemoveBySwapLast<T>(s: seq<T>, count: int, index: int)
    requires 0 <= index < count <= |s|
    ensures multiset(SwapLast(s, count, index)[..count - 1]) == multiset(s[..count]) - multiset{s[index]}
  {
    var r := SwapLast(s, count, index);
    assert s[..count] == s[..count - 1] + [s[count - 1]];
    if index == count - 1 {
      assert r[..count - 1] == s[..count - 1];
    } else {
      assert s[..count - 1] == s[..index] + [s[index]] + s[index + 1..count - 1];
      assert r[..count - 1] == s[..index] + [s[count - 1]] + s[index + 1..count - 1];
    }
  }

  /** Removing the last live element: the slot is overwritten with itself.
      The `memcpy` then has overlapping source and destination, which C
      leaves undefined (ISO/IEC 9899:2011, section 7.24.2.1); the model
      gives this case the meaning of the identity. */
  lemma SwapLastOfLastIsIdentity<T>(s: seq<T>, count: int)
    requires 0 < count <= |s|
    ensures SwapLast(s, count, count - 1) == s
  {
  }
}
