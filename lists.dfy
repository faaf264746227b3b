/** Operations of `java.util.List` that the core relies on, on sequences. */
module Lists {

  /** `List.remove(int index)`: the list without the element at `i`, the rest in order. */
  function RemoveAt<T>(s: seq<T>, i: nat): (r: seq<T>)
    requires i < |s|
    ensures |r| == |s| - 1
    ensures forall a :: 0 <= a < i ==> r[a] == s[a]
    ensures forall a :: i <= a < |r| ==> r[a] == s[a + 1]
  {
    s[..i] + s[i + 1..]
  }
}
