/** Lists of flows from which one occurrence is removed in place. */
module FlowLists {

  // The list without the first occurrence of x.
  function Without<T(==)>(list: seq<T>, x: T): seq<T> {
    if list == [] then []
    else if list[0] == x then list[1..]
    else [list[0]] + Without(list[1..], x)
  }

  // Removing takes one occurrence, the first, and leaves the others in their order.
  lemma {:induction false} WithoutFirst<T>(list: seq<T>, x: T, i: nat)
    requires i < |list| && list[i] == x && x !in list[..i]
    ensures Without(list, x) == list[..i] + list[i+1..]
  {
    if i > 0 {
      assert list[0] in list[..i];
      assert list[1..][..i-1] == list[..i][1..];
      WithoutFirst(list[1..], x, i - 1);
      assert list[..i] == [list[0]] + list[1..][..i-1];
    }
  }

  lemma {:induction false} WithoutAbsent<T>(list: seq<T>, x: T)
    requires x !in list
    ensures Without(list, x) == list
  {
    if list != [] {
      WithoutAbsent(list[1..], x);
    }
  }

  ghost predicate NoDuplicates<T>(list: seq<T>) {
    forall i, j :: 0 <= i < j < |list| ==> list[i] != list[j]
  }

  // From a list without duplicates, removing x takes x and nothing else.
  lemma {:induction false} WithoutUnique<T>(list: seq<T>, x: T)
    requires NoDuplicates(list)
    ensures NoDuplicates(Without(list, x))
    ensures forall y :: y in Without(list, x) <==> y in list && y != x
  {
    if list != [] {
      var tail := list[1..];
      assert forall y :: y in list <==> y == list[0] || y in tail;
      assert list[0] !in tail;
      WithoutUnique(tail, x);
    }
  }
}
