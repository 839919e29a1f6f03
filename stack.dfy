/** The operand stack (src/stack.rs): a thin wrapper over a growable vector
    whose top is the last element. */
module Stacks {
  import opened Errors

  class Stack<T> {
    /** The vector, bottom first. */
    var items: seq<T>

    /** `Stack::new`: an empty stack. */
    constructor()
      ensures items == []
      ensures Length() == 0 && Last() == None
    {
      items := [];
    }

    /** `push`: appends `value`, which becomes the top. */
    method Push(value: T)
      modifies this
      ensures items == old(items) + [value]
      ensures Last() == Some(value)
      ensures Length() == old(Length()) + 1
    {
      items := items + [value];
    }

    /** `pop`: removes and returns the top; on an empty stack returns `None`
        and changes nothing. */
    method Pop() returns (r: Option<T>)
      modifies this
      ensures old(items) == [] ==> r == None && items == []
      ensures old(items) != [] ==>
        r == Some(old(items)[|old(items)| - 1]) && items == old(items)[..|old(items)| - 1]
      ensures r == old(Last())
    {
      if items == [] {
        r := None;
      } else {
        r := Some(items[|items| - 1]);
        items := items[..|items| - 1];
      }
    }

    /** `last`: the top, if any. */
    function Last(): (r: Option<T>)
      reads this
      ensures r.None? <==> items == []
      ensures r.Some? ==> r.value == items[|items| - 1] && r.value in items
    {
      if items == [] then None else Some(items[|items| - 1])
    }

    /** `length`: the number of items. */
    function Length(): (n: nat)
      reads this
      ensures n == 0 <==> Last().None?
      ensures n == |items|
    {
      |items|
    }

    /** `swap(a, b)`: exchanges two positions, both of which must exist
        (`Vec::swap` panics otherwise). */
    method Swap(a: nat, b: nat)
      requires a < |items| && b < |items|
      modifies this
      ensures |items| == |old(items)|
      ensures items[a] == old(items)[b] && items[b] == old(items)[a]
      ensures forall i | 0 <= i < |items| && i != a && i != b :: items[i] == old(items)[i]
      ensures multiset(items) == multiset(old(items))
    {
      var x, y := items[a], items[b];
      items := items[a := y][b := x];
    }

    /** `get(a)`: the item at position `a` from the bottom, which must
        exist. */
    function Get(a: nat): (r: T)
      requires a < Length()
      reads this
      ensures r == items[a]
      ensures r in items
      ensures a == Length() - 1 ==> Last() == Some(r)
    {
      items[a]
    }

    /** `remove(a)`: takes out the item at position `a` and shifts the
        later ones down; `a` must exist (`Vec::remove` panics otherwise). */
    method Remove(a: nat) returns (x: T)
      requires a < |items|
      modifies this
      ensures x == old(items)[a]
      ensures items == old(items)[..a] + old(items)[a + 1..]
      ensures |items| == |old(items)| - 1
      ensures multiset(items) + multiset{x} == multiset(old(items))
    {
      x := items[a];
      assert items == items[..a] + [x] + items[a + 1..];
      items := items[..a] + items[a + 1..];
    }
  }

  /** `push(v)` followed by `pop()` returns `v` and restores the stack. */
  method PushThenPop<T>(s: Stack<T>, v: T) returns (r: Option<T>)
    modifies s
    ensures r == Some(v)
    ensures s.items == old(s.items)
  {
    s.Push(v);
    assert (old(s.items) + [v])[..|old(s.items)|] == old(s.items);
    r := s.Pop();
  }
}
