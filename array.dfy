/** The bounded array (src/entities/complex/array.rs). `new(n)` pre-fills `n`
    slots with `Integer(0)` and sets the capacity to `n` with a size of 0;
    `push` then appends after those pre-filled slots while the size is below
    the capacity, and `set` overwrites one of the first `capacity` slots.

    The behaviour is stated twice: as functions on the `ArrayValue` a
    `Literal::Array` carries, with the lemmas about them, and as the `Array`
    class whose methods update its fields in place and are proved to match
    those functions. */
module Arrays {
  import opened Errors
  import opened Literals

  /** The invariant every array keeps: the size never exceeds the capacity,
      and the storage holds the `capacity` pre-filled slots plus one slot per
      pushed value. */
  predicate WellFormed(a: ArrayValue) {
    a.size <= a.capacity && |a.storage| == a.capacity + a.size
  }

  /** `Array::new(n)`. */
  function NewValue(n: nat): (a: ArrayValue)
    ensures WellFormed(a)
    ensures a.capacity == n && a.size == 0 && |a.storage| == n
    ensures forall i | 0 <= i < n :: a.storage[i] == Integer(0)
  {
    ArrayValue(seq(n, _ => Integer(0)), 0, n)
  }

  /** `Array::get(i)`: `Some` of slot `i` when the storage has it. */
  function GetValue(a: ArrayValue, i: nat): (r: Option<Literal>)
    ensures r.Some? <==> i < |a.storage|
    ensures r.Some? ==> r.value == a.storage[i]
  {
    if i < |a.storage| then Some(a.storage[i]) else None
  }

  /** `Array::push(v)`: full (size equal to capacity) is `IndexOutOfBound`
      with the array unchanged; otherwise `v` is appended and the size grows
      by one. */
  function PushValue(a: ArrayValue, v: Literal): (e: Effect<ArrayValue>)
    ensures e.after.capacity == a.capacity
    ensures e.result.Err? <==> a.size == a.capacity
    ensures e.result.Err? ==> e.result.error == IndexOutOfBound && e.after == a
    ensures e.result.Ok? ==> e.after.storage == a.storage + [v] && e.after.size == a.size + 1
  {
    if a.size == a.capacity then Effect(a, Err(IndexOutOfBound))
    else Effect(ArrayValue(a.storage + [v], a.size + 1, a.capacity), Ok(()))
  }

  /** `Array::set(i, v)`: an index below the capacity overwrites slot `i`;
      any other index is `IndexOutOfBound` with the array unchanged. */
  function SetValue(a: ArrayValue, i: nat, v: Literal): (e: Effect<ArrayValue>)
    requires WellFormed(a)
    ensures e.result.Err? <==> i >= a.capacity
    ensures e.result.Err? ==> e.result.error == IndexOutOfBound && e.after == a
    ensures e.result.Ok? ==>
      && e.after.size == a.size && e.after.capacity == a.capacity
      && |e.after.storage| == |a.storage|
      && e.after.storage[i] == v
      && forall j | 0 <= j < |a.storage| && j != i :: e.after.storage[j] == a.storage[j]
  {
    if i < a.capacity then Effect(a.(storage := a.storage[i := v]), Ok(()))
    else Effect(a, Err(IndexOutOfBound))
  }

  /** Both updates keep the invariant and the capacity. */
  lemma UpdatesKeepWellFormed(a: ArrayValue, i: nat, v: Literal)
    requires WellFormed(a)
    ensures WellFormed(PushValue(a, v).after) && PushValue(a, v).after.capacity == a.capacity
    ensures WellFormed(SetValue(a, i, v).after) && SetValue(a, i, v).after.capacity == a.capacity
  {}

  /** Setting a slot and reading it back yields the value; a set outside the
      capacity leaves every slot readable as before. */
  lemma SetThenGet(a: ArrayValue, i: nat, j: nat, v: Literal)
    requires WellFormed(a)
    ensures i < a.capacity ==> GetValue(SetValue(a, i, v).after, i) == Some(v)
    ensures j != i ==> GetValue(SetValue(a, i, v).after, j) == GetValue(a, j)
  {}

  /** A successful push is readable at the end of the storage, behind the
      `capacity` pre-filled slots and the earlier pushes. */
  lemma PushThenGet(a: ArrayValue, v: Literal)
    requires WellFormed(a) && a.size < a.capacity
    ensures GetValue(PushValue(a, v).after, a.capacity + a.size) == Some(v)
    ensures forall j | 0 <= j < |a.storage| :: GetValue(PushValue(a, v).after, j) == GetValue(a, j)
  {}

  /** Pushing `vs` in order onto `a`, stopping at the first failure. */
  function PushAll(a: ArrayValue, vs: seq<Literal>): Effect<ArrayValue>
    decreases vs
  {
    if vs == [] then Effect(a, Ok(()))
    else
      var e := PushValue(a, vs[0]);
      if e.result.Err? then e else PushAll(e.after, vs[1..])
  }

  /** A fresh array of capacity `n` accepts exactly `n` pushes: pushing `n`
      values succeeds and leaves them after the `n` zero slots, and one more
      push fails with `IndexOutOfBound`. */
  lemma {:induction false} FreshArrayAcceptsCapacityPushes(n: nat, vs: seq<Literal>, extra: Literal)
    requires |vs| == n
    ensures PushAll(NewValue(n), vs).result == Ok(())
    ensures PushAll(NewValue(n), vs).after.storage == NewValue(n).storage + vs
    ensures PushValue(PushAll(NewValue(n), vs).after, extra) ==
      Effect(PushAll(NewValue(n), vs).after, Err(IndexOutOfBound))
  {
    PushAllBelowCapacity(NewValue(n), vs);
  }

  lemma {:induction false} PushAllBelowCapacity(a: ArrayValue, vs: seq<Literal>)
    requires WellFormed(a) && a.size + |vs| <= a.capacity
    ensures PushAll(a, vs).result == Ok(())
    ensures PushAll(a, vs).after == ArrayValue(a.storage + vs, a.size + |vs|, a.capacity)
    decreases vs
  {
    if vs != [] {
      var b := PushValue(a, vs[0]).after;
      PushAllBelowCapacity(b, vs[1..]);
      assert a.storage + [vs[0]] + vs[1..] == a.storage + vs;
    }
  }

  /** The array object: the three fields of the source's struct, updated in
      place. */
  class Array {
    var storage: seq<Literal>
    var size: nat
    var capacity: nat

    /** The field values, as a `Literal::Array` carries them. */
    function Value(): ArrayValue
      reads this
    {
      ArrayValue(storage, size, capacity)
    }

    ghost predicate Valid()
      reads this
    {
      WellFormed(Value())
    }

    /** `Array::new(n)`. */
    constructor(n: nat)
      ensures Value() == NewValue(n)
      ensures Valid()
    {
      storage := seq(n, _ => Integer(0));
      size := 0;
      capacity := n;
    }

    /** `Array::get(i)`; reads only. */
    function Get(i: nat): (r: Option<Literal>)
      reads this
      ensures r == GetValue(Value(), i)
    {
      if i < |storage| then Some(storage[i]) else None
    }

    /** `Array::capacity()`. */
    function Capacity(): (c: nat)
      reads this
      ensures c == Value().capacity
    {
      capacity
    }

    /** `Array::push(v)`. */
    method Push(v: Literal) returns (r: Result<()>)
      requires Valid()
      modifies this
      ensures Valid()
      ensures Effect(Value(), r) == PushValue(old(Value()), v)
    {
      if size == capacity {
        r := Err(IndexOutOfBound);
      } else {
        storage := storage + [v];
        size := size + 1;
        r := Ok(());
      }
    }

    /** `Array::set(i, v)`. */
    method Set(i: nat, v: Literal) returns (r: Result<()>)
      requires Valid()
      modifies this
      ensures Valid()
      ensures Effect(Value(), r) == SetValue(old(Value()), i, v)
    {
      if i < capacity {
        storage := storage[i := v];
        r := Ok(());
      } else {
        r := Err(IndexOutOfBound);
      }
    }

    /** `array[i]` (`Index`): slot `i`, which must exist. */
    function At(i: nat): (r: Literal)
      requires i < |storage|
      reads this
      ensures Get(i) == Some(r)
    {
      storage[i]
    }

    /** A write through `&mut array[i]` (`IndexMut`): slot `i`, which must
        exist, is replaced and nothing else changes. Unlike `set`, a pushed
        slot beyond the capacity can be written this way. */
    method AssignAt(i: nat, v: Literal)
      requires Valid() && i < |storage|
      modifies this
      ensures Valid()
      ensures Value() == old(Value()).(storage := old(storage)[i := v])
      ensures At(i) == v
    {
      storage := storage[i := v];
    }
  }
}
