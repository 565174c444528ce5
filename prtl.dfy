/* prtl::array<T> of prtl.h: the bounds-checked growable array that holds every
   collection of the decoder. The pure functions state what each operation
   does to the contents; the class performs it on a real buffer. */
module Prtl {
  import opened Wrappers

  const NotEnoughMemory: string := "array[] not enough memory"
  const OutOfBounds: string := "array[] out of bounds"

  /** Contents after resize(count, value). A null buffer is taken for an
      allocation failure, so shrinking a non-empty array to 0 throws. */
  function Resized<T>(s: seq<T>, count: nat, value: T): (r: Result<seq<T>>)
    ensures count == |s| ==> r == Success(s)
    ensures r.Failure? <==> count == 0 && |s| != 0
    ensures r.Failure? ==> r.error == ArrayError(NotEnoughMemory)
    ensures r.Success? ==> |r.value| == count
    ensures r.Success? ==> forall i | 0 <= i < count && i < |s| :: r.value[i] == s[i]
    ensures r.Success? ==> forall i | |s| <= i < count :: r.value[i] == value
  {
    if count == |s| then Success(s)
    else if count == 0 then Failure(ArrayError(NotEnoughMemory))
    else if count < |s| then Success(s[..count])
    else Success(s + seq(count - |s|, _ => value))
  }

  /** operator[] used to read. */
  function At<T>(s: seq<T>, index: nat): (r: Result<T>)
    ensures r.Success? <==> index < |s|
    ensures r.Success? ==> r.value == s[index]
    ensures r.Failure? ==> r.error == ArrayError(OutOfBounds)
  { if index < |s| then Success(s[index]) else Failure(ArrayError(OutOfBounds)) }

  /** operator[] used to assign. */
  function Store<T>(s: seq<T>, index: nat, v: T): (r: Result<seq<T>>)
    ensures r.Success? <==> index < |s|
    ensures r.Success? ==> |r.value| == |s| && r.value[index] == v
    ensures r.Success? ==> forall i | 0 <= i < |s| && i != index :: r.value[i] == s[i]
    ensures r.Failure? ==> r.error == ArrayError(OutOfBounds)
  { if index < |s| then Success(s[index := v]) else Failure(ArrayError(OutOfBounds)) }

  /** Contents after copy(src): grow to the source's size if smaller, then
      assign element by element through the source's operator[]. */
  function CopiedFrom<T>(dst: seq<T>, src: seq<T>): (r: Result<seq<T>>)
    ensures r.Success? <==> |dst| <= |src|
    ensures r.Success? ==> r.value == src
    ensures r.Failure? ==> r.error == ArrayError(OutOfBounds)
  { if |dst| <= |src| then Success(src) else Failure(ArrayError(OutOfBounds)) }

  class Array<T(0)> {
    var data: array?<T>
    var size: nat

    /** A usable array: the buffer is null exactly when the size is 0. A failed
        shrink to 0 leaves a null buffer with the old size, which is not Valid. */
    ghost predicate Valid() reads this {
      (data == null <==> size == 0) && (data != null ==> data.Length == size)
    }

    ghost function Contents(): seq<T>
      reads this, data
      requires Valid()
    { if data == null then [] else data[..] }

    /** array() */
    constructor ()
      ensures Valid() && Contents() == []
    {
      data := null;
      size := 0;
    }

    /** array(size), which is resize(size) on an empty array: `count` copies of
        the value-initialised element. */
    constructor Sized(count: nat)
      ensures Valid() && |Contents()| == count
      ensures forall i | 0 <= i < count :: Contents()[i] == Contents()[0]
      ensures count > 0 ==> Resized([], count, Contents()[0]) == Success(Contents())
    {
      size := count;
      if count == 0 {
        data := null;
      } else {
        var z := Default();
        var buffer := new T[count];
        var i := 0;
        while i < count
          invariant 0 <= i <= count
          invariant forall k | 0 <= k < i :: buffer[k] == z
        {
          buffer[i] := z;
          i := i + 1;
        }
        assert buffer[..] == [] + seq(count, _ => z);
        data := buffer;
      }
    }

    /** T(): the value-initialised element, read from a fresh one-slot buffer. */
    static method Default() returns (z: T)
    {
      var cell := new T[1];
      z := cell[0];
    }

    /** size() */
    method Size() returns (n: nat)
      requires Valid()
      ensures n == |Contents()|
    {
      n := size;
    }

    /** empty() */
    method Empty() returns (b: bool)
      requires Valid()
      ensures b <==> Contents() == []
    {
      b := size == 0;
    }

    /** resize(count, value) */
    method Resize(count: nat, value: T) returns (r: Result<()>)
      requires Valid()
      modifies this
      ensures r.Success? <==> Resized(old(Contents()), count, value).Success?
      ensures r.Success? ==> Valid() && Contents() == Resized(old(Contents()), count, value).value
      ensures r.Success? && count != old(size) ==> fresh(data)
      ensures r.Success? && count == old(size) ==> data == old(data)
      ensures r.Failure? ==> r == Failure(ArrayError(NotEnoughMemory)) && data == null && size == old(size)
    {
      if count == size { return Success(()); }
      var temp := data;
      if count == 0 {
        data := null;
        return Failure(ArrayError(NotEnoughMemory));
      }
      ghost var s := Contents();
      assert temp != null ==> temp.Length == size && s == temp[..];
      var grown := new T[count];
      var i := size;
      while i < count
        modifies grown
        invariant i >= size && (i <= count || count < size)
        invariant forall k | size <= k < i && k < count :: grown[k] == value
      {
        grown[i] := value;
        i := i + 1;
      }
      var m := if count > size then size else count;
      if temp != null {
        i := 0;
        while i < m
          modifies grown
          invariant 0 <= i <= m && temp.Length == size && m <= count
          invariant forall k | 0 <= k < i :: grown[k] == temp[k]
          invariant forall k | size <= k < count :: grown[k] == value
        {
          grown[i] := temp[i];
          i := i + 1;
        }
      }
      data := grown;
      size := count;
      r := Success(());
      ghost var want := Resized(s, count, value).value;
      assert forall k | 0 <= k < count :: grown[k] == want[k] by {
        forall k | 0 <= k < count ensures grown[k] == want[k] {
          if k < m { assert temp != null && grown[k] == temp[k] == s[k]; }
        }
      }
      assert grown[..] == want;
    }

    /** operator[] read */
    method Get(index: nat) returns (r: Result<T>)
      requires Valid()
      ensures r == At(Contents(), index)
    {
      if index >= size { return Failure(ArrayError(OutOfBounds)); }
      r := Success(data[index]);
    }

    /** operator[] assignment */
    method Set(index: nat, v: T) returns (r: Result<()>)
      requires Valid()
      modifies data
      ensures Valid()
      ensures r.Success? <==> Store(old(Contents()), index, v).Success?
      ensures r.Success? ==> Contents() == Store(old(Contents()), index, v).value
      ensures r.Failure? ==> r.error == ArrayError(OutOfBounds) && Contents() == old(Contents())
    {
      if index >= size { return Failure(ArrayError(OutOfBounds)); }
      data[index] := v;
      r := Success(());
    }

    /** copy(a). When this array is longer than `a`, the copy runs past the end of
        `a` and throws after assigning the first |a| elements. */
    method CopyFrom(a: Array<T>) returns (r: Result<()>)
      requires Valid() && a.Valid()
      requires a == this || a.data == null || a.data != data
      modifies this, data
      ensures Valid() && a.Valid() && a.Contents() == old(a.Contents())
      ensures r.Success? <==> CopiedFrom(old(Contents()), old(a.Contents())).Success?
      ensures r.Success? ==> Contents() == CopiedFrom(old(Contents()), old(a.Contents())).value
      ensures r.Failure? ==> r.error == ArrayError(OutOfBounds)
      ensures r.Failure? ==> Contents() == old(a.Contents()) + old(Contents())[|old(a.Contents())|..]
    {
      ghost var A, S0 := a.Contents(), Contents();
      var n := a.size;
      if n > size {
        var z := Default();
        var _ := Resize(n, z);
      }
      var i := 0;
      while i < size
        invariant Valid() && a.Valid()
        invariant data == old(data) || fresh(data)
        invariant a != this ==> a.data == old(a.data) && a.size == old(a.size) && a.Contents() == A
        invariant a == this ==> size == n
        invariant size == if |S0| < n then n else |S0|
        invariant 0 <= i <= n && i <= size
        invariant forall k | 0 <= k < i :: data[k] == A[k]
        invariant |S0| >= n ==> forall k | i <= k < size :: data[k] == S0[k]
      {
        var x := a.Get(i);
        if x.Failure? {
          assert Contents() == A + S0[n..];
          return Failure(x.error);
        }
        data[i] := x.value;
        i := i + 1;
      }
      assert Contents() == A;
      r := Success(());
    }
  }
}
