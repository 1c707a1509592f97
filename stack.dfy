/** The stack of src/main/java/tdd/collection/lifo/Stack.java as a class
    over an array of slots. An empty slot is `None` (Java's `null`). Every
    operation is proved to change the stack's abstract state, `View()`, as
    the matching function of `LifoModel` says. */
module Lifo {
  import opened LifoValues
  import opened LifoModel

  /** Copies the first `n` slots of `src` into `dst` and leaves the rest of
      `dst` alone, as `System.arraycopy(src, 0, dst, 0, n)` does. */
  method ArrayCopy(src: array<Option<Value>>, dst: array<Option<Value>>, n: nat)
    requires n <= src.Length && n <= dst.Length
    modifies dst
    ensures forall i :: 0 <= i < n ==> dst[i] == old(src[i])
    ensures forall i :: n <= i < dst.Length ==> dst[i] == old(dst[i])
  {
    var k := 0;
    while k < n
      invariant k <= n
      invariant forall i :: 0 <= i < k ==> dst[i] == old(src[i])
      invariant forall i :: k <= i < dst.Length ==> dst[i] == old(dst[i])
      invariant forall i :: k <= i < src.Length ==> src[i] == old(src[i])
    {
      dst[k] := src[k];
      k := k + 1;
    }
  }

  class Stack {
    /** The slots; `offset` is both the number of live values and the index
        of the first free slot. */
    var sump: array<Option<Value>>
    var offset: nat
    /** The declared class of a typed stack. */
    var classType: Option<ClassTag>

    /** The live values, bottom to top. */
    ghost var Contents: seq<Value>

    /** The abstract state. */
    ghost function View(): Model
      reads this
    {
      Model(Contents, sump.Length, classType)
    }

    /** The object invariant: the abstract state is well formed, the first
        `offset` slots hold the live values and every other slot is empty. */
    ghost predicate Valid()
      reads this, sump
    {
      Wf(View()) &&
      offset == |Contents| &&
      (forall i :: 0 <= i < offset ==> sump[i] == Some(Contents[i])) &&
      (forall i :: offset <= i < sump.Length ==> sump[i] == None)
    }

    /** An untyped stack with `capacity` empty slots. */
    constructor (capacity: nat)
      ensures Valid() && fresh(sump)
      ensures View() == Model([], capacity, None)
    {
      sump := new Option<Value>[capacity](_ => None);
      offset := 0;
      classType := None;
      Contents := [];
    }

    /** An untyped stack with the default capacity. */
    constructor Default()
      ensures Valid() && fresh(sump)
      ensures View() == Model([], DefaultInitialCapacity, None)
    {
      sump := new Option<Value>[DefaultInitialCapacity](_ => None);
      offset := 0;
      classType := None;
      Contents := [];
    }

    /** A stack typed by `clazz` with `capacity` empty slots; a missing class
        (Java's `null`) gives an untyped stack. */
    constructor Typed(clazz: Option<ClassTag>, capacity: nat)
      ensures Valid() && fresh(sump)
      ensures View() == Model([], capacity, clazz)
    {
      sump := new Option<Value>[capacity](_ => None);
      offset := 0;
      classType := clazz;
      Contents := [];
    }

    /** A stack typed by `clazz` with the default capacity. */
    constructor TypedDefault(clazz: Option<ClassTag>)
      ensures Valid() && fresh(sump)
      ensures View() == Model([], DefaultInitialCapacity, clazz)
    {
      sump := new Option<Value>[DefaultInitialCapacity](_ => None);
      offset := 0;
      classType := clazz;
      Contents := [];
    }

    function Size(): (n: nat)
      reads this, sump
      requires Valid()
      ensures n == |Contents|
    {
      offset
    }

    function Capacity(): (c: nat)
      reads this, sump
      requires Valid()
      ensures Size() <= c
    {
      sump.Length
    }

    function IsTyped(): (t: bool)
      reads this
      ensures t <==> classType.Some?
    {
      classType != None
    }

    function IsEmpty(): (e: bool)
      reads this, sump
      requires Valid()
      ensures e <==> Contents == []
    {
      Size() == 0
    }

    /** Despite its name, holds exactly when the stack has a live value. */
    predicate SumpNullOrEmpty()
      reads this, sump
      requires Valid()
      ensures SumpNullOrEmpty() <==> Contents != []
    {
      Size() != 0
    }

    /** Pushes `v`. A typed stack refuses an object of another class and is
        then left as it was. A full stack first moves to a fresh array of
        `GrownCapacity` slots. When that array has no free slot (capacity 0
        or 1) the store fails: `offset` has already been advanced and the
        stack is left broken, with `Valid()` false. */
    method Push(v: Value) returns (err: Option<PushError>)
      requires Valid()
      modifies this, sump
      ensures classType == old(classType)
      ensures sump == old(sump) || fresh(sump)
      ensures err.None? <==> PushModel(old(View()), v).Success?
      ensures err.None? ==> Valid() && View() == PushModel(old(View()), v).value
      ensures err.Some? ==> err.value == PushModel(old(View()), v).error
      ensures err.Some? && err.value.TypeMismatch? ==>
                Valid() && sump == old(sump) && unchanged(sump) && View() == old(View())
      ensures err.Some? && err.value.IndexOutOfBounds? ==>
                !Valid() && offset == old(offset) + 1 && sump.Length == old(sump.Length) &&
                sump[..] == old(sump[..]) && Contents == old(Contents)
    {
      if IsTyped() && v.cls != classType.value {
        return Some(TypeMismatch(v.cls, classType.value));
      }
      if Size() == Capacity() {
        var stretchOn := Stretch(Capacity());
        var grown := new Option<Value>[Capacity() + stretchOn](_ => None);
        ArrayCopy(sump, grown, Capacity());
        sump := grown;
        assert sump[..old(sump.Length)] == old(sump[..]);
      }
      if offset < sump.Length {
        sump[offset] := Some(v);
        offset := offset + 1;
        Contents := Contents + [v];
        err := None;
      } else {
        err := Some(IndexOutOfBounds(offset, sump.Length));
        offset := offset + 1;
      }
    }

    /** Removes and returns the top value, emptying its slot; on an empty
        stack returns `None` and changes nothing. */
    method Pull() returns (r: Option<Value>)
      requires Valid()
      modifies this, sump
      ensures Valid() && sump == old(sump) && classType == old(classType)
      ensures (r, View()) == PullModel(old(View()))
      ensures r.Some? ==> sump[offset] == None
      ensures r.None? ==> unchanged(this) && unchanged(sump)
    {
      if offset > 0 {
        offset := offset - 1;
        r := sump[offset];
        sump[offset] := None;
        Contents := Contents[..offset];
      } else {
        r := None;
      }
    }

    /** Replaces the slots by an array of none when the stack is empty;
        does nothing when it holds a value. */
    method Clear()
      requires Valid()
      modifies this
      ensures Valid() && View() == ClearModel(old(View()))
      ensures offset == old(offset) && classType == old(classType)
      ensures sump == old(sump) || fresh(sump)
    {
      if !SumpNullOrEmpty() {
        sump := new Option<Value>[0];
      }
    }

    /** Moves the live values to an array of exactly their number when the
        current array is larger. */
    method Trim()
      requires Valid()
      modifies this
      ensures Valid() && View() == TrimModel(old(View()))
      ensures offset == old(offset) && classType == old(classType)
      ensures sump == old(sump) || fresh(sump)
    {
      if Capacity() > Size() {
        var trimTo := Size();
        var trimmed := new Option<Value>[trimTo](_ => None);
        ArrayCopy(sump, trimmed, trimTo);
        sump := trimmed;
      }
    }

    /** An unimplemented extension point: does nothing. */
    method PushBatch(batch: seq<Value>)
      requires Valid()
      ensures Valid() && View() == old(View())
    {
    }

    /** An unimplemented extension point: always returns an empty list. */
    method PullBatch() returns (batch: seq<Value>)
      ensures batch == []
    {
      batch := [];
    }
  }
}
