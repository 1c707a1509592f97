/** Client code: the situations of src/test/java/tdd/collection/lifo/StackTest.java,
    each proved from the contracts of `Lifo.Stack` and the lemmas of
    `LifoModel` alone. */
module LifoScenarios {
  import opened LifoValues
  import opened LifoModel
  import opened Lifo

  const StringClass := ClassTag("String")
  const ObjectClass := ClassTag("Object")

  method TypedPushRejectsOtherClass()
  {
    var s := new Stack.TypedDefault(Some(StringClass));
    assert s.IsTyped() && s.Capacity() == 10 && s.Size() == 0;
    var err := s.Push(Object(ObjectClass, 0));
    assert err == Some(TypeMismatch(ObjectClass, StringClass));
    assert s.Size() == 0;
    err := s.Push(Object(StringClass, 1));
    assert err == None && s.Size() == 1;
    err := s.Push(Object(ObjectClass, 2));
    assert err == Some(TypeMismatch(ObjectClass, StringClass));
    assert s.Size() == 1;
  }

  method UntypedStackTakesAnyClass()
  {
    var s := new Stack.Default();
    assert !s.IsTyped();
    var a, b := Object(StringClass, 0), Object(ClassTag("Integer"), 1);
    var err := s.Push(a);
    assert err == None;
    err := s.Push(b);
    assert err == None && s.Size() == 2;
    var r := s.Pull();
    assert r == Some(b);
    r := s.Pull();
    assert r == Some(a) && s.Size() == 0;
  }

  method GrowFromThreeSlots()
  {
    var s := new Stack.Typed(Some(StringClass), 3);
    var i := 0;
    while i < 5
      invariant 0 <= i <= 5
      invariant s.Valid() && fresh(s.sump) && s.classType == Some(StringClass)
      invariant s.Size() == i && s.Capacity() == CapacityAfter(3, i)
    {
      CapacityAfterStep(3, i);
      var err := s.Push(Object(StringClass, i));
      assert err == None;
      i := i + 1;
    }
    GrowthChainCapacities(5);
    assert s.Size() == 5 && s.Capacity() == 5;
  }

  /** Pushes `count` strings onto a default typed stack: the capacity
      follows the growth chain of 10. */
  method PushMany(count: nat)
  {
    var s := new Stack.TypedDefault(Some(StringClass));
    var i := 0;
    while i < count
      invariant 0 <= i <= count
      invariant s.Valid() && fresh(s.sump) && s.classType == Some(StringClass)
      invariant s.Size() == i && s.Capacity() == CapacityAfter(DefaultInitialCapacity, i)
      invariant forall k :: 0 <= k < i ==> s.Contents[k] == Object(StringClass, k)
    {
      CapacityAfterStep(DefaultInitialCapacity, i);
      var err := s.Push(Object(StringClass, i));
      assert err == None;
      i := i + 1;
    }
    GrowthChainCapacities(count);
    assert count == 11 ==> s.Capacity() == 17;
    assert count == 100 ==> s.Capacity() == 134;
    assert count == 10000 ==> s.Capacity() == 15764;
    Drain(s, count);
  }

  /** Pulls every value of a stack holding the strings 0 .. count - 1: they
      come out last first, a further pull yields nothing, the capacity is
      kept until the stack is trimmed, and trimming leaves no slot. */
  method Drain(s: Stack, count: nat)
    requires s.Valid() && s.Size() == count
    requires forall k :: 0 <= k < count ==> s.Contents[k] == Object(StringClass, k)
    modifies s, s.sump
  {
    var reached := s.Capacity();
    var i := count;
    while 0 < i
      invariant 0 <= i <= count
      invariant s.Valid() && s.sump == old(s.sump)
      invariant s.Size() == i && s.Capacity() == reached
      invariant forall k :: 0 <= k < i ==> s.Contents[k] == Object(StringClass, k)
    {
      var r := s.Pull();
      assert r == Some(Object(StringClass, i - 1));
      i := i - 1;
    }
    var r := s.Pull();
    assert r == None && s.IsEmpty() && s.Capacity() == reached;
    s.Trim();
    assert s.Capacity() == 0;
  }

  method TrimToSize()
  {
    var s := new Stack.Typed(Some(StringClass), 15);
    var i := 0;
    while i < 10
      invariant 0 <= i <= 10
      invariant s.Valid() && fresh(s.sump) && s.classType == Some(StringClass)
      invariant s.Size() == i && s.Capacity() == 15
    {
      var err := s.Push(Object(StringClass, i));
      assert err == None;
      i := i + 1;
    }
    s.Trim();
    assert s.Capacity() == s.Size() == 10;
  }

  /** Clearing a fresh stack leaves no slot, after which a push fails at the
      array store; clearing a stack that holds a value changes nothing. */
  method ClearThenPush()
  {
    var s := new Stack.Default();
    s.Clear();
    assert s.Size() == 0 && s.Capacity() == 0;
    var err := s.Push(Object(StringClass, 0));
    assert err == Some(IndexOutOfBounds(0, 0));
    assert !s.Valid();

    var t := new Stack(1000);
    err := t.Push(Object(StringClass, 1));
    assert err == None;
    t.Clear();
    assert t.Size() == 1 && t.Capacity() == 1000;
  }

  /** A stack of one slot takes one object; the second push fails. */
  method OneSlotOverflows()
  {
    var s := new Stack(1);
    var err := s.Push(Object(StringClass, 0));
    assert err == None;
    err := s.Push(Object(StringClass, 1));
    assert err == Some(IndexOutOfBounds(1, 1));
  }
}
