/** The abstract behaviour of the growable LIFO stack in
    src/main/java/tdd/collection/lifo/Stack.java: its state as a value
    (live values bottom to top, number of slots, declared class) and each
    operation as a function on that value. The class in module `Lifo` is
    proved to follow these functions; the properties of the stack are proved
    here, once, about the functions. */
module LifoModel {
  import opened LifoValues

  /** The number of slots of a stack built without an explicit capacity. */
  const DefaultInitialCapacity: nat := 10

  /** The state of a stack: the live values from bottom to top, the number
      of slots of the backing array and the declared class, if any. */
  datatype Model = Model(contents: seq<Value>, capacity: nat, classType: Option<ClassTag>)

  /** A stack typed by a class accepts exactly the objects of that class;
      an untyped stack accepts every object. */
  predicate Accepts(classType: Option<ClassTag>, v: Value)
  {
    classType.None? || v.cls == classType.value
  }

  predicate AllAccepted(classType: Option<ClassTag>, vs: seq<Value>)
  {
    forall i :: 0 <= i < |vs| ==> Accepts(classType, vs[i])
  }

  /** The invariant of every reachable state: the live values fit in the
      slots, and on a typed stack every live value has the declared class. */
  predicate Wf(m: Model)
  {
    |m.contents| <= m.capacity && AllAccepted(m.classType, m.contents)
  }

  /** The number of slots a full stack adds when it grows: 70% of its
      capacity, rounded down. */
  function Stretch(capacity: nat): (s: nat)
    ensures s <= capacity
    ensures s == 0 <==> capacity <= 1
  {
    capacity * 7 / 10
  }

  /** The capacity after one growth step. Growth adds a slot exactly when
      the capacity is at least 2. */
  function GrownCapacity(capacity: nat): (g: nat)
    ensures capacity <= g
    ensures capacity < g <==> 2 <= capacity
  {
    capacity + Stretch(capacity)
  }

  /** Push: reject an object of the wrong class, grow when full, then store
      the object in the first free slot; that store fails when growth could
      not add a slot. */
  function PushModel(m: Model, v: Value): (r: Result<Model, PushError>)
    requires Wf(m)
    ensures r.Success? <==> Accepts(m.classType, v) && (|m.contents| < m.capacity || 2 <= m.capacity)
    ensures r.Success? ==> Wf(r.value) && r.value.classType == m.classType && m.capacity <= r.value.capacity
    ensures !Accepts(m.classType, v) ==> r == Failure(TypeMismatch(v.cls, m.classType.value))
    ensures r.Failure? && Accepts(m.classType, v) ==>
              r == Failure(IndexOutOfBounds(m.capacity, m.capacity)) && m.capacity <= 1
  {
    if !Accepts(m.classType, v) then
      Failure(TypeMismatch(v.cls, m.classType.value))
    else
      var capacity := if |m.contents| == m.capacity then GrownCapacity(m.capacity) else m.capacity;
      if |m.contents| < capacity then
        Success(Model(m.contents + [v], capacity, m.classType))
      else
        Failure(IndexOutOfBounds(|m.contents|, capacity))
  }

  /** A successful push puts the object on top of the earlier values, which
      stay as they were, and grows the stack exactly when it was full. */
  lemma PushAppends(m: Model, v: Value)
    requires Wf(m) && PushModel(m, v).Success?
    ensures PushModel(m, v).value.contents == m.contents + [v]
    ensures PushModel(m, v).value.capacity ==
              if |m.contents| == m.capacity then GrownCapacity(m.capacity) else m.capacity
  {
  }

  /** Pull: an empty stack yields nothing and stays as it is; otherwise the
      top value is removed and returned and the capacity is kept. */
  function PullModel(m: Model): (r: (Option<Value>, Model))
    requires Wf(m)
    ensures Wf(r.1) && r.1.capacity == m.capacity && r.1.classType == m.classType
    ensures r.0.None? <==> m.contents == []
    ensures r.0.None? ==> r.1 == m
    ensures r.0.Some? ==> m.contents == r.1.contents + [r.0.value]
  {
    if |m.contents| > 0 then
      (Some(m.contents[|m.contents| - 1]), m.(contents := m.contents[..|m.contents| - 1]))
    else
      (None, m)
  }

  /** Pull undoes a successful push: it returns the pushed object and gives
      back the earlier values (the capacity stays as the push left it). */
  lemma PullUndoesPush(m: Model, v: Value)
    requires Wf(m) && PushModel(m, v).Success?
    ensures PullModel(PushModel(m, v).value) ==
              (Some(v), Model(m.contents, PushModel(m, v).value.capacity, m.classType))
  {
  }

  /** Clear, as written: it drops the backing array for an empty one only
      when the stack holds no value, and changes nothing otherwise. */
  function ClearModel(m: Model): (r: Model)
    requires Wf(m)
    ensures Wf(r) && r.contents == m.contents && r.classType == m.classType
    ensures m.contents == [] ==> r.capacity == 0
    ensures m.contents != [] ==> r == m
  {
    if |m.contents| != 0 then m else m.(capacity := 0)
  }

  lemma ClearIdempotent(m: Model)
    requires Wf(m)
    ensures ClearModel(ClearModel(m)) == ClearModel(m)
  {
  }

  /** After clearing an empty stack no object can be pushed: the array has
      no slot and growth by 70% of nothing adds none. */
  lemma ClearedStackRejectsPush(m: Model, v: Value)
    requires Wf(m) && m.contents == [] && Accepts(m.classType, v)
    ensures PushModel(ClearModel(m), v) == Failure(IndexOutOfBounds(0, 0))
  {
  }

  /** Trim: shrink the backing array to the live values when it is larger. */
  function TrimModel(m: Model): (r: Model)
    requires Wf(m)
    ensures Wf(r) && r.contents == m.contents && r.classType == m.classType
    ensures r.capacity == |m.contents|
  {
    if m.capacity > |m.contents| then m.(capacity := |m.contents|) else m
  }

  lemma TrimIdempotent(m: Model)
    requires Wf(m)
    ensures TrimModel(TrimModel(m)) == TrimModel(m)
  {
  }

  /** Pushes the objects one at a time, first to last, stopping at the first
      push that fails. */
  function PushAll(m: Model, vs: seq<Value>): (r: Result<Model, PushError>)
    requires Wf(m)
    ensures r.Success? ==> Wf(r.value)
    decreases |vs|
  {
    if vs == [] then Success(m)
    else
      match PushModel(m, vs[0])
      case Failure(e) => Failure(e)
      case Success(next) => PushAll(next, vs[1..])
  }

  /** The values of `s` from last to first. */
  function Reversed(s: seq<Value>): (r: seq<Value>)
    ensures |r| == |s|
    ensures forall i :: 0 <= i < |s| ==> r[i] == s[|s| - 1 - i]
  {
    if s == [] then [] else [s[|s| - 1]] + Reversed(s[..|s| - 1])
  }

  lemma ReversedTwice(s: seq<Value>)
    ensures Reversed(Reversed(s)) == s
  {
  }

  /** Pulls `n` times from a stack holding at least `n` values and returns
      the values in the order they were pulled: read backwards, they are the
      top `n` values of the stack. */
  function PullN(m: Model, n: nat): (r: (seq<Value>, Model))
    requires Wf(m) && n <= |m.contents|
    ensures |r.0| == n && Wf(r.1)
    ensures r.1.capacity == m.capacity && r.1.classType == m.classType
    ensures m.contents == r.1.contents + Reversed(r.0)
  {
    if n == 0 then ([], m)
    else
      var (pulled, rest) := PullN(m, n - 1);
      var (top, after) := PullModel(rest);
      (pulled + [top.value], after)
  }

  /** Every successful series of pushes stacks the objects, in order, on the
      earlier values and keeps the declared class. */
  lemma {:induction false} PushAllAppends(m: Model, vs: seq<Value>)
    requires Wf(m) && PushAll(m, vs).Success?
    ensures Wf(PushAll(m, vs).value)
    ensures PushAll(m, vs).value.contents == m.contents + vs
    ensures PushAll(m, vs).value.classType == m.classType
    ensures m.capacity <= PushAll(m, vs).value.capacity
    decreases |vs|
  {
    if vs == [] {
      assert m.contents + vs == m.contents;
    } else {
      var next := PushModel(m, vs[0]).value;
      PushAppends(m, vs[0]);
      PushAllAppends(next, vs[1..]);
      assert next.contents + vs[1..] == m.contents + vs;
    }
  }

  /** The LIFO law: pushing objects and then pulling as many times returns
      them in reverse order and leaves the earlier values as they were. */
  lemma {:induction false} PushesThenPullsReverse(m: Model, vs: seq<Value>)
    requires Wf(m) && PushAll(m, vs).Success?
    ensures |vs| <= |PushAll(m, vs).value.contents|
    ensures PullN(PushAll(m, vs).value, |vs|) ==
              (Reversed(vs), Model(m.contents, PushAll(m, vs).value.capacity, m.classType))
  {
    var full := PushAll(m, vs).value;
    PushAllAppends(m, vs);
    var (pulled, rest) := PullN(full, |vs|);
    assert m.contents + vs == rest.contents + Reversed(pulled);
    assert rest.contents == m.contents by {
      assert rest.contents == (m.contents + vs)[..|m.contents|];
    }
    assert vs == Reversed(pulled) by {
      assert vs == (m.contents + vs)[|m.contents|..];
    }
    ReversedTwice(pulled);
  }

  /** The capacity of a stack created with `initial` slots once `n` objects
      have been pushed onto it one at a time: the first of `initial`,
      `GrownCapacity(initial)`, ... that holds `n` values. */
  function CapacityAfter(initial: nat, n: nat): (c: nat)
    requires 2 <= initial || n <= initial
    ensures initial <= c && n <= c
    decreases if initial < n then n - initial else 0
  {
    if n <= initial then initial else CapacityAfter(GrownCapacity(initial), n)
  }

  /** One more push onto a stack holding `n` values grows it exactly when
      it is full. */
  lemma {:induction false} CapacityAfterStep(initial: nat, n: nat)
    requires 2 <= initial
    ensures CapacityAfter(initial, n + 1) ==
              if CapacityAfter(initial, n) == n then GrownCapacity(n) else CapacityAfter(initial, n)
    decreases if initial < n then n - initial else 0
  {
    if n == initial {
      assert CapacityAfter(initial, n + 1) == CapacityAfter(GrownCapacity(initial), n + 1);
    } else if initial < n {
      CapacityAfterStep(GrownCapacity(initial), n);
    }
  }

  /** Pushing accepted objects onto a stack of at least 2 slots always
      succeeds, and the capacity follows the growth chain of the initial
      capacity. */
  lemma {:induction false} PushAllGrowth(m: Model, vs: seq<Value>, initial: nat)
    requires Wf(m) && AllAccepted(m.classType, vs)
    requires 2 <= initial && m.capacity == CapacityAfter(initial, |m.contents|)
    ensures PushAll(m, vs) ==
              Success(Model(m.contents + vs, CapacityAfter(initial, |m.contents| + |vs|), m.classType))
    decreases |vs|
  {
    if vs == [] {
      assert m.contents + vs == m.contents;
    } else {
      CapacityAfterStep(initial, |m.contents|);
      assert Accepts(m.classType, vs[0]);
      PushAppends(m, vs[0]);
      var next := PushModel(m, vs[0]).value;
      assert next == Model(m.contents + [vs[0]], CapacityAfter(initial, |m.contents| + 1), m.classType);
      assert AllAccepted(m.classType, vs[1..]) by {
        forall i | 0 <= i < |vs[1..]| ensures Accepts(m.classType, vs[1..][i]) {
          assert vs[1..][i] == vs[i + 1];
        }
      }
      PushAllGrowth(next, vs[1..], initial);
      assert next.contents + vs[1..] == m.contents + vs;
    }
  }

  /** A stack created with 0 or 1 slots cannot take one object more than
      its capacity: the push that needs growth fails at the array store. */
  lemma SmallStackOverflows(m: Model, vs: seq<Value>)
    requires Wf(m) && m.contents == [] && m.capacity <= 1
    requires AllAccepted(m.classType, vs) && |vs| == m.capacity + 1
    ensures PushAll(m, vs) == Failure(IndexOutOfBounds(m.capacity, m.capacity))
  {
  }

  lemma CapacityAfterUnfold(initial: nat, grown: nat, n: nat)
    requires 2 <= initial < n && GrownCapacity(initial) == grown
    ensures CapacityAfter(initial, n) == CapacityAfter(grown, n)
  {
  }

  /** The capacities reached by a default stack (10, 17, 28, 47, 79, 134, ...,
      9273, 15764) and by a stack of 3 slots (3, 5), for every number of
      pushes that lands in each step of the chain. */
  lemma GrowthChainCapacities(n: nat)
    ensures 10 < n <= 17 ==> CapacityAfter(DefaultInitialCapacity, n) == 17
    ensures 79 < n <= 134 ==> CapacityAfter(DefaultInitialCapacity, n) == 134
    ensures 9273 < n <= 15764 ==> CapacityAfter(DefaultInitialCapacity, n) == 15764
    ensures 3 < n <= 5 ==> CapacityAfter(3, n) == 5
  {
    if 3 < n <= 5 {
      CapacityAfterUnfold(3, 5, n);
    }
    if 10 < n {
      CapacityAfterUnfold(10, 17, n);
    }
    if 79 < n {
      CapacityAfterUnfold(17, 28, n); CapacityAfterUnfold(28, 47, n); CapacityAfterUnfold(47, 79, n);
      CapacityAfterUnfold(79, 134, n);
    }
    if 9273 < n {
      CapacityAfterUnfold(134, 227, n); CapacityAfterUnfold(227, 385, n);
      CapacityAfterUnfold(385, 654, n); CapacityAfterUnfold(654, 1111, n);
      CapacityAfterUnfold(1111, 1888, n); CapacityAfterUnfold(1888, 3209, n);
      CapacityAfterUnfold(3209, 5455, n); CapacityAfterUnfold(5455, 9273, n);
      CapacityAfterUnfold(9273, 15764, n);
    }
  }
}
