# A verified model of the `tdd-collections` LIFO stack

This project models `Stack`, the LIFO stack in `src/main/java/tdd/collection/lifo/Stack.java`.
The stack keeps its values in a growable array of slots (`sump`). One counter, `offset`, is both
the number of live values and the index of the first free slot. The stack may also carry a
declared class (`classType`). A typed stack accepts only objects whose exact runtime class is
the declared class. A full stack grows by 70% of its capacity, rounded down. Pulling empties the
vacated slot. `trim` shrinks the array to the live values. On an empty stack, `clear` swaps in an
array with no slots.

Files:

- `values.dfy` (module `LifoValues`): the values held, as non-null objects with a class tag and
  an identity; `Option`/`Result`; and `PushError`.
- `model.dfy` (module `LifoModel`): the stack's state as a value, `Model(contents, capacity,
  classType)`, with its invariant `Wf`. Each operation is a function on that value. The stack's
  properties are proved here: the invariant is preserved, pull undoes push, n pushes followed by
  n pulls return the values in reverse order, the growth chain, idempotence of `trim` and
  `clear`, and the push failure after growth from 0 or 1 slots.
- `stack.dfy` (module `Lifo`): the class `Stack` with the source's three fields over an
  `array<Option<Value>>`. A ghost `Contents` holds the live values. Every method is proved to
  move the abstract state `View()` exactly as the matching `LifoModel` function does. The proof
  covers the in-place slot writes, the copy into a fresh array on growth and trim, and the
  clearing of the pulled slot.
- `scenarios.dfy` (module `LifoScenarios`): client methods that replay the situations of
  `src/test/java/tdd/collection/lifo/StackTest.java`. They are proved from the contracts alone:
  10 → 17 after 11 pushes, 3 → 5 after 5 pushes, 134 after 100 pushes, 15764 after 10000 pushes
  and 0 after draining and trimming, the order of pulls, the type mismatch, and clearing.

The model follows the code where a plain reading of its intent would differ:

- `clear` only acts on an empty stack. Its guard calls the helper `sumpNullOrEmpty`, which
  returns `size() != 0`. So the array is replaced by an empty one only when the stack holds no
  value. On a stack that holds values, `clear` changes nothing, and it never resets `offset`.
  The model does not make `clear` always empty the stack.
- Growth does not guarantee progress. With 0 or 1 slots, `(int)(c * 0.7)` is 0. The "grown"
  array then has the same length, and the store `sump[offset] = ...` runs past its end. Java
  evaluates `offset++` before the bounds check. So the push fails with an
  `ArrayIndexOutOfBoundsException`, with `offset` already advanced and `sump` replaced by a
  same-length copy. `Stack.Push` reports this as `IndexOutOfBounds` and leaves the fields in
  exactly that state, in which `Valid()` no longer holds. No minimum growth of one slot is
  added. This failure can be reached by pushing twice onto a stack created with one slot, or by
  pushing after `clear` on an empty stack.

## Model

| member | source | states |
|---|---|---|
| `LifoModel.Stretch` | src/main/java/tdd/collection/lifo/Stack.java:70 | the growth step never exceeds the capacity, and it is zero exactly when the capacity is 0 or 1 |
| `LifoModel.GrownCapacity` | src/main/java/tdd/collection/lifo/Stack.java:69-71 | growth never shrinks the array, and it adds a slot exactly when the capacity is at least 2 |
| `LifoModel.PushModel` | src/main/java/tdd/collection/lifo/Stack.java:63-78 | push succeeds exactly when the object's class is accepted and there is a free slot or at least 2 slots. On success the invariant and the declared class are kept and the capacity does not shrink. A wrong class fails with `TypeMismatch(actual, declared)`. Any other failure is `IndexOutOfBounds` on a stack of at most 1 slot |
| `LifoModel.PushAppends` | src/main/java/tdd/collection/lifo/Stack.java:69-77 | a successful push puts the object on top of the unchanged earlier values. It grows the capacity to c + stretch(c) exactly when the stack was full and keeps it otherwise |
| `LifoModel.PullModel` | src/main/java/tdd/collection/lifo/Stack.java:80-91 | pull yields nothing exactly when the stack is empty, and then changes nothing. Otherwise the old values are the new values plus the returned top value. Capacity, declared class and invariant are kept |
| `LifoModel.PullUndoesPush` | src/main/java/tdd/collection/lifo/Stack.java:77-88 | a pull right after a successful push returns the pushed object and restores the earlier values |
| `LifoModel.ClearModel` | src/main/java/tdd/collection/lifo/Stack.java:102-107 | on an empty stack clear leaves 0 slots. On a stack holding values it changes nothing. The values and the invariant are always kept |
| `LifoModel.ClearIdempotent` | src/main/java/tdd/collection/lifo/Stack.java:102-107 | clearing twice is the same as clearing once |
| `LifoModel.ClearedStackRejectsPush` | src/main/java/tdd/collection/lifo/Stack.java:69-77 | after clearing an empty stack, every accepted push fails at the array store with index 0 and length 0 |
| `LifoModel.TrimModel` | src/main/java/tdd/collection/lifo/Stack.java:132-140 | after trim the capacity equals the number of live values, the values are kept in place, and the invariant holds |
| `LifoModel.TrimIdempotent` | src/main/java/tdd/collection/lifo/Stack.java:132-140 | trimming twice is the same as trimming once |
| `LifoModel.PushAll` | src/main/java/tdd/collection/lifo/Stack.java:63-78 | a successful series of pushes keeps the invariant |
| `LifoModel.PushAllAppends` | src/main/java/tdd/collection/lifo/Stack.java:63-78 | a successful series of pushes stacks the objects in order on the earlier values, keeps the declared class and never shrinks the capacity |
| `LifoModel.PullN` | src/main/java/tdd/collection/lifo/Stack.java:80-91 | n pulls from a stack holding at least n values return n values. Read backwards, they are exactly the removed top of the stack. Capacity and class are kept |
| `LifoModel.PushesThenPullsReverse` | src/main/java/tdd/collection/lifo/Stack.java:63-91 | LIFO law: pushing objects and then pulling as many times returns them in reverse order and leaves the earlier values as they were |
| `LifoModel.CapacityAfter` | src/main/java/tdd/collection/lifo/Stack.java:69-76 | the capacity reached after n pushes is at least the initial capacity and at least n |
| `LifoModel.CapacityAfterStep` | src/main/java/tdd/collection/lifo/Stack.java:69-76 | one more push grows the capacity exactly when the stack is full, by the stretch of its size |
| `LifoModel.PushAllGrowth` | src/main/java/tdd/collection/lifo/Stack.java:69-77 | on a stack of at least 2 slots, every series of accepted pushes succeeds. The values are appended and the capacity follows the growth chain of the initial capacity |
| `LifoModel.SmallStackOverflows` | src/main/java/tdd/collection/lifo/Stack.java:69-77 | on an empty stack of 0 or 1 slots, pushing one object more than the capacity fails at the array store |
| `LifoModel.GrowthChainCapacities` | src/main/java/tdd/collection/lifo/Stack.java:69-76 | a default stack reaches capacity 17 after 11 to 17 pushes, 134 after 80 to 134, and 15764 after 9274 to 15764. A stack of 3 slots reaches 5 after 4 or 5 |
| `Lifo.ArrayCopy` | src/main/java/tdd/collection/lifo/Stack.java:73 | the first n slots of the target receive the source's slots, and the rest of the target is untouched |
| `Lifo.Stack.constructor` | src/main/java/tdd/collection/lifo/Stack.java:31-33 | a new untyped stack is valid and empty, with exactly the requested number of slots |
| `Lifo.Stack.Default` | src/main/java/tdd/collection/lifo/Stack.java:27-29 | a new untyped stack is valid and empty, with 10 slots |
| `Lifo.Stack.Typed` | src/main/java/tdd/collection/lifo/Stack.java:18-21 | a new stack is valid and empty, with the requested number of slots, and typed exactly when a class is given |
| `Lifo.Stack.TypedDefault` | src/main/java/tdd/collection/lifo/Stack.java:23-25 | a new stack is valid and empty, with 10 slots, and typed exactly when a class is given |
| `Lifo.Stack.Size` | src/main/java/tdd/collection/lifo/Stack.java:93-96 | the size is the number of live values |
| `Lifo.Stack.Capacity` | src/main/java/tdd/collection/lifo/Stack.java:98-100 | the size never exceeds the capacity |
| `Lifo.Stack.IsTyped` | src/main/java/tdd/collection/lifo/Stack.java:120-122 | the stack is typed exactly when a class was declared |
| `Lifo.Stack.IsEmpty` | src/main/java/tdd/collection/lifo/Stack.java:124-126 | the stack is empty exactly when it holds no live value |
| `Lifo.Stack.SumpNullOrEmpty` | src/main/java/tdd/collection/lifo/Stack.java:128-130 | despite its name, the helper holds exactly when the stack holds a value |
| `Lifo.Stack.Push` | src/main/java/tdd/collection/lifo/Stack.java:63-78 | success and the new state are exactly those of `PushModel`, and a grown array is fresh. A type mismatch leaves array, slots and state unchanged. An index failure leaves `offset` advanced past a same-length copy of the slots, and the invariant broken |
| `Lifo.Stack.Pull` | src/main/java/tdd/collection/lifo/Stack.java:80-91 | the returned value and the new state are exactly those of `PullModel`, on the same array. The vacated slot is emptied. An empty stack is left untouched |
| `Lifo.Stack.Clear` | src/main/java/tdd/collection/lifo/Stack.java:102-107 | the new state is exactly that of `ClearModel`. `offset` and the declared class are kept, and a replacement array is fresh |
| `Lifo.Stack.Trim` | src/main/java/tdd/collection/lifo/Stack.java:132-140 | the new state is exactly that of `TrimModel`. `offset` and the declared class are kept, and a replacement array is fresh |
| `Lifo.Stack.PushBatch` | src/main/java/tdd/collection/lifo/Stack.java:109-112 | the stack is left as it was |
| `Lifo.Stack.PullBatch` | src/main/java/tdd/collection/lifo/Stack.java:114-118 | the result is always the empty list |

## Left out

- `LifoModel.Stretch`: the source computes `(int)(capacity * 0.7)` in IEEE double arithmetic. The model uses the integer `capacity * 7 / 10`. The two agree at every capacity on the default growth chain (10, 17, 28, ..., 9273, 15764) and at 3. They are not equal everywhere: `90 * 0.7` is 62.99999999999999 in double, which truncates to 62, while `90 * 7 / 10` is 63.
- Java `int` overflow of `capacity() + stretchOn` for huge capacities is not modelled, since integers here are unbounded.
- A negative capacity, which Java rejects with `NegativeArraySizeException`, is ruled out by the `nat` type of the constructors' parameter.
- Null entries are not modelled. A typed push of `null` throws a `NullPointerException`, and an untyped `null` entry cannot be told apart from the result of pulling an empty stack. Values are non-null objects.
- Reflection is reduced to a tag comparison: `getClass()`, `Class` objects and exact-class equality become equality of `ClassTag` values. The exception message built with `getSimpleName()` is not modelled as text. `TypeMismatch` carries the actual and the declared tags that the message names.
- The `Entry` wrapper, with its recorded `index`, `get()` copy and `nullify()`, is not modelled because it has no observable effect. A slot is an `Option<Value>`, and nullifying a slot is storing `None` in it.
- `Lifo.Stack.Push`: after an `IndexOutOfBounds` failure the contract states the broken fields, but later operations on such a broken stack are not modelled, because every method requires `Valid()`.
- `src/main/java/tdd/collection/Structure.java` and `src/main/java/tdd/collection/lifo/SumpStack.java` only declare interfaces. The class's method set mirrors them.
