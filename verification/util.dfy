/**
 * `StatefulVector` (src/util.rs): a vector with a movable cursor.  The
 * cursor is a usize, so stepping it below zero is an arithmetic panic in
 * Rust's checked (debug) build; that panic, and the ones `Vec::insert` and
 * `Vec::remove` raise on a bad index, are explicit outcomes here.
 */
module Util {
  import opened Wrappers

  datatype Panic =
    | UsizeUnderflow
    | IndexOutOfBounds(index: nat, len: nat)

  /** The outcome of an operation that may panic instead of returning. */
  datatype Outcome<+T> = Done(value: T) | Panicked(panic: Panic)

  class StatefulVector<T(==)> {
    var vector: seq<T>
    var position: nat

    /**
     * The cursor points at an element whenever there is one: it is in range,
     * or it is 0.  Every operation except `remove` keeps this.
     */
    predicate InRange()
      reads this
    {
      position == 0 || position < |vector|
    }

    /** `new` (and `Default`): no elements, cursor at 0. */
    constructor New()
      ensures vector == [] && position == 0
      ensures InRange()
    {
      vector := [];
      position := 0;
    }

    /** `from_vec`: the given elements, cursor at 0. */
    constructor FromVec(elements: seq<T>)
      ensures vector == elements && position == 0
      ensures InRange()
    {
      vector := elements;
      position := 0;
    }

    predicate IsEmpty()
      reads this
    {
      |vector| == 0
    }

    function First(): (r: Option<T>)
      reads this
      ensures r.Some? <==> |vector| > 0
      ensures r.Some? ==> r.value == vector[0]
    {
      if IsEmpty() then None else Some(vector[0])
    }

    function Last(): (r: Option<T>)
      reads this
      ensures r.Some? <==> |vector| > 0
      ensures r.Some? ==> r.value == vector[|vector| - 1]
    {
      if IsEmpty() then None else Some(vector[|vector| - 1])
    }

    /** `is_pos_valid`: whether `pos` indexes an element; the emptiness test is subsumed. */
    predicate IsPosValid(pos: nat)
      reads this
      ensures IsPosValid(pos) <==> pos < |vector|
    {
      if IsEmpty() then false else pos < |vector|
    }

    /** `current`: the element under the cursor, if the cursor is in range. */
    function Current(): (r: Option<T>)
      reads this
      ensures r.Some? <==> position < |vector|
      ensures r.Some? ==> r.value == vector[position]
      ensures InRange() ==> (r.Some? <==> |vector| > 0)
    {
      if IsPosValid(position) then Some(vector[position]) else None
    }

    /** `has_next`: whether there is an element after the cursor. */
    predicate HasNext()
      reads this
      ensures HasNext() <==> position + 1 < |vector|
    {
      IsPosValid(position + 1)
    }

    /**
     * `has_previous` as written: `position - 1` on a usize, which panics at
     * position 0 instead of answering false.
     */
    function HasPrevious(): (r: Outcome<bool>)
      reads this
      ensures position == 0 <==> r == Panicked(UsizeUnderflow)
      ensures r.Done? ==> (r.value <==> 0 < position <= |vector|)
    {
      if position == 0 then Panicked(UsizeUnderflow) else Done(IsPosValid(position - 1))
    }

    /** Whether there is an element before the cursor, answering false at position 0. */
    predicate HasPreviousChecked()
      reads this
    {
      position > 0 && IsPosValid(position - 1)
    }

    /** `is_next_match`: the test holds of the element after the cursor, if there is one. */
    predicate IsNextMatch(test: T -> bool)
      reads this
      ensures IsNextMatch(test) <==> position + 1 < |vector| && test(vector[position + 1])
    {
      if HasNext() then test(vector[position + 1]) else false
    }

    /** `is_next_eq`: the element after the cursor exists and equals `expected`. */
    predicate IsNextEq(expected: T)
      reads this
      ensures IsNextEq(expected) <==> position + 1 < |vector| && vector[position + 1] == expected
    {
      IsNextMatch(e => e == expected)
    }

    /** `to_vec`: the elements, unchanged and in order. */
    function ToVec(): (r: seq<T>)
      reads this
      ensures |r| == |vector| && forall i :: 0 <= i < |r| ==> r[i] == vector[i]
    {
      vector
    }

    /**
     * `to_next`: when there is a next element, moves onto it and returns it;
     * otherwise returns None and stays.
     */
    method ToNext() returns (r: Option<T>)
      modifies this
      ensures vector == old(vector)
      ensures old(HasNext()) ==> position == old(position) + 1 && r == Some(vector[position])
      ensures !old(HasNext()) ==> position == old(position) && r == None
      ensures old(InRange()) ==> InRange()
    {
      if HasNext() {
        position := position + 1;
        r := Some(vector[position]);
      } else {
        r := None;
      }
    }

    /**
     * `to_previous` as written: mirrors `to_next`, but at position 0 the
     * check `has_previous` panics before anything moves.
     */
    method ToPrevious() returns (r: Outcome<Option<T>>)
      modifies this
      ensures vector == old(vector)
      ensures old(position) == 0 ==> r == Panicked(UsizeUnderflow) && position == 0
      ensures 0 < old(position) <= |vector| ==>
        position == old(position) - 1 && r == Done(Some(vector[position]))
      ensures old(position) > |vector| ==> position == old(position) && r == Done(None)
      ensures old(InRange()) ==> InRange()
    {
      var has := HasPrevious();
      if has.Panicked? {
        return Panicked(has.panic);
      }
      if has.value {
        position := position - 1;
        r := Done(Some(vector[position]));
      } else {
        r := Done(None);
      }
    }

    /**
     * `to_previous` with the underflow guarded: at position 0 it returns
     * None and stays, as `to_next` does at the end; it undoes a successful
     * `to_next`.
     */
    method ToPreviousChecked() returns (r: Option<T>)
      modifies this
      ensures vector == old(vector)
      ensures old(HasPreviousChecked()) ==> position == old(position) - 1 && r == Some(vector[position])
      ensures !old(HasPreviousChecked()) ==> position == old(position) && r == None
      ensures old(position) == 0 ==> r == None
      ensures old(InRange()) ==> InRange()
    {
      if HasPreviousChecked() {
        position := position - 1;
        r := Some(vector[position]);
      } else {
        r := None;
      }
    }

    /** `push`: appends at the end; the cursor stays. */
    method Push(element: T)
      modifies this
      ensures vector == old(vector) + [element] && position == old(position)
      ensures old(InRange()) ==> InRange()
    {
      vector := vector + [element];
    }

    /**
     * `pop` as written: removes and returns the last element, then pulls an
     * out-of-range cursor back to the new last index.  That index is
     * `len - 1` on a usize, so popping the only element always panics (the
     * element is already gone when it does).
     */
    method Pop() returns (r: Outcome<Option<T>>)
      modifies this
      ensures old(vector) == [] ==> vector == [] && position == old(position) && r == Done(None)
      ensures old(vector) != [] ==> vector == old(vector)[..|old(vector)| - 1]
      ensures |old(vector)| == 1 ==> r == Panicked(UsizeUnderflow) && position == old(position)
      ensures |old(vector)| > 1 ==> r == Done(Some(old(vector)[|vector|]))
      ensures |old(vector)| > 1 && old(position) < |vector| ==> position == old(position)
      ensures |old(vector)| > 1 && old(position) >= |vector| ==> position == |vector| - 1
      ensures |old(vector)| != 1 && old(InRange()) ==> InRange()
    {
      if |vector| == 0 {
        return Done(None);
      }
      var element := vector[|vector| - 1];
      vector := vector[..|vector| - 1];
      if position >= |vector| {
        if |vector| == 0 {
          return Panicked(UsizeUnderflow);
        }
        position := |vector| - 1;
      }
      r := Done(Some(element));
    }

    /**
     * `pop` with the clamp saturating at 0: removes and returns the last
     * element and always leaves the cursor in range.
     */
    method PopClamped() returns (r: Option<T>)
      modifies this
      ensures old(vector) == [] ==> vector == [] && position == old(position) && r == None
      ensures old(vector) != [] ==>
        vector == old(vector)[..|old(vector)| - 1] && r == Some(old(vector)[|vector|])
      ensures old(vector) != [] && old(position) < |vector| ==> position == old(position)
      ensures old(vector) != [] && old(position) >= |vector| ==> position == if |vector| == 0 then 0 else |vector| - 1
      ensures old(InRange()) ==> InRange()
    {
      if |vector| == 0 {
        return None;
      }
      r := Some(vector[|vector| - 1]);
      vector := vector[..|vector| - 1];
      if position >= |vector| {
        position := if |vector| == 0 then 0 else |vector| - 1;
      }
    }

    /**
     * `insert`: `Vec::insert`, which shifts the later elements right and
     * panics when the index is past the end; the cursor stays.
     */
    method Insert(index: nat, element: T) returns (p: Option<Panic>)
      modifies this
      ensures position == old(position)
      ensures index > |old(vector)| ==> p == Some(IndexOutOfBounds(index, |old(vector)|)) && vector == old(vector)
      ensures index <= |old(vector)| ==> p == None && vector == old(vector)[..index] + [element] + old(vector)[index..]
      ensures old(InRange()) ==> InRange()
    {
      if index > |vector| {
        return Some(IndexOutOfBounds(index, |vector|));
      }
      vector := vector[..index] + [element] + vector[index..];
      p := None;
    }

    /**
     * `remove`: `Vec::remove`, which returns the element at the index,
     * shifts the later ones left and panics when the index is not an
     * element's; the cursor stays, and may be left past the end.
     */
    method Remove(index: nat) returns (r: Outcome<T>)
      modifies this
      ensures position == old(position)
      ensures index >= |old(vector)| ==> r == Panicked(IndexOutOfBounds(index, |old(vector)|)) && vector == old(vector)
      ensures index < |old(vector)| ==>
        r == Done(old(vector)[index]) && vector == old(vector)[..index] + old(vector)[index + 1..]
    {
      if index >= |vector| {
        return Panicked(IndexOutOfBounds(index, |vector|));
      }
      r := Done(vector[index]);
      vector := vector[..index] + vector[index + 1..];
    }
  }

  /** Popping the only element of a fresh vector panics in the code as written. */
  method PopOnlyElementPanics<T(==)>(element: T) returns (r: Outcome<Option<T>>)
    ensures r == Panicked(UsizeUnderflow)
  {
    var v := new StatefulVector.FromVec([element]);
    r := v.Pop();
  }

  /** With the saturating clamp, the same pop returns the element and empties the vector. */
  method PopOnlyElementEmpties<T(==)>(element: T) returns (r: Option<T>, rest: seq<T>, position: nat)
    ensures r == Some(element) && rest == [] && position == 0
  {
    var v := new StatefulVector.FromVec([element]);
    r := v.PopClamped();
    rest := v.ToVec();
    position := v.position;
  }

  /** Stepping back from the start of a fresh vector panics in the code as written. */
  method PreviousAtStartPanics<T(==)>(elements: seq<T>) returns (r: Outcome<Option<T>>)
    ensures r == Panicked(UsizeUnderflow)
  {
    var v := new StatefulVector.FromVec(elements);
    r := v.ToPrevious();
  }

  /**
   * With the guard, stepping back from the start answers None, and stepping
   * forward then back returns to the first element.
   */
  method NextThenPrevious<T(==)>(elements: seq<T>) returns (atStart: Option<T>, forward: Option<T>, back: Option<T>)
    ensures atStart == None
    ensures |elements| >= 2 <==> forward.Some?
    ensures |elements| >= 2 ==> forward == Some(elements[1]) && back == Some(elements[0])
    ensures |elements| < 2 ==> back == None
  {
    var v := new StatefulVector.FromVec(elements);
    atStart := v.ToPreviousChecked();
    forward := v.ToNext();
    back := v.ToPreviousChecked();
  }

  /**
   * With the guard, a step back undoes every successful step forward: the
   * elements and the cursor are as before, and the step back returns the
   * element the cursor was on.  Without a next element nothing moves forward.
   */
  method StepBackUndoesStep<T(==)>(v: StatefulVector<T>) returns (forward: Option<T>, back: Option<T>)
    modifies v
    ensures v.vector == old(v.vector)
    ensures old(v.HasNext()) ==>
      forward == Some(old(v.vector)[old(v.position) + 1]) && v.position == old(v.position) && back == old(v.Current())
    ensures !old(v.HasNext()) ==> forward == None
  {
    forward := v.ToNext();
    back := v.ToPreviousChecked();
  }
}
