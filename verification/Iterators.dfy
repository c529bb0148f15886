/** Positioned iterators over one sorted run, and the wrapper that caches their state
    (table/iterator_wrapper.h).  */
module Iterators {
  import opened Keys

  datatype Direction = Forward | Reverse

  /** The internal iterator: a position in a sorted run; at the end it is not valid. */
  class InternalIterator {
    const run: Run
    var pos: nat

    constructor (run: Run)
      ensures this.run == run && pos == |run|
    {
      this.run := run;
      pos := |run|;
    }

    predicate Valid()
      reads this
    {
      pos < |run|
    }

    function Key(): IKey
      requires Valid()
      reads this
    {
      run[pos].ik
    }

    method Next()
      requires Valid()
      modifies this
      ensures pos == old(pos) + 1
    {
      pos := pos + 1;
    }

    method Prev()
      requires Valid()
      modifies this
      ensures pos == if old(pos) == 0 then |run| else old(pos) - 1
    {
      pos := if pos == 0 then |run| else pos - 1;
    }

    method SeekToFirst()
      modifies this
      ensures pos == 0
    {
      pos := 0;
    }

    method SeekToLast()
      modifies this
      ensures pos == if run == [] then 0 else |run| - 1
    {
      pos := if run == [] then 0 else |run| - 1;
    }

    method Seek(target: IKey)
      modifies this
      ensures pos == LowerBound(run, target)
    {
      pos := LowerBound(run, target);
    }
  }

  /** The position before position `n`, where stepping before the start makes an iterator invalid. */
  function Back(run: Run, n: nat): nat
    requires n <= |run|
  {
    if n == 0 then |run| else n - 1
  }

  /** IteratorWrapper: caches Valid() and key() of the iterator it wraps. */
  class IteratorWrapper {
    const iter: InternalIterator
    var valid: bool
    var key: IKey

    ghost predicate Valid()
      reads this, iter
    {
      && iter.pos <= |iter.run|
      && (valid <==> iter.Valid())
      && (valid ==> key == iter.Key())
    }

    constructor (iter: InternalIterator)
      requires iter.pos <= |iter.run|
      ensures Valid() && this.iter == iter
    {
      this.iter := iter;
      valid := iter.pos < |iter.run|;
      key := if iter.pos < |iter.run| then iter.run[iter.pos].ik else IKey(0.0, 0, Deletion);
    }

    method Update()
      requires iter.pos <= |iter.run|
      modifies this
      ensures Valid()
    {
      valid := iter.Valid();
      if valid {
        key := iter.Key();
      }
    }

    method Next()
      requires Valid() && valid
      modifies this, iter
      ensures Valid() && iter.pos == old(iter.pos) + 1
    {
      iter.Next();
      Update();
    }

    method Prev()
      requires Valid() && valid
      modifies this, iter
      ensures Valid() && iter.pos == Back(iter.run, old(iter.pos))
    {
      iter.Prev();
      Update();
    }

    method Seek(target: IKey)
      modifies this, iter
      ensures Valid() && iter.pos == LowerBound(iter.run, target)
    {
      iter.Seek(target);
      Update();
    }

    method SeekToFirst()
      modifies this, iter
      ensures Valid() && iter.pos == 0
    {
      iter.SeekToFirst();
      Update();
    }

    method SeekToLast()
      modifies this, iter
      ensures Valid() && iter.pos == Back(iter.run, |iter.run|)
    {
      iter.SeekToLast();
      Update();
    }
  }
}
