/** What the operations of a bounded queue do to its contents, oldest first. */
module Ring {

  /**
   A put that does not wait for space: a full queue drops its oldest element, or refuses when it may not overwrite.
   */
  function Put<T>(max: nat, overwrite: bool, s: seq<T>, x: T): seq<T> {
    if |s| < max then s + [x] else if overwrite && s != [] then s[1..] + [x] else s
  }

  function PutAll<T>(max: nat, overwrite: bool, s: seq<T>, xs: seq<T>): seq<T>
    decreases xs
  {
    if xs == [] then s else PutAll(max, overwrite, Put(max, overwrite, s, xs[0]), xs[1..])
  }

  /** The last n elements of s, or all of them. */
  function Newest<T>(s: seq<T>, n: nat): seq<T> {
    if |s| <= n then s else s[|s| - n..]
  }

  /** An overwriting queue holds the newest elements of all that was in it or put into it. */
  lemma {:induction false} OverwritingKeepsNewest<T>(max: nat, s: seq<T>, xs: seq<T>)
    requires 0 < max && |s| <= max
    ensures PutAll(max, true, s, xs) == Newest(s + xs, max)
    decreases xs
  {
    if xs == [] {
      assert s + xs == s;
    } else {
      var s' := Put(max, true, s, xs[0]);
      OverwritingKeepsNewest(max, s', xs[1..]);
      if |s| < max {
        assert s + xs == s' + xs[1..];
      } else {
        assert s + xs == [s[0]] + (s' + xs[1..]);
      }
    }
  }

  /** A queue that may not overwrite keeps the oldest ones. */
  lemma {:induction false} RefusingKeepsOldest<T>(max: nat, s: seq<T>, xs: seq<T>)
    requires |s| <= max
    ensures PutAll(max, false, s, xs) == if |s + xs| <= max then s + xs else (s + xs)[..max]
    decreases xs
  {
    if xs == [] {
      assert s + xs == s;
    } else {
      var s' := Put(max, false, s, xs[0]);
      RefusingKeepsOldest(max, s', xs[1..]);
      if |s| < max {
        assert s + xs == s' + xs[1..];
      } else {
        assert (s' + xs[1..])[..max] == s == (s + xs)[..max];
      }
    }
  }

  datatype Op<T> = DoPut(x: T) | DoGet

  /** contents: what is in the queue; left: what has left it at the front, got or dropped; taken: what was accepted. */
  datatype Trace<T> = Trace(contents: seq<T>, left: seq<T>, taken: seq<T>)

  function Replay<T>(max: nat, overwrite: bool, ops: seq<Op<T>>): Trace<T> {
    if ops == [] then Trace([], [], [])
    else
      var t := Replay(max, overwrite, ops[..|ops| - 1]);
      match ops[|ops| - 1]
      case DoGet => if t.contents == [] then t else Trace(t.contents[1..], t.left + [t.contents[0]], t.taken)
      case DoPut(x) =>
        var c := Put(max, overwrite, t.contents, x);
        if |t.contents| < max then Trace(c, t.left, t.taken + [x])
        else if overwrite && t.contents != [] then Trace(c, t.left + [t.contents[0]], t.taken + [x])
        else t
  }

  /** Over any sequence of puts and gets the queue is first in, first out, and never holds more than max elements. */
  lemma {:induction false} FirstInFirstOut<T>(max: nat, overwrite: bool, ops: seq<Op<T>>)
    ensures var t := Replay(max, overwrite, ops); t.left + t.contents == t.taken && |t.contents| <= max
  {
    if ops != [] {
      FirstInFirstOut(max, overwrite, ops[..|ops| - 1]);
      var t := Replay(max, overwrite, ops[..|ops| - 1]);
      if t.contents != [] {
        assert (t.left + [t.contents[0]]) + t.contents[1..] == t.left + t.contents;
      }
    }
  }
}

/**
 The ring buffer. The lock and the condition variables are left out: a method is what happens once its wait has ended.
 */
module BoundedQueue {
  import Ring

  datatype QueueError = QueueEmpty | QueueFull | QueueTimeout

  datatype Result<+T> = Success(value: T) | Failure(error: QueueError)

  lemma WrapOnce(x: nat, max: nat)
    requires 0 < max && x < 2 * max
    ensures x % max == if x < max then x else x - max
  {
    if x >= max {
      assert x == max + (x - max);
      assert x / max == 1;
    }
  }

  /** The buffer index k places after c. */
  function Slot(c: nat, k: nat, max: nat): (s: nat)
    requires c < max && k <= max
    ensures s < max && s == (c + k) % max
  {
    WrapOnce(c + k, max);
    if c + k < max then c + k else c + k - max
  }

  class BoundedQueue<T(0)> {
    const maxSize: nat
    const overwrite: bool
    const buffer: array<T>
    var producer: nat
    var consumer: nat
    var size: nat

    ghost predicate Valid()
      reads this
    {
      && 0 < maxSize == buffer.Length && consumer < maxSize && size <= maxSize
      && producer == Slot(consumer, size, maxSize)
    }

    /** The elements, oldest first. */
    ghost function Contents(): (s: seq<T>)
      reads this, buffer
      requires Valid()
      ensures |s| == size
    {
      seq(size, i requires 0 <= i < size reads this, buffer requires Valid() => buffer[Slot(consumer, i, maxSize)])
    }

    constructor (maxSize: nat, overwrite: bool)
      requires maxSize > 0
      ensures Valid() && fresh(buffer) && Contents() == []
      ensures this.maxSize == maxSize && this.overwrite == overwrite
    {
      this.maxSize, this.overwrite := maxSize, overwrite;
      buffer := new T[maxSize];
      producer, consumer, size := 0, 0, 0;
    }

    /** put without a time limit, once there is space. */
    method Put(x: T)
      requires Valid() && size < maxSize
      modifies this, buffer
      ensures Valid() && Contents() == old(Contents()) + [x]
    {
      WrapOnce(producer + 1, maxSize);
      buffer[producer] := x;
      producer := (producer + 1) % maxSize;
      size := size + 1;
    }

    /**
     put with a time limit: the state is that at the end of the wait, so the queue is still full only when the limit has
     passed. zero says that the limit was zero.
     */
    method PutTimed(x: T, zero: bool) returns (r: Result<()>)
      requires Valid()
      modifies this, buffer
      ensures Valid() && Contents() == Ring.Put(maxSize, overwrite, old(Contents()), x)
      ensures r == if old(size) < maxSize || overwrite then Success(())
                   else Failure(if zero then QueueFull else QueueTimeout)
    {
      if size == maxSize {
        if !overwrite {
          return Failure(if zero then QueueFull else QueueTimeout);
        }
      }
      WrapOnce(producer + 1, maxSize);
      WrapOnce(consumer + 1, maxSize);
      buffer[producer] := x;
      producer := (producer + 1) % maxSize;
      size := size + 1;
      if size > maxSize {
        size := maxSize;
        if overwrite {
          consumer := (consumer + 1) % maxSize;
        }
      }
      r := Success(());
    }

    method PutNonblocking(x: T) returns (r: Result<()>)
      requires Valid()
      modifies this, buffer
      ensures Valid() && Contents() == Ring.Put(maxSize, overwrite, old(Contents()), x)
      ensures r == if old(size) < maxSize || overwrite then Success(()) else Failure(QueueFull)
    {
      r := PutTimed(x, true);
    }

    /** get without a time limit, once there is an element. */
    method Get() returns (x: T)
      requires Valid() && size > 0
      modifies this
      ensures Valid() && [x] + Contents() == old(Contents())
    {
      WrapOnce(consumer + 1, maxSize);
      x := buffer[consumer];
      consumer := (consumer + 1) % maxSize;
      size := size - 1;
    }

    /** get with a time limit, at the end of the wait. */
    method GetTimed(zero: bool) returns (r: Result<T>)
      requires Valid()
      modifies this
      ensures Valid()
      ensures old(Contents()) == [] ==> r == Failure(if zero then QueueEmpty else QueueTimeout) && Contents() == []
      ensures old(Contents()) != [] ==> r.Success? && [r.value] + Contents() == old(Contents())
    {
      if size == 0 {
        return Failure(if zero then QueueEmpty else QueueTimeout);
      }
      var x := Get();
      r := Success(x);
    }

    method Size() returns (n: nat)
      requires Valid()
      ensures n == |Contents()|
    {
      n := size;
    }

    method Full() returns (full: bool)
      requires Valid()
      ensures full <==> |Contents()| == maxSize
    {
      full := size == maxSize;
    }

    method Clear()
      requires Valid()
      modifies this
      ensures Valid() && Contents() == []
    {
      size, producer, consumer := 0, 0, 0;
    }
  }
}
