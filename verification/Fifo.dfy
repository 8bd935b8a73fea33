/** The four-word FIFOs of a state machine: a bounded queue with its history, and the
shifting array that implements it. */
module Fifos {
  import opened Bits

  const MAX_FIFO_DEPTH := 4

  /** A FIFO with the history of every word put into it and taken from it. */
  datatype Queue = Queue(items: seq<Word>, put: seq<Word>, got: seq<Word>) {

    predicate Empty() { items == [] }

    predicate Full() { |items| >= MAX_FIFO_DEPTH }

    /** Nothing is lost, duplicated or reordered, and the depth is bounded. */
    ghost predicate Ok() {
      |items| <= MAX_FIFO_DEPTH && put == got + items
    }

    function Push(w: Word): (q: Queue)
      requires !Full()
      ensures Ok() ==> q.Ok()
    {
      Queue(items + [w], put + [w], got)
    }

    function Pop(): (q: Queue)
      requires !Empty()
      ensures Ok() ==> q.Ok()
    {
      Queue(items[1..], put, got + [items[0]])
    }
  }

  const EMPTY_QUEUE := Queue([], [], [])

  /** The C arrays: words at the front of a fixed buffer, shifted down by every pop. */
  class Fifo {
    const buf: array<Word>
    var count: nat
    ghost var put: seq<Word>
    ghost var got: seq<Word>

    ghost predicate Valid()
      reads this, buf
    {
      buf.Length == MAX_FIFO_DEPTH && count <= MAX_FIFO_DEPTH
    }

    ghost function Abs(): Queue
      reads this, buf
      requires Valid()
    {
      Queue(buf[..count], put, got)
    }

    constructor ()
      ensures Valid() && fresh(buf)
      ensures Abs() == EMPTY_QUEUE
    {
      buf := new Word[MAX_FIFO_DEPTH](_ => ZERO);
      count, put, got := 0, [], [];
    }

    method Push(value: Word)
      requires Valid() && !Abs().Full()
      modifies this, buf
      ensures Valid() && Abs() == old(Abs()).Push(value)
    {
      buf[count] := value;
      count := count + 1;
      put := put + [value];
    }

    method Pop() returns (value: Word)
      requires Valid() && !Abs().Empty()
      modifies this, buf
      ensures Valid() && Abs() == old(Abs()).Pop()
      ensures value == old(Abs()).items[0]
    {
      value := buf[0];
      count := count - 1;
      var i := 0;
      while i < count
        invariant 0 <= i <= count == old(count) - 1
        invariant put == old(put) && got == old(got)
        invariant forall k :: 0 <= k < i ==> buf[k] == old(buf[k + 1])
        invariant forall k :: i <= k < buf.Length ==> buf[k] == old(buf[k])
      {
        buf[i] := buf[i + 1];
        i := i + 1;
      }
      got := got + [value];
      assert buf[..count] == old(buf[..count])[1..];
    }
  }
}
