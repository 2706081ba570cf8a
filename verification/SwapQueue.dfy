/** SwapQueue as one goroutine sees it: two slices, appended to and swapped in place. */
module SwapQueue {
  datatype PushResult = Accepted | QueueFull | QueueClosed

  class SwapQueue<T(0)> {
    var write: array<T>
    var wlen: nat
    var read: array<T>
    var rlen: nat
    var sig: bool
    var closed: bool
    const maxSize: int
    const size: nat
    const zero: T

    ghost predicate Valid()
      reads this
    {
      wlen <= write.Length && rlen <= read.Length && write != read
    }

    /** What Push has accepted and Range has not yet taken. */
    ghost function Waiting(): seq<T>
      requires Valid()
      reads this, write
    {
      write[..wlen]
    }

    constructor (size: nat, maxSize: int, zero: T)
      ensures Valid() && Waiting() == [] && !sig && !closed && fresh(write) && fresh(read)
      ensures this.size == size && this.maxSize == maxSize && this.zero == zero
    {
      this.size := size;
      this.maxSize := maxSize;
      this.zero := zero;
      write := new T[size];
      read := new T[size];
      wlen, rlen, sig, closed := 0, 0, false, false;
    }

    /** append(s.write, x); more is how much beyond the needed cell a new array is given. */
    method Append(x: T, more: nat)
      requires Valid()
      modifies this`write, this`wlen, write
      ensures Valid() && Waiting() == old(Waiting()) + [x]
      ensures write == old(write) || fresh(write)
    {
      if wlen == write.Length {
        var grown := new T[wlen + 1 + more];
        for i := 0 to wlen
          invariant grown[..i] == write[..i]
          modifies grown
        {
          grown[i] := write[i];
        }
        write := grown;
      }
      write[wlen] := x;
      wlen := wlen + 1;
    }

    /** Push: refused or appended, the consumer is woken either way. */
    method Push(x: T, more: nat) returns (r: PushResult)
      requires Valid()
      modifies this`write, this`wlen, this`sig, write
      ensures Valid() && sig && (write == old(write) || fresh(write))
      ensures r == if closed then QueueClosed else if |old(Waiting())| >= maxSize then QueueFull else Accepted
      ensures Waiting() == old(Waiting()) + if r.Accepted? then [x] else []
    {
      if closed {
        r := QueueClosed;
      } else if wlen >= maxSize {
        r := QueueFull;
      } else {
        Append(x, more);
        r := Accepted;
      }
      sig := true;
    }

    /** Close wakes the consumer the first time only. */
    method Close()
      modifies this`closed, this`sig
      ensures closed && sig == (old(sig) || !old(closed))
    {
      if !closed {
        closed := true;
        sig := true;
      }
    }

    /** Range: out is what the callback is given, in order. */
    method Range() returns (out: seq<T>)
      requires Valid()
      modifies this`write, this`wlen, this`read, this`rlen, write
      ensures Valid() && out == old(Waiting()) && Waiting() == []
      ensures out != [] ==> read.Length <= size && forall k :: 0 <= k < rlen ==> read[k] == zero
    {
      out := [];
      if wlen == 0 { return; }
      write, wlen, read, rlen := read, 0, write, wlen;
      for i := 0 to rlen
        invariant out == read[..i]
      {
        out := out + [read[i]];
      }
      for i := 0 to rlen
        invariant forall k :: 0 <= k < i ==> read[k] == zero
        modifies read
      {
        read[i] := zero;
      }
      if read.Length > size {
        read := new T[size];
        rlen := 0;
      }
    }
  }
}
