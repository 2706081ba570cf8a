/** Every interleaving of many producers, one consumer and Close on one SwapQueue, over explicit
    backing arrays, so that what append and swap share can be seen. */
module SwapQueueRuns {
  import opened Bytes

  type ArrId = nat

  /** A []T: its backing array and length. The capacity is the length of the array. */
  datatype Slice = Slice(arr: ArrId, len: nat)

  /** Where the consumer is. Idle: waiting. Called: Range entered, lock not yet taken.
      Ranging(i): i callbacks made. Cleared: about to look at the capacity. */
  datatype Phase = Idle | Called | Ranging(i: nat) | Cleared

  /** lock: the element of the producer inside pushData, past its check of closed.
      waking: producers that left pushData and have yet to Wake. */
  datatype Sys<T> = Sys(maxSize: int, size: nat, mem: map<ArrId, seq<Option<T>>>, write: Slice, read: Slice,
                        sig: bool, closed: bool, lock: Option<T>, waking: nat, closeWake: bool, phase: Phase,
                        accepted: seq<T>, delivered: seq<T>)

  datatype Action<T> =
    | PushCheck(x: T)                      // Lock; load of closed; on a closed queue Unlock
    | PushPlace(arr: ArrId, more: nat)     // test for room; append, growing by 1 + more cells if it must; Unlock
    | Wake
    | CloseSwap | CloseWake                // CompareAndSwap; Wake
    | Receive | CallRange                  // <-Sig(), then Range; or Range without a signal
    | Swap | CallBack | Clear | Shrink(arr: ArrId)

  function Blank<T>(n: nat): (r: seq<Option<T>>)
    ensures |r| == n
  {
    seq(n, _ => None)
  }

  function NewQueue<T>(size: nat, maxSize: int): Sys<T> {
    Sys(maxSize, size, map[0 := Blank(size), 1 := Blank(size)], Slice(0, 0), Slice(1, 0),
        false, false, None, 0, false, Idle, [], [])
  }

  ghost predicate Enabled<T>(s: Sys<T>, a: Action<T>) {
    match a
    case PushCheck(_) => s.lock.None?
    case PushPlace(arr, _) => s.lock.Some? && arr !in s.mem
    case Wake => s.waking > 0
    case CloseSwap => !s.closed
    case CloseWake => s.closeWake
    case Receive => s.phase.Idle? && s.sig
    case CallRange => s.phase.Idle?
    case Swap => s.phase.Called? && s.lock.None?
    case CallBack => s.phase.Ranging? && s.phase.i < s.read.len
    case Clear => s.phase.Ranging? && s.phase.i == s.read.len
    case Shrink(arr) => s.phase.Cleared? && arr !in s.mem
  }

  /** append(s.write, x): in place while there is capacity, else into a new, larger array. */
  function Appended<T>(s: Sys<T>, x: T, arr: ArrId, more: nat): Sys<T>
    requires s.write.arr in s.mem && s.write.len <= |s.mem[s.write.arr]|
  {
    var cells, n := s.mem[s.write.arr], s.write.len;
    if n < |cells| then s.(mem := s.mem[s.write.arr := cells[n := Some(x)]], write := Slice(s.write.arr, n + 1))
    else s.(mem := s.mem[arr := cells + [Some(x)] + Blank(more)], write := Slice(arr, n + 1))
  }

  function Accept<T>(s: Sys<T>, x: T, arr: ArrId, more: nat): Sys<T>
    requires s.write.arr in s.mem && s.write.len <= |s.mem[s.write.arr]|
  {
    Appended(s, x, arr, more).(accepted := s.accepted + [x])
  }

  ghost function Do<T>(s: Sys<T>, a: Action<T>): Sys<T>
    requires Memory(s) && Enabled(s, a)
  {
    match a
    case PushCheck(x) => if s.closed then s.(waking := s.waking + 1) else s.(lock := Some(x))
    case PushPlace(arr, more) =>
      var t := s.(lock := None, waking := s.waking + 1);
      if s.write.len >= s.maxSize then t
      else Accept(t, s.lock.value, arr, more)
    case Wake => s.(waking := s.waking - 1, sig := true)
    case CloseSwap => s.(closed := true, closeWake := true)
    case CloseWake => s.(closeWake := false, sig := true)
    case Receive => s.(sig := false, phase := Called)
    case CallRange => s.(phase := Called)
    case Swap =>
      if s.write.len == 0 then s.(phase := Idle)
      else s.(write := Slice(s.read.arr, 0), read := s.write, phase := Ranging(0))
    case CallBack =>
      var cell := s.mem[s.read.arr][s.phase.i];
      s.(phase := Ranging(s.phase.i + 1), delivered := if cell.Some? then s.delivered + [cell.value] else s.delivered)
    case Clear =>
      var cells := s.mem[s.read.arr];
      s.(mem := s.mem[s.read.arr := Blank(s.read.len) + cells[s.read.len..]], phase := Cleared)
    case Shrink(arr) =>
      if |s.mem[s.read.arr]| > s.size then
        s.(mem := s.mem[arr := Blank(s.size)], read := Slice(arr, 0), phase := Idle)
      else s.(phase := Idle)
  }

  // ---------- what every step keeps ----------

  /** Both slices lie in their arrays, and the arrays are different. */
  ghost predicate Memory<T>(s: Sys<T>) {
    && s.write.arr in s.mem && s.write.len <= |s.mem[s.write.arr]|
    && s.read.arr in s.mem && s.read.len <= |s.mem[s.read.arr]|
    && s.write.arr != s.read.arr
    && (s.phase.Ranging? ==> s.phase.i <= s.read.len)
  }

  /** Elements swapped out but not yet passed to the callback. */
  function InHand<T>(s: Sys<T>): int { if s.phase.Ranging? then s.read.len - s.phase.i else 0 }

  /** Cells lo to hi hold log from position at on. */
  ghost predicate Holds<T>(cells: seq<Option<T>>, lo: nat, hi: nat, log: seq<T>, at: int) {
    && lo <= hi <= |cells| && 0 <= at <= |log| - (hi - lo)
    && forall k :: lo <= k < hi ==> cells[k] == Some(log[at + k - lo])
  }

  /** What was accepted is what was delivered, then what is in hand, then what stands on the write side. */
  ghost predicate InOrder<T>(s: Sys<T>)
    requires Memory(s)
  {
    && |s.accepted| == |s.delivered| + InHand(s) + s.write.len
    && s.delivered == s.accepted[..|s.delivered|]
    && (s.phase.Ranging? ==> Holds(s.mem[s.read.arr], s.phase.i, s.read.len, s.accepted, |s.delivered|))
    && Holds(s.mem[s.write.arr], 0, s.write.len, s.accepted, |s.accepted| - s.write.len)
  }

  ghost predicate Bounded<T>(s: Sys<T>) { s.write.len == 0 || s.write.len <= s.maxSize }

  ghost predicate Awake<T>(s: Sys<T>) { s.write.len > 0 ==> s.sig || s.waking > 0 || s.phase.Called? }

  ghost predicate Inv<T>(s: Sys<T>) { Memory(s) && InOrder(s) && Bounded(s) && Awake(s) }

  /** Growing or not, append leaves the read side alone and adds one cell to the write side. */
  lemma AppendedCells<T>(s: Sys<T>, x: T, arr: ArrId, more: nat)
    requires Memory(s) && arr !in s.mem
    ensures var t := Appended(s, x, arr, more);
            && Memory(t) && t.write.len == s.write.len + 1 && t.mem[t.read.arr] == s.mem[s.read.arr]
            && (forall k :: 0 <= k < s.write.len ==> t.mem[t.write.arr][k] == s.mem[s.write.arr][k])
            && t.mem[t.write.arr][s.write.len] == Some(x)
  {
  }

  lemma HoldsSnoc<T>(cells: seq<Option<T>>, lo: nat, hi: nat, log: seq<T>, at: int, x: T)
    requires Holds(cells, lo, hi, log, at)
    ensures Holds(cells, lo, hi, log + [x], at)
    ensures at + hi - lo == |log| && hi < |cells| && cells[hi] == Some(x) ==> Holds(cells, lo, hi + 1, log + [x], at)
  {
  }

  lemma PushKeeps<T>(s: Sys<T>, x: T, arr: ArrId, more: nat)
    requires Memory(s) && InOrder(s) && arr !in s.mem
    ensures var t := Accept(s, x, arr, more); Memory(t) && InOrder(t) && t.write.len == s.write.len + 1
  {
    AppendedCells(s, x, arr, more);
    var t := Accept(s, x, arr, more);
    if s.phase.Ranging? { HoldsSnoc(s.mem[s.read.arr], s.phase.i, s.read.len, s.accepted, |s.delivered|, x); }
    assert Holds(t.mem[t.write.arr], 0, s.write.len, s.accepted, |s.accepted| - s.write.len);
    HoldsSnoc(t.mem[t.write.arr], 0, s.write.len, s.accepted, |s.accepted| - s.write.len, x);
    PrefixSnoc(s.accepted, x, |s.delivered|);
  }

  lemma PrefixSnoc<T>(xs: seq<T>, x: T, n: nat)
    requires n <= |xs|
    ensures (xs + [x])[..n] == xs[..n]
  {
  }

  lemma CallBackKeeps<T>(s: Sys<T>)
    requires Memory(s) && InOrder(s) && Enabled(s, CallBack)
    ensures Memory(Do(s, CallBack)) && InOrder(Do(s, CallBack)) && |Do(s, CallBack).delivered| == |s.delivered| + 1
  {
    var n := |s.delivered|;
    assert s.mem[s.read.arr][s.phase.i] == Some(s.accepted[n + s.phase.i - s.phase.i]);
    assert s.accepted[..n + 1] == s.accepted[..n] + [s.accepted[n]];
  }

  lemma SwapKeeps<T>(s: Sys<T>)
    requires Memory(s) && InOrder(s) && Enabled(s, Swap)
    ensures Memory(Do(s, Swap)) && InOrder(Do(s, Swap))
  {
    var t := Do(s, Swap);
    if s.write.len > 0 {
      assert Holds(t.mem[t.read.arr], 0, t.read.len, t.accepted, |t.delivered|);
      assert Holds(t.mem[t.write.arr], 0, 0, t.accepted, |t.accepted|);
    }
  }

  lemma ClearKeeps<T>(s: Sys<T>)
    requires Memory(s) && InOrder(s) && Enabled(s, Clear)
    ensures Memory(Do(s, Clear)) && InOrder(Do(s, Clear))
  {
    var t := Do(s, Clear);
    assert t.mem[t.write.arr] == s.mem[s.write.arr];
  }

  lemma ShrinkKeeps<T>(s: Sys<T>, arr: ArrId)
    requires Memory(s) && InOrder(s) && Enabled(s, Shrink(arr))
    ensures Memory(Do(s, Shrink(arr))) && InOrder(Do(s, Shrink(arr)))
  {
    var t := Do(s, Shrink(arr));
    assert t.mem[t.write.arr] == s.mem[s.write.arr];
  }

  /** A step that leaves arrays, slices and logs alone, and does not begin or go on with Range. */
  lemma SameKeeps<T>(s: Sys<T>, t: Sys<T>)
    requires Memory(s) && InOrder(s)
    requires t.mem == s.mem && t.write == s.write && t.read == s.read && t.accepted == s.accepted && t.delivered == s.delivered
    requires t.phase == s.phase || (!s.phase.Ranging? && !t.phase.Ranging?)
    ensures Memory(t) && InOrder(t)
  {
  }

  lemma PlaceKeeps<T>(s: Sys<T>, arr: ArrId, more: nat)
    requires Memory(s) && InOrder(s) && Enabled(s, PushPlace(arr, more))
    ensures Memory(Do(s, PushPlace(arr, more))) && InOrder(Do(s, PushPlace(arr, more)))
  {
    var u := s.(lock := None, waking := s.waking + 1);
    SameKeeps(s, u);
    PlaceIs(s, arr, more);
    if s.write.len < s.maxSize { PushKeeps(u, s.lock.value, arr, more); }
  }

  lemma PlaceIs<T>(s: Sys<T>, arr: ArrId, more: nat)
    requires Memory(s) && Enabled(s, PushPlace(arr, more))
    ensures var u := s.(lock := None, waking := s.waking + 1);
            Do(s, PushPlace(arr, more)) == if s.write.len >= s.maxSize then u else Accept(u, s.lock.value, arr, more)
  {
  }

  lemma MemoryOrder<T>(s: Sys<T>, a: Action<T>)
    requires Memory(s) && InOrder(s) && Enabled(s, a)
    ensures Memory(Do(s, a)) && InOrder(Do(s, a))
  {
    match a {
      case PushPlace(arr, more) => PlaceKeeps(s, arr, more);
      case CallBack => CallBackKeeps(s);
      case Swap => SwapKeeps(s);
      case Clear => ClearKeeps(s);
      case Shrink(arr) => ShrinkKeeps(s, arr);
      case _ => SameKeeps(s, Do(s, a));
    }
  }

  lemma StepKeeps<T>(s: Sys<T>, a: Action<T>)
    requires Inv(s) && Enabled(s, a)
    ensures Inv(Do(s, a)) && Do(s, a).maxSize == s.maxSize
  {
    MemoryOrder(s, a);
  }

  /** The state after acts, if each was possible in its turn. */
  ghost function Run<T>(size: nat, maxSize: int, acts: seq<Action<T>>): (r: Option<Sys<T>>)
    ensures r.Some? ==> Inv(r.value) && r.value.maxSize == maxSize
  {
    if acts == [] then Some(NewQueue(size, maxSize))
    else
      var before := Run(size, maxSize, acts[..|acts| - 1]);
      var a := acts[|acts| - 1];
      if before.None? || !Enabled(before.value, a) then None
      else StepKeeps(before.value, a); Some(Do(before.value, a))
  }

  // ---------- what that means for every run ----------

  function Cells<T>(xs: seq<T>): (r: seq<Option<T>>)
    ensures |r| == |xs|
  {
    seq(|xs|, i requires 0 <= i < |xs| => Some(xs[i]))
  }

  lemma HoldsSlice<T>(cells: seq<Option<T>>, lo: nat, hi: nat, log: seq<T>, at: int)
    requires Holds(cells, lo, hi, log, at)
    ensures cells[lo..hi] == Cells(log)[at..at + hi - lo]
  {
  }

  function InHandCells<T>(s: Sys<T>): seq<Option<T>>
    requires Memory(s)
  {
    if s.phase.Ranging? then s.mem[s.read.arr][s.phase.i..s.read.len] else []
  }

  lemma Partition<T>(s: Sys<T>)
    requires Memory(s) && InOrder(s)
    ensures Cells(s.accepted) == Cells(s.delivered) + InHandCells(s) + s.mem[s.write.arr][..s.write.len]
  {
    var all, n, m := Cells(s.accepted), |s.delivered|, |s.accepted| - s.write.len;
    HoldsSlice(s.mem[s.write.arr], 0, s.write.len, s.accepted, m);
    assert s.mem[s.write.arr][..s.write.len] == all[m..];
    if s.phase.Ranging? { HoldsSlice(s.mem[s.read.arr], s.phase.i, s.read.len, s.accepted, n); }
    assert InHandCells(s) == all[n..m];
    CellsPrefix(s.accepted, n);
    assert all == all[..n] + all[n..m] + all[m..];
  }

  lemma CellsPrefix<T>(xs: seq<T>, n: nat)
    requires n <= |xs|
    ensures Cells(xs[..n]) == Cells(xs)[..n]
  {
  }

  /** At every point of every run each accepted element is in exactly one place: delivered, in hand, or on the
      write side, in the order of acceptance; the write side is bounded; the two arrays are different. */
  lemma ExactlyOnce<T>(size: nat, maxSize: int, acts: seq<Action<T>>)
    requires Run(size, maxSize, acts).Some?
    ensures var s := Run(size, maxSize, acts).value;
            && Memory(s) && s.write.arr != s.read.arr
            && Cells(s.accepted) == Cells(s.delivered) + InHandCells(s) + s.mem[s.write.arr][..s.write.len]
            && (s.write.len == 0 || s.write.len <= maxSize)
  {
    Partition(Run(size, maxSize, acts).value);
  }

  /** No wakeup is lost: while elements wait and the consumer sleeps, the signal is set or about to be. */
  lemma NoLostWakeup<T>(size: nat, maxSize: int, acts: seq<Action<T>>)
    requires Run(size, maxSize, acts).Some?
    ensures var s := Run(size, maxSize, acts).value;
            && (s.write.len > 0 && s.phase.Idle? ==> Enabled(s, Receive) || Enabled(s, Wake))
            && (!s.sig && s.waking == 0 && s.phase.Idle? ==> s.delivered == s.accepted)
  {
    var s := Run(size, maxSize, acts).value;
    assert s.write.len == 0 && s.phase.Idle? ==> s.accepted[..|s.accepted|] == s.accepted;
  }

  /** The state after acts from s on. */
  ghost function Continue<T>(s: Sys<T>, acts: seq<Action<T>>): (r: Option<Sys<T>>)
    requires Inv(s)
    ensures r.Some? ==> Inv(r.value)
  {
    if acts == [] then Some(s)
    else
      var before := Continue(s, acts[..|acts| - 1]);
      var a := acts[|acts| - 1];
      if before.None? || !Enabled(before.value, a) then None
      else StepKeeps(before.value, a); Some(Do(before.value, a))
  }

  /** No producer is past its check of closed with room for its element. */
  predicate Shut<T>(s: Sys<T>) { s.lock.None? || s.write.len >= s.maxSize }

  lemma ClosedStep<T>(s: Sys<T>, a: Action<T>)
    requires Memory(s) && s.closed && Shut(s) && Enabled(s, a)
    ensures Do(s, a).accepted == s.accepted && Do(s, a).closed && Shut(Do(s, a))
  {
  }

  lemma {:induction false} ClosedAccepts<T>(s: Sys<T>, acts: seq<Action<T>>)
    requires Inv(s) && s.closed && Shut(s) && Continue(s, acts).Some?
    ensures var t := Continue(s, acts).value; t.accepted == s.accepted && t.closed && Shut(t)
  {
    if acts != [] {
      ClosedAccepts(s, acts[..|acts| - 1]);
      ClosedStep(Continue(s, acts[..|acts| - 1]).value, acts[|acts| - 1]);
    }
  }

  /** An array id not in use. */
  lemma {:induction false} FreshArray<V>(mem: map<ArrId, V>) returns (arr: ArrId)
    ensures forall x :: x in mem ==> x < arr
    decreases |mem|
  {
    if mem == map[] {
      arr := 0;
    } else {
      var x :| x in mem;
      var rest := mem - {x};
      arr := FreshArray(rest);
      assert forall y :: y in mem ==> y == x || y in rest;
      arr := if arr > x then arr else x + 1;
    }
  }

  /** The step by which a producer past its check is accepted. */
  lemma AcceptedNow<T>(s: Sys<T>) returns (acts: seq<Action<T>>)
    requires Inv(s) && !Shut(s)
    ensures Continue(s, acts).Some? && Continue(s, acts).value.accepted == s.accepted + [s.lock.value]
  {
    var arr := FreshArray(s.mem);
    acts := [PushPlace(arr, 0)];
    assert acts[..0] == [] && Continue(s, acts[..0]) == Some(s);
  }

  /** After Close nothing more is accepted, whatever follows, if and only if no producer past its check of
      closed finds room on the write side. */
  lemma ClosedExact<T(!new)>(s: Sys<T>)
    requires Inv(s) && s.closed
    ensures (forall acts :: Continue(s, acts).Some? ==> Continue(s, acts).value.accepted == s.accepted)
            <==> s.lock.None? || s.write.len >= s.maxSize
  {
    if Shut(s) {
      forall acts | Continue(s, acts).Some? ensures Continue(s, acts).value.accepted == s.accepted {
        ClosedAccepts(s, acts);
      }
    } else {
      var acts := AcceptedNow(s);
      assert |Continue(s, acts).value.accepted| == |s.accepted| + 1;
    }
  }

  /** Close does not take the lock, so a producer past its check is still accepted after Close has returned. */
  lemma AcceptedAfterClose(x: int)
    ensures var acts := [PushCheck(x), CloseSwap, CloseWake, PushPlace(2, 0)];
            Run(1, 1, acts).Some? && Run(1, 1, acts).value.accepted == [x]
  {
    var acts := [PushCheck(x), CloseSwap, CloseWake, PushPlace(2, 0)];
    assert acts[..3] == [PushCheck(x), CloseSwap, CloseWake];
    assert acts[..3][..2] == [PushCheck(x), CloseSwap] && acts[..3][..2][..1] == [PushCheck(x)];
    assert acts[..3][..2][..1][..0] == [];
    assert Run(1, 1, acts[..3][..2][..1]) == Some(NewQueue(1, 1).(lock := Some(x)));
    assert Run(1, 1, acts[..3][..2]).Some? && Run(1, 1, acts[..3]).Some?;
  }
}
