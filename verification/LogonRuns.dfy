/** LogonService from its event channel to the stores: the event loop, the three savers, and Close,
    in every interleaving. Login events are seen only by what they leave in the cache. */
module LogonRuns {
  import opened Bytes
  import opened SaverData
  import opened SaverSteps

  const OP_CHAN_SIZE: nat := 40960
  const SAVE_GO_CNT: nat := 3

  datatype EntryState = Offline | CanDel | InUse

  datatype Entry = Entry(state: EntryState, cache: Doc)

  datatype Event =
    | Logout(id: Id, data: Doc)
    | SaveRole(id: Id, data: Doc, both: bool)
    | SaveSuccess(ids: seq<Id>)
    | LoginPath(id: Id, entry: Entry)

  /** A save taken into a saver's queue, when at events had been taken off the channel. */
  datatype Acc = Acc(op: SaveOp, at: nat)

  /** The goroutine of run. Must: inside postMustSave. Closing(k): k savers closed. */
  datatype Loop = Select | Must(op: SaveOp, draining: bool) | Draining | Closing(k: nat) | Done

  /** put: everything ever put on ops; cutoff: how much of it when cancel was called. */
  datatype Sys = Sys(ops: seq<Event>, put: seq<Event>, taken: seq<Event>, cancelled: bool, cutoff: nat,
                     loop: Loop, entries: map<Id, Entry>, savers: seq<Saver>, stores: Stores, base: Store,
                     accepted: seq<Acc>, closed: bool)

  datatype Step =
    | Put(e: Event)
    | Cancel
    | Take                         // one event off ops, by select or by drainOps
    | TryPush                      // one turn of the loop of postMustSave
    | Cleanup(id: Id)              // what the minute tick does with one entry
    | SeeCancel | DrainEnd | CloseSaver | LoopEnd
    | SaverStep(k: nat, a: Action)
    | CloseReturn

  function Init(stores: Stores): Sys {
    Sys([], [], [], false, 0, Select, map[], [NewSaver, NewSaver, NewSaver], stores, stores.redis, [], false)
  }

  ghost predicate Possible(s: Sys, x: Step)
    requires |s.savers| == 3
  {
    match x
    case Put(_) => |s.ops| < OP_CHAN_SIZE
    case Cancel => !s.cancelled
    case Take => (s.loop.Select? || s.loop.Draining?) && s.ops != []
    case TryPush => s.loop.Must?
    case Cleanup(id) => s.loop.Select? && id in s.entries
    case SeeCancel => s.loop.Select? && s.cancelled
    case DrainEnd => s.loop.Draining? && s.ops == []
    case CloseSaver => s.loop.Closing? && s.loop.k < SAVE_GO_CNT
    case LoopEnd => s.loop == Closing(SAVE_GO_CNT)
    case SaverStep(k, a) => k < SAVE_GO_CNT && Enabled(s.savers[k], a) && (a.Posted? ==> |s.ops| < OP_CHAN_SIZE)
    case CloseReturn => s.cancelled && s.loop.Done? && forall k :: 0 <= k < SAVE_GO_CNT ==> s.savers[k].mode.Returned?
  }

  function LogoutOp(e: Event): SaveOp
    requires e.Logout?
  {
    SaveOp(e.id, e.data, false)
  }

  predicate Full(s: Sys, op: SaveOp)
    requires |s.savers| == 3
  {
    |s.savers[op.id % 3].queue| >= OP_CHAN_SIZE
  }

  /** SwapQueue.Push onto the saver of op.id; the loop is the only one to push and to close. */
  function Pushed(s: Sys, op: SaveOp): Sys
    requires |s.savers| == 3
  {
    var k := op.id % 3;
    var v := s.savers[k];
    s.(savers := s.savers[k := v.(queue := v.queue + [op])], accepted := s.accepted + [Acc(op, |s.taken|)])
  }

  /** saver.post: a full queue drops the save. */
  function Offer(s: Sys, op: SaveOp): Sys
    requires |s.savers| == 3
  {
    if Full(s, op) then s else Pushed(s, op)
  }

  function SetCache(m: map<Id, Entry>, id: Id, data: Doc): map<Id, Entry> {
    if id in m then m[id := m[id].(cache := data)] else m
  }

  function SetOffline(m: map<Id, Entry>, id: Id): map<Id, Entry> {
    if id in m then m[id := m[id].(state := Offline)] else m
  }

  function SaveSucceeded(m: map<Id, Entry>, ids: seq<Id>): map<Id, Entry> {
    map id | id in m :: if id in ids && m[id].state == Offline then m[id].(state := CanDel) else m[id]
  }

  /** onOps. */
  function Handle(s: Sys, e: Event): Sys
    requires |s.savers| == 3
  {
    match e
    case Logout(id, data) =>
      s.(entries := SetCache(SetOffline(s.entries, id), id, data), loop := Must(LogoutOp(e), s.loop.Draining?))
    case SaveRole(id, data, both) =>
      Offer(s.(entries := SetCache(s.entries, id, data)), SaveOp(id, data, both))
    case SaveSuccess(ids) => s.(entries := SaveSucceeded(s.entries, ids))
    case LoginPath(id, entry) => s.(entries := s.entries[id := entry])
  }

  function Cleaned(s: Sys, id: Id): Sys
    requires |s.savers| == 3 && id in s.entries
  {
    match s.entries[id].state
    case Offline => Offer(s, SaveOp(id, s.entries[id].cache, true))
    case CanDel => s.(entries := s.entries - {id})
    case InUse => s
  }

  function Stepped(s: Sys, k: nat, a: Action): Sys
    requires k < |s.savers|
    requires var v := s.savers[k];
      && (a.MergeNext? ==> v.hand != []) && (a.MergeEnd? ==> v.mode.Merging?)
      && (a.ExecPipe? ==> v.mode.ToRedis?) && (a.BulkWrite? ==> v.mode.ToMongo?) && (a.Posted? ==> v.mode.Posting?)
  {
    var v := s.savers[k];
    s.(savers := s.savers[k := DoSaver(v, a)], stores := DoStores(s.stores, v, a))
  }

  function Sent(s: Sys, e: Event): Sys { s.(ops := s.ops + [e], put := s.put + [e]) }

  /** The ids of a chunk that were flagged Both. */
  function BothIds(b: Batch, ids: seq<Id>): (r: seq<Id>) {
    if ids == [] then []
    else BothIds(b, ids[..|ids| - 1]) + if ids[|ids| - 1] in b && b[ids[|ids| - 1]].both then [ids[|ids| - 1]] else []
  }

  function SuccessOf(v: Saver): Event
    requires v.mode.Posting?
  {
    SaveSuccess(BothIds(v.batch, ChunkIds(v.mode.order, v.mode.at)))
  }

  ghost function Next(s: Sys, x: Step): Sys
    requires |s.savers| == 3 && Possible(s, x)
  {
    match x
    case Put(e) => Sent(s, e)
    case Cancel => s.(cancelled := true, cutoff := |s.put|)
    case Take => Handle(s.(ops := s.ops[1..], taken := s.taken + [s.ops[0]]), s.ops[0])
    case TryPush =>
      if Full(s, s.loop.op) then s
      else Pushed(s, s.loop.op).(loop := if s.loop.draining then Draining else Select)
    case Cleanup(id) => Cleaned(s, id)
    case SeeCancel => s.(loop := Draining)
    case DrainEnd => s.(loop := Closing(0))
    case CloseSaver =>
      s.(savers := s.savers[s.loop.k := s.savers[s.loop.k].(closed := true)], loop := Closing(s.loop.k + 1))
    case LoopEnd => s.(loop := Done)
    case SaverStep(k, a) =>
      var t := Stepped(s, k, a);
      if a.Posted? then Sent(t, SuccessOf(s.savers[k])) else t
    case CloseReturn => s.(closed := true)
  }

  // ---------- the savers ----------

  /** Everything saver k holds is for ids it is responsible for. */
  ghost predicate Shard(v: Saver, k: nat) {
    && (forall id :: id in v.batch ==> id % 3 == k)
    && (forall i :: 0 <= i < |v.hand| ==> v.hand[i].id % 3 == k)
    && (forall i :: 0 <= i < |v.queue| ==> v.queue[i].id % 3 == k)
  }

  /** Nothing is pushed any more. */
  predicate Stopped(l: Loop, k: nat) { (l.Closing? && l.k > k) || l.Done? }

  ghost predicate SaverInv(s: Sys) {
    && |s.savers| == 3
    && forall k :: 0 <= k < 3 ==>
      SaverOk(s.stores, s.savers[k]) && Shard(s.savers[k], k) && (s.savers[k].closed ==> Stopped(s.loop, k))
  }

  lemma SaverOkFrame(st: Stores, st': Stores, v: Saver)
    requires SaverOk(st, v)
    requires forall id :: id in v.batch ==> Get(st'.redis, id) == Get(st.redis, id) && Get(st'.mongo, id) == Get(st.mongo, id)
    ensures SaverOk(st', v)
  {
    assert forall id :: id in v.batch ==> InRedis(st', v.batch, id) == InRedis(st, v.batch, id)
                                          && Saved(st', v.batch, id) == Saved(st, v.batch, id);
  }

  lemma PushedInv(s: Sys, op: SaveOp)
    requires SaverInv(s) && !s.loop.Closing? && !s.loop.Done?
    ensures SaverInv(Pushed(s, op))
  {
    var t := Pushed(s, op);
    var k := op.id % 3;
    assert Shard(t.savers[k], k);
  }

  lemma SteppedInv(s: Sys, k: nat, a: Action)
    requires SaverInv(s) && k < 3 && Enabled(s.savers[k], a)
    ensures SaverInv(Stepped(s, k, a))
  {
    var t, v := Stepped(s, k, a), s.savers[k];
    StepOk(s.stores, v, a);
    forall j | 0 <= j < 3 && j != k ensures SaverOk(t.stores, t.savers[j]) {
      forall id | id in s.savers[j].batch
        ensures Get(t.stores.redis, id) == Get(s.stores.redis, id) && Get(t.stores.mongo, id) == Get(s.stores.mongo, id)
      {
        assert id % 3 == j;
        StepFrame(s.stores, v, a, id);
      }
      SaverOkFrame(s.stores, t.stores, s.savers[j]);
    }
    SteppedShard(v, k, a);
  }

  lemma SteppedShard(v: Saver, k: nat, a: Action)
    requires Shard(v, k) && Enabled(v, a)
    ensures Shard(DoSaver(v, a), k) && DoSaver(v, a).closed == v.closed
  {
    if a.MergeNext? {
      assert DoSaver(v, a).batch.Keys == v.batch.Keys + {v.hand[0].id};
    }
  }

  // ---------- nothing is lost between the loop and Redis ----------

  function Ops(accepted: seq<Acc>): (r: seq<SaveOp>)
    ensures |r| == |accepted|
  {
    seq(|accepted|, i requires 0 <= i < |accepted| => accepted[i].op)
  }

  /** Redis overlaid with the batch, the swapped-out saves and the queue is the fold of all accepted saves. */
  ghost predicate Agrees(s: Sys, id: Id)
    requires |s.savers| == 3
  {
    View(s.stores, s.savers[id % 3], id) == Get(s.base, id) + ForId(Ops(s.accepted), id)
  }

  ghost predicate FoldInv(s: Sys)
    requires |s.savers| == 3
  {
    forall id: Id :: Agrees(s, id)
  }

  lemma OpsSnoc(accepted: seq<Acc>, x: Acc, id: Id)
    ensures ForId(Ops(accepted + [x]), id) == ForId(Ops(accepted), id) + Mine(x.op, id)
  {
    assert Ops(accepted + [x]) == Ops(accepted) + [x.op];
    ForIdConcat(Ops(accepted), [x.op], id);
    ForIdOne(x.op, id);
  }

  lemma QueueSnoc(st: Stores, v: Saver, op: SaveOp, id: Id)
    ensures View(st, v.(queue := v.queue + [op]), id) == View(st, v, id) + Mine(op, id)
  {
    var d, h, q, m := Get(st.redis, id) + Data(v.batch, id), ForId(v.hand, id), ForId(v.queue, id), Mine(op, id);
    ForIdConcat(v.queue, [op], id);
    ForIdOne(op, id);
    Overlay3(h, q, m);
    Overlay3(d, h + q, m);
  }

  lemma PushedAgrees(s: Sys, op: SaveOp, id: Id)
    requires |s.savers| == 3 && Agrees(s, id)
    ensures Agrees(Pushed(s, op), id)
  {
    var f, m := ForId(Ops(s.accepted), id), Mine(op, id);
    OpsSnoc(s.accepted, Acc(op, |s.taken|), id);
    Overlay3(Get(s.base, id), f, m);
    if id % 3 == op.id % 3 {
      QueueSnoc(s.stores, s.savers[id % 3], op, id);
    } else {
      OverlayNone(Get(s.base, id) + f);
    }
  }

  lemma SteppedAgrees(s: Sys, k: nat, a: Action, id: Id)
    requires SaverInv(s) && Agrees(s, id) && k < 3 && Enabled(s.savers[k], a)
    ensures Agrees(Stepped(s, k, a), id)
  {
    if id % 3 == k {
      StepView(s.stores, s.savers[k], a, id);
    } else {
      StepFrame(s.stores, s.savers[k], a, id);
    }
  }

  // ---------- nothing is lost between the channel and the savers ----------

  ghost predicate ChanInv(s: Sys) {
    && s.put == s.taken + s.ops
    && (s.cancelled ==> s.cutoff <= |s.put|)
    && (s.loop.Draining? || (s.loop.Must? && s.loop.draining) || s.loop.Closing? || s.loop.Done? ==> s.cancelled)
    && (s.loop.Closing? || s.loop.Done? ==> s.cutoff <= |s.taken|)
  }

  ghost predicate Took(accepted: seq<Acc>, e: Event, at: nat)
    requires e.Logout?
  {
    exists p :: 0 <= p < |accepted| && accepted[p] == Acc(LogoutOp(e), at)
  }

  /** Every logout taken off the channel was accepted, except the one in postMustSave. */
  ghost predicate LogoutInv(s: Sys) {
    && (s.loop.Must? ==> |s.taken| > 0 && s.taken[|s.taken| - 1].Logout? && s.loop.op == LogoutOp(s.taken[|s.taken| - 1]))
    && (forall i :: 0 <= i < |s.taken| && s.taken[i].Logout? ==>
          Took(s.accepted, s.taken[i], i + 1) || (s.loop.Must? && i == |s.taken| - 1))
  }

  /** Saves are accepted in the order of the events they come from. */
  ghost predicate TimeInv(s: Sys) {
    && (forall p, q :: 0 <= p < q < |s.accepted| ==> s.accepted[p].at <= s.accepted[q].at)
    && (forall p :: 0 <= p < |s.accepted| ==> s.accepted[p].at <= |s.taken|)
  }

  lemma TookStill(accepted: seq<Acc>, x: Acc, e: Event, at: nat)
    requires e.Logout? && Took(accepted, e, at)
    ensures Took(accepted + [x], e, at)
  {
    var p :| 0 <= p < |accepted| && accepted[p] == Acc(LogoutOp(e), at);
    assert (accepted + [x])[p] == accepted[p];
  }

  lemma PushedLogouts(s: Sys, op: SaveOp, loop: Loop)
    requires |s.savers| == 3 && LogoutInv(s) && TimeInv(s)
    requires loop == s.loop || (s.loop.Must? && op == s.loop.op && !loop.Must?)
    ensures LogoutInv(Pushed(s, op).(loop := loop)) && TimeInv(Pushed(s, op).(loop := loop))
  {
    var t, n := Pushed(s, op).(loop := loop), |s.accepted|;
    forall i | 0 <= i < |t.taken| && t.taken[i].Logout?
      ensures Took(t.accepted, t.taken[i], i + 1) || (t.loop.Must? && i == |t.taken| - 1)
    {
      if Took(s.accepted, s.taken[i], i + 1) {
        TookStill(s.accepted, Acc(op, |s.taken|), s.taken[i], i + 1);
      } else {
        assert t.accepted[n] == Acc(op, |s.taken|);
      }
    }
  }

  // ---------- every step ----------

  ghost predicate Inv(s: Sys) { SaverInv(s) && FoldInv(s) && ChanInv(s) && LogoutInv(s) && TimeInv(s) && Quiet(s) }

  /** After Close has returned, the savers have. */
  ghost predicate Quiet(s: Sys)
    requires |s.savers| == 3
  {
    s.closed ==> s.cancelled && s.loop.Done? && forall k :: 0 <= k < 3 ==> s.savers[k].mode.Returned?
  }

  /** t differs from s in nothing the savers or the saves accepted depend on. */
  predicate SameSaves(s: Sys, t: Sys) {
    t.savers == s.savers && t.stores == s.stores && t.base == s.base && t.accepted == s.accepted
  }

  lemma SameKeeps(s: Sys, t: Sys)
    requires SaverInv(s) && FoldInv(s) && SameSaves(s, t)
    requires forall k :: Stopped(s.loop, k) ==> Stopped(t.loop, k)
    ensures SaverInv(t) && FoldInv(t)
  {
    forall id: Id ensures Agrees(t, id) { assert Agrees(s, id); }
  }

  lemma OfferKeeps(s: Sys, op: SaveOp)
    requires SaverInv(s) && FoldInv(s) && !s.loop.Closing? && !s.loop.Done?
    ensures SaverInv(Offer(s, op)) && FoldInv(Offer(s, op))
  {
    if !Full(s, op) {
      PushedInv(s, op);
      forall id: Id ensures Agrees(Pushed(s, op), id) { PushedAgrees(s, op, id); }
    }
  }

  /** Saver invariant and fold over one step of the loop, of a caller or of Close. */
  lemma LoopSaves(s: Sys, x: Step)
    requires SaverInv(s) && FoldInv(s) && Possible(s, x) && !x.SaverStep? && !x.CloseSaver?
    ensures SaverInv(Next(s, x)) && FoldInv(Next(s, x))
  {
    var t := Next(s, x);
    if x.Take? {
      var e, u := s.ops[0], s.(ops := s.ops[1..], taken := s.taken + [s.ops[0]]);
      if e.SaveRole? {
        var w := u.(entries := SetCache(u.entries, e.id, e.data));
        SameKeeps(s, w);
        OfferKeeps(w, SaveOp(e.id, e.data, e.both));
      } else {
        SameKeeps(s, t);
      }
    } else if x.Cleanup? && s.entries[x.id].state == Offline {
      OfferKeeps(s, SaveOp(x.id, s.entries[x.id].cache, true));
    } else if x.TryPush? && !Full(s, s.loop.op) {
      OfferKeeps(s, s.loop.op);
      SameKeeps(Pushed(s, s.loop.op), t);
    } else {
      SameKeeps(s, t);
    }
  }

  lemma CloseSaverSaves(s: Sys)
    requires SaverInv(s) && FoldInv(s) && Possible(s, CloseSaver)
    ensures SaverInv(Next(s, CloseSaver)) && FoldInv(Next(s, CloseSaver))
  {
    var t, k := Next(s, CloseSaver), s.loop.k;
    assert SaverOk(s.stores, s.savers[k]) && Shard(s.savers[k], k);
    forall id: Id ensures Agrees(t, id) { assert Agrees(s, id); }
  }

  lemma SaverSaves(s: Sys, k: nat, a: Action)
    requires SaverInv(s) && FoldInv(s) && Possible(s, SaverStep(k, a))
    ensures SaverInv(Next(s, SaverStep(k, a))) && FoldInv(Next(s, SaverStep(k, a)))
  {
    var t := Stepped(s, k, a);
    SteppedInv(s, k, a);
    forall id: Id ensures Agrees(t, id) { SteppedAgrees(s, k, a, id); }
    SameKeeps(t, Next(s, SaverStep(k, a)));
  }

  lemma StepSaves(s: Sys, x: Step)
    requires SaverInv(s) && FoldInv(s) && Possible(s, x)
    ensures SaverInv(Next(s, x)) && FoldInv(Next(s, x))
  {
    if x.SaverStep? {
      SaverSaves(s, x.k, x.a);
    } else if x.CloseSaver? {
      CloseSaverSaves(s);
    } else {
      LoopSaves(s, x);
    }
  }

  lemma SentChan(s: Sys, t: Sys, e: Event)
    requires ChanInv(s) && t.ops == s.ops + [e] && t.put == s.put + [e] && t.taken == s.taken
    requires t.cancelled == s.cancelled && t.cutoff == s.cutoff && t.loop == s.loop
    ensures ChanInv(t)
  {
    assert t.put == s.taken + (s.ops + [e]);
  }

  /** Handling an event does not touch the channel. */
  lemma HandleFrame(u: Sys, e: Event)
    requires |u.savers| == 3
    ensures var t := Handle(u, e);
            && t.put == u.put && t.ops == u.ops && t.taken == u.taken && t.cancelled == u.cancelled && t.cutoff == u.cutoff
            && (t.loop == u.loop || (t.loop.Must? && t.loop.draining == u.loop.Draining?))
  {
  }

  lemma TakeChan(s: Sys)
    requires |s.savers| == 3 && ChanInv(s) && Possible(s, Take)
    ensures ChanInv(Handle(s.(ops := s.ops[1..], taken := s.taken + [s.ops[0]]), s.ops[0]))
  {
    var u := s.(ops := s.ops[1..], taken := s.taken + [s.ops[0]]);
    HandleFrame(u, s.ops[0]);
    assert s.put == (s.taken + [s.ops[0]]) + s.ops[1..];
  }

  lemma StepChan(s: Sys, x: Step)
    requires |s.savers| == 3 && ChanInv(s) && Possible(s, x)
    ensures ChanInv(Next(s, x))
  {
    var t := Next(s, x);
    match x {
      case Take => TakeChan(s);
      case Put(e) => SentChan(s, t, e);
      case SaverStep(k, a) => if a.Posted? { SentChan(s, t, SuccessOf(s.savers[k])); } else { SameChan(s, t); }
      case Cleanup(id) => CleanedChan(s, id);
      case _ => SameChan(s, t);
    }
  }

  lemma CleanedChan(s: Sys, id: Id)
    requires |s.savers| == 3 && ChanInv(s) && id in s.entries
    ensures ChanInv(Cleaned(s, id))
  {
  }

  lemma SameChan(s: Sys, t: Sys)
    requires ChanInv(s) && t.put == s.put && t.ops == s.ops && t.taken == s.taken
    requires s.cancelled ==> t.cancelled && t.cutoff == s.cutoff
    requires t.cancelled ==> t.cutoff <= |t.put|
    requires t.loop == s.loop || t.loop.Select? || t.loop.Draining? || t.loop.Closing? || t.loop.Done?
    requires t.loop.Draining? || t.loop.Closing? || t.loop.Done? ==> t.cancelled
    requires t.loop.Closing? || t.loop.Done? ==> t.cutoff <= |t.taken|
    ensures ChanInv(t)
  {
  }

  lemma OfferLogouts(s: Sys, op: SaveOp)
    requires |s.savers| == 3 && LogoutInv(s) && TimeInv(s)
    ensures LogoutInv(Offer(s, op)) && TimeInv(Offer(s, op))
  {
    if !Full(s, op) { PushedLogouts(s, op, s.loop); }
  }

  /** All logouts among the first n events were accepted. */
  ghost predicate AllTook(accepted: seq<Acc>, taken: seq<Event>, n: nat) {
    n <= |taken| && forall i :: 0 <= i < n && taken[i].Logout? ==> Took(accepted, taken[i], i + 1)
  }

  lemma OneMoreTaken(accepted: seq<Acc>, taken: seq<Event>, e: Event)
    requires AllTook(accepted, taken, |taken|)
    ensures AllTook(accepted, taken + [e], |taken|)
  {
    forall i | 0 <= i < |taken| && (taken + [e])[i].Logout? ensures Took(accepted, (taken + [e])[i], i + 1) {
      assert (taken + [e])[i] == taken[i];
    }
  }

  /** The event just taken is not a logout, or it is the one in postMustSave. */
  lemma LastTaken(u: Sys, n: nat)
    requires |u.taken| == n + 1 && AllTook(u.accepted, u.taken, n)
    requires if u.loop.Must? then u.taken[n].Logout? && u.loop.op == LogoutOp(u.taken[n]) else !u.taken[n].Logout?
    ensures LogoutInv(u)
  {
  }

  lemma TakeLogouts(s: Sys)
    requires |s.savers| == 3 && LogoutInv(s) && TimeInv(s) && Possible(s, Take)
    ensures LogoutInv(Next(s, Take)) && TimeInv(Next(s, Take))
  {
    var e, u := s.ops[0], s.(ops := s.ops[1..], taken := s.taken + [s.ops[0]]);
    OneMoreTaken(s.accepted, s.taken, e);
    if e.SaveRole? {
      var w := u.(entries := SetCache(u.entries, e.id, e.data));
      LastTaken(w, |s.taken|);
      OfferLogouts(w, SaveOp(e.id, e.data, e.both));
    } else {
      LastTaken(Next(s, Take), |s.taken|);
    }
  }

  lemma StepLogouts(s: Sys, x: Step)
    requires |s.savers| == 3 && LogoutInv(s) && TimeInv(s) && Possible(s, x)
    ensures LogoutInv(Next(s, x)) && TimeInv(Next(s, x))
  {
    var t := Next(s, x);
    if x.Take? {
      TakeLogouts(s);
    } else if x.Cleanup? && s.entries[x.id].state == Offline {
      OfferLogouts(s, SaveOp(x.id, s.entries[x.id].cache, true));
    } else if x.TryPush? && !Full(s, s.loop.op) {
      PushedLogouts(s, s.loop.op, t.loop);
    } else {
      assert t.accepted == s.accepted && t.taken == s.taken && t.loop.Must? == s.loop.Must?;
      assert t.loop.Must? ==> t.loop == s.loop;
    }
  }

  lemma StepQuiet(s: Sys, x: Step)
    requires |s.savers| == 3 && Quiet(s) && Possible(s, x)
    ensures Quiet(Next(s, x))
  {
  }

  /** The state after xs from a store with the given contents, if each step was possible in its turn. */
  ghost function Run(stores: Stores, xs: seq<Step>): (r: Option<Sys>)
    ensures r.Some? ==> Inv(r.value) && r.value.base == stores.redis
  {
    if xs == [] then
      InitInv(stores); Some(Init(stores))
    else
      var before := Run(stores, xs[..|xs| - 1]);
      var x := xs[|xs| - 1];
      if before.None? || !Possible(before.value, x) then None
      else StepInv(before.value, x); Some(Next(before.value, x))
  }

  lemma InitInv(stores: Stores)
    ensures Inv(Init(stores))
  {
    var s := Init(stores);
    forall id: Id ensures Agrees(s, id) { OverlayNone(Get(stores.redis, id)); }
  }

  lemma StepInv(s: Sys, x: Step)
    requires Inv(s) && Possible(s, x)
    ensures Inv(Next(s, x)) && Next(s, x).base == s.base
  {
    StepSaves(s, x);
    StepChan(s, x);
    StepLogouts(s, x);
    StepQuiet(s, x);
    StepBase(s, x);
  }

  lemma StepBase(s: Sys, x: Step)
    requires |s.savers| == 3 && Possible(s, x)
    ensures Next(s, x).base == s.base
  {
    match x {
      case Take => HandleBase(s.(ops := s.ops[1..], taken := s.taken + [s.ops[0]]), s.ops[0]);
      case _ =>
    }
  }

  lemma HandleBase(u: Sys, e: Event)
    requires |u.savers| == 3
    ensures Handle(u, e).base == u.base
  {
  }

  // ---------- what that means ----------

  /** At every point of every run, with failed, partial and retried flushes, Redis overlaid with the pending
      batch and then the queued saves is the fold of all accepted saves over what Redis held at the start. */
  lemma Overlaid(stores: Stores, xs: seq<Step>, id: Id)
    requires Run(stores, xs).Some?
    ensures var s := Run(stores, xs).value;
            var v := s.savers[id % 3];
            Get(s.stores.redis, id) + Data(v.batch, id) + (ForId(v.hand, id) + ForId(v.queue, id))
              == Get(stores.redis, id) + ForId(Ops(s.accepted), id)
  {
    assert Agrees(Run(stores, xs).value, id);
  }

  /** When Close returns, Redis holds the fold of all accepted saves. */
  lemma Flushed(s: Sys, id: Id)
    requires Inv(s) && s.closed
    ensures Get(s.stores.redis, id) == Get(s.base, id) + ForId(Ops(s.accepted), id)
  {
    assert Agrees(s, id);
    assert s.savers[id % 3].mode.Returned? && SaverOk(s.stores, s.savers[id % 3]);
    OverlayNone(Get(s.stores.redis, id));
    OverlayNone(ForId([], id));
  }

  /** redis[id][f] is what the save at position q says, and no later save of id has f. */
  ghost predicate LastWord(s: Sys, id: Id, f: Str, q: nat) {
    && q < |s.accepted| && s.accepted[q].op.id == id && f in s.accepted[q].op.data
    && (forall r :: q < r < |s.accepted| && s.accepted[r].op.id == id ==> f !in s.accepted[r].op.data)
    && f in Get(s.stores.redis, id) && Get(s.stores.redis, id)[f] == s.accepted[q].op.data[f]
  }

  lemma FieldKept(s: Sys, id: Id, f: Str, p: nat)
    requires Inv(s) && s.closed && p < |s.accepted| && s.accepted[p].op.id == id && f in s.accepted[p].op.data
    ensures exists q :: p <= q && LastWord(s, id, f, q)
  {
    Flushed(s, id);
    var q := LastWins(Ops(s.accepted), id, p, f);
    assert forall r :: 0 <= r < |s.accepted| ==> Ops(s.accepted)[r] == s.accepted[r].op;
    assert LastWord(s, id, f, q);
  }

  /** The i-th event's logout was accepted as save number p, after all saves of earlier events, and field f
      in Redis is what it or a save accepted after it says. */
  ghost predicate Kept(s: Sys, i: nat, f: Str, p: nat, q: nat)
    requires i < |s.put| && s.put[i].Logout?
  {
    && p <= q && p < |s.accepted| && s.accepted[p] == Acc(LogoutOp(s.put[i]), i + 1)
    && (forall r :: 0 <= r < |s.accepted| && s.accepted[r].at <= i ==> r < p)
    && LastWord(s, s.put[i].id, f, q)
  }

  lemma EarlierBefore(s: Sys, p: nat)
    requires TimeInv(s) && p < |s.accepted|
    ensures forall r :: 0 <= r < |s.accepted| && s.accepted[r].at < s.accepted[p].at ==> r < p
  {
  }

  lemma LogoutKept(s: Sys, i: nat, f: Str)
    requires Inv(s) && s.closed && i < s.cutoff && s.put[i].Logout? && f in s.put[i].data
    ensures exists p, q :: Kept(s, i, f, p, q)
  {
    var e := s.put[i];
    assert e == s.taken[i];
    assert Took(s.accepted, e, i + 1);
    var p :| 0 <= p < |s.accepted| && s.accepted[p] == Acc(LogoutOp(e), i + 1);
    EarlierBefore(s, p);
    FieldKept(s, e.id, f, p);
    var q :| p <= q && LastWord(s, e.id, f, q);
    assert Kept(s, i, f, p, q);
  }

  /** Every logout put on the channel before cancel was called is in Redis when Close returns, and no save
      of an earlier event has overwritten any field of it. */
  lemma CloseSaves(stores: Stores, xs: seq<Step>, i: nat, f: Str)
    requires Run(stores, xs).Some? && Run(stores, xs).value.closed
    requires var s := Run(stores, xs).value; i < s.cutoff && s.put[i].Logout? && f in s.put[i].data
    ensures var s := Run(stores, xs).value; exists p, q :: Kept(s, i, f, p, q)
  {
    LogoutKept(Run(stores, xs).value, i, f);
  }

  /** A flush that ends well in any run leaves Mongo agreeing with Redis on every merged field of each id
      flagged Both, and both with the batch. */
  lemma MongoAgrees(stores: Stores, xs: seq<Step>, k: nat, a: Action, id: Id, f: Str)
    requires Run(stores, xs).Some? && Possible(Run(stores, xs).value, SaverStep(k, a))
    requires var v := Run(stores, xs).value.savers[k];
             id in v.batch && v.batch[id].both && f in v.batch[id].data && DoSaver(v, a).batch == map[]
    ensures var s := Run(stores, xs).value;
            var t := Next(s, SaverStep(k, a)).stores;
            && f in Get(t.redis, id) && f in Get(t.mongo, id)
            && Get(t.mongo, id)[f] == Get(t.redis, id)[f] == s.savers[k].batch[id].data[f]
  {
    var s := Run(stores, xs).value;
    FlushSaves(s.stores, s.savers[k], a, id, f);
  }

  // ---------- what cleanup saves again ----------

  /** The data of the last save of id among events, if no login event of id came after it. */
  function LatestSave(events: seq<Event>, id: Id): Option<Doc> {
    if events == [] then None
    else
      var e := events[|events| - 1];
      if (e.Logout? || e.SaveRole?) && e.id == id then Some(e.data)
      else if e.LoginPath? && e.id == id then None
      else LatestSave(events[..|events| - 1], id)
  }

  ghost predicate CacheFresh(s: Sys, id: Id) {
    id in s.entries && LatestSave(s.taken, id).Some? ==> s.entries[id].cache == LatestSave(s.taken, id).value
  }

  lemma TakeCache(s: Sys, id: Id)
    requires |s.savers| == 3 && CacheFresh(s, id) && s.ops != []
    ensures CacheFresh(Handle(s.(ops := s.ops[1..], taken := s.taken + [s.ops[0]]), s.ops[0]), id)
  {
    var u := s.(ops := s.ops[1..], taken := s.taken + [s.ops[0]]);
    assert u.taken[..|u.taken| - 1] == s.taken;
    HandleFrame(u, s.ops[0]);
  }

  lemma StepCache(s: Sys, x: Step, id: Id)
    requires |s.savers| == 3 && CacheFresh(s, id) && Possible(s, x)
    ensures CacheFresh(Next(s, x), id)
  {
    if x.Take? {
      TakeCache(s, id);
    } else {
      var t := Next(s, x);
      assert t.taken == s.taken && (id in t.entries ==> id in s.entries && t.entries[id] == s.entries[id]);
    }
  }

  lemma {:induction false} RunCache(stores: Stores, xs: seq<Step>, id: Id)
    requires Run(stores, xs).Some?
    ensures CacheFresh(Run(stores, xs).value, id)
  {
    if xs != [] {
      RunCache(stores, xs[..|xs| - 1], id);
      StepCache(Run(stores, xs[..|xs| - 1]).value, xs[|xs| - 1], id);
    }
  }

  /** What cleanup saves for an offline role is its latest save again, not an older one. */
  lemma CleanupResaves(stores: Stores, xs: seq<Step>, id: Id)
    requires Run(stores, xs).Some? && Possible(Run(stores, xs).value, Cleanup(id))
    ensures var s := Run(stores, xs).value;
            var t := Next(s, Cleanup(id));
            && (t.accepted == s.accepted || (|t.accepted| == |s.accepted| + 1 && s.accepted <= t.accepted))
            && (LatestSave(s.taken, id).Some? && t.accepted != s.accepted ==>
                  t.accepted[|s.accepted|].op == SaveOp(id, LatestSave(s.taken, id).value, true))
  {
    RunCache(stores, xs, id);
  }

  // ---------- what cleanup deletes ----------

  /** id was reported saved to Mongo after its last logout, or a login event left it so. */
  predicate Reported(events: seq<Event>, id: Id) {
    if events == [] then false
    else
      var e := events[|events| - 1];
      if e.SaveSuccess? && id in e.ids then true
      else if e.Logout? && e.id == id then false
      else if e.LoginPath? && e.id == id then e.entry.state == CanDel
      else Reported(events[..|events| - 1], id)
  }

  ghost predicate DelOk(s: Sys, id: Id) {
    id in s.entries && s.entries[id].state == CanDel ==> Reported(s.taken, id)
  }

  lemma TakeDel(s: Sys, id: Id)
    requires |s.savers| == 3 && DelOk(s, id) && s.ops != []
    ensures DelOk(Handle(s.(ops := s.ops[1..], taken := s.taken + [s.ops[0]]), s.ops[0]), id)
  {
    var u := s.(ops := s.ops[1..], taken := s.taken + [s.ops[0]]);
    assert u.taken[..|u.taken| - 1] == s.taken;
    HandleFrame(u, s.ops[0]);
  }

  lemma StepDel(s: Sys, x: Step, id: Id)
    requires |s.savers| == 3 && DelOk(s, id) && Possible(s, x)
    ensures DelOk(Next(s, x), id)
  {
    if x.Take? {
      TakeDel(s, id);
    } else {
      var t := Next(s, x);
      assert t.taken == s.taken && (id in t.entries ==> id in s.entries && t.entries[id] == s.entries[id]);
    }
  }

  lemma {:induction false} RunDel(stores: Stores, xs: seq<Step>, id: Id)
    requires Run(stores, xs).Some?
    ensures DelOk(Run(stores, xs).value, id)
  {
    if xs != [] {
      RunDel(stores, xs[..|xs| - 1], id);
      StepDel(Run(stores, xs[..|xs| - 1]).value, xs[|xs| - 1], id);
    }
  }

  /** Cleanup drops a role from the cache only if it was reported saved to Mongo after its last logout. */
  lemma CleanupDeletes(stores: Stores, xs: seq<Step>, id: Id)
    requires Run(stores, xs).Some? && Possible(Run(stores, xs).value, Cleanup(id))
    requires id !in Next(Run(stores, xs).value, Cleanup(id)).entries
    ensures Reported(Run(stores, xs).value.taken, id)
  {
    RunDel(stores, xs, id);
  }
}
