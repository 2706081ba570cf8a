/** AccountLoader: a batch of requests goes through the cache, the database and registration, and every store
    call may fail. What matters here is what becomes of each request. */
module Loader {
  import opened Bytes

  type Key = Str
  type AccId = nat

  /** Requests are told apart by id; bindAcc is what they ask for. */
  datatype Req = Req(id: nat, bindAcc: Key)

  datatype LoginCode = ServerBusy | ServerErr

  /** One failure reply, or one OpAfterSDKCheck event. */
  datatype Outcome = Reply(req: Req, code: LoginCode) | Dispatched(req: Req, acc: AccId)

  datatype BindAnswer = Missing | Garbled | Named(acc: AccId)

  datatype InsertAnswer = Inserted | Duplicate | InsertErr

  datatype Doc = Doc(acc: AccId, binds: seq<Key>)

  /** What the stores and the event queue answer. A key absent from binds is missing, an account absent from
      hashes has no usable hash; the n-th outcome cannot be queued if n is in full. */
  datatype Answers = Answers(bindsFail: bool, binds: map<Key, BindAnswer>, hashesFail: bool, hashes: set<AccId>,
                             findFails: bool, cursorFails: bool, stateFails: bool, docs: seq<Doc>,
                             ids: map<nat, AccId>, inserts: map<nat, InsertAnswer>, full: set<nat>)

  function Who(out: seq<Outcome>): (r: seq<Req>)
    ensures |r| == |out|
  {
    seq(|out|, i requires 0 <= i < |out| => out[i].req)
  }

  /** Of reqs, each has one more outcome in now than in was, except for those in rest. */
  ghost predicate Settled(was: seq<Outcome>, now: seq<Outcome>, rest: multiset<Req>, reqs: seq<Req>) {
    was <= now && multiset(Who(now)) + rest == multiset(Who(was)) + multiset(reqs)
  }

  lemma WhoSnoc(out: seq<Outcome>, o: Outcome)
    ensures multiset(Who(out + [o])) == multiset(Who(out)) + multiset{o.req}
  {
    assert Who(out + [o]) == Who(out) + [o.req];
  }

  lemma TakeOne(reqs: seq<Req>, i: nat)
    requires i < |reqs|
    ensures multiset(reqs[..i + 1]) == multiset(reqs[..i]) + multiset{reqs[i]}
  {
    assert reqs[..i + 1] == reqs[..i] + [reqs[i]];
  }

  lemma Regroup(a: multiset<Req>, b: multiset<Req>, c: multiset<Req>, d: multiset<Req>, x: multiset<Req>)
    requires a + b == c + d
    ensures (a + x) + b == c + (d + x) && a + (b + x) == c + (d + x)
  {
    assert (a + x) + b == (a + b) + x && a + (b + x) == (a + b) + x;
  }

  lemma Cancel(a: multiset<Req>, b: multiset<Req>, c: multiset<Req>)
    requires a + b == a + c
    ensures b == c
  {
    forall x: Req ensures b[x] == c[x] { assert (a + b)[x] == (a + c)[x]; }
  }

  /** The next request gets its outcome, or is put off. */
  lemma NextSettled(was: seq<Outcome>, now: seq<Outcome>, rest: multiset<Req>, reqs: seq<Req>, i: nat, o: Outcome)
    requires i < |reqs| && o.req == reqs[i] && Settled(was, now, rest, reqs[..i])
    ensures Settled(was, now + [o], rest, reqs[..i + 1])
    ensures Settled(was, now, rest + multiset{reqs[i]}, reqs[..i + 1])
  {
    TakeOne(reqs, i);
    WhoSnoc(now, o);
    Regroup(multiset(Who(now)), rest, multiset(Who(was)), multiset(reqs[..i]), multiset{reqs[i]});
  }

  /** What was put off is settled afterwards. */
  lemma ThenSettled(was: seq<Outcome>, mid: seq<Outcome>, now: seq<Outcome>, later: seq<Req>, reqs: seq<Req>)
    requires Settled(was, mid, multiset(later), reqs) && Settled(mid, now, multiset{}, later)
    ensures Settled(was, now, multiset{}, reqs)
  {
  }

  function Reqs(named: seq<(Req, AccId)>): (r: seq<Req>)
    ensures |r| == |named|
  {
    seq(|named|, i requires 0 <= i < |named| => named[i].0)
  }

  lemma ReqsRemove(named: seq<(Req, AccId)>, p: nat)
    requires p < |named|
    ensures multiset(Reqs(named)) == multiset(Reqs(named[..p] + named[p + 1..])) + multiset{named[p].0}
  {
    assert Reqs(named) == Reqs(named[..p]) + [named[p].0] + Reqs(named[p + 1..]);
    assert Reqs(named[..p] + named[p + 1..]) == Reqs(named[..p]) + Reqs(named[p + 1..]);
  }

  /** One turn of sorting requests into those the cache names and the others. */
  lemma AskTurn(named: seq<(Req, AccId)>, fromDB: seq<Req>, reqs: seq<Req>, i: nat, acc: AccId)
    requires i < |reqs| && multiset(Reqs(named)) + multiset(fromDB) == multiset(reqs[..i])
    ensures multiset(Reqs(named + [(reqs[i], acc)])) + multiset(fromDB) == multiset(reqs[..i + 1])
    ensures multiset(Reqs(named)) + multiset(fromDB + [reqs[i]]) == multiset(reqs[..i + 1])
  {
    TakeOne(reqs, i);
    assert Reqs(named + [(reqs[i], acc)]) == Reqs(named) + [reqs[i]];
  }

  predicate DistinctBinds(reqs: seq<Req>) {
    forall i, j :: 0 <= i < j < |reqs| ==> reqs[i].bindAcc != reqs[j].bindAcc
  }

  // ---------- what the answers of the stores call for ----------

  /** The cache names an account for the request, and its hash can be read. */
  predicate Cached(env: Answers, req: Req) {
    && !env.bindsFail && !env.hashesFail && req.bindAcc in env.binds && env.binds[req.bindAcc].Named?
    && env.binds[req.bindAcc].acc in env.hashes && env.binds[req.bindAcc].acc > 0
  }

  predicate DbDown(env: Answers) { env.findFails || env.cursorFails || (env.docs != [] && env.stateFails) }

  ghost predicate Found(env: Answers, req: Req, acc: AccId) {
    exists d :: d in env.docs && req.bindAcc in d.binds && d.acc == acc
  }

  /** The reply to a request that had to be registered and could not be. */
  function Refusal(env: Answers, req: Req): Option<LoginCode> {
    if req.id !in env.ids then Some(ServerErr)
    else if req.id !in env.inserts || env.inserts[req.id].Inserted? then None
    else if env.inserts[req.id].Duplicate? then Some(ServerBusy)
    else Some(ServerErr)
  }

  /** The outcome is the one called for; an event that could not be queued becomes the reply ServerBusy. */
  ghost predicate Right(env: Answers, o: Outcome) {
    var req := o.req;
    if Cached(env, req) then o == Reply(req, ServerBusy) || o == Dispatched(req, env.binds[req.bindAcc].acc)
    else if DbDown(env) then o == Reply(req, ServerErr)
    else if exists acc :: Found(env, req, acc) then o == Reply(req, ServerBusy) || (o.Dispatched? && Found(env, req, o.acc))
    else if Refusal(env, req).Some? then o == Reply(req, Refusal(env, req).value)
    else o == Reply(req, ServerBusy) || o == Dispatched(req, env.ids[req.id])
  }

  /** Everything from position n on. */
  ghost predicate RightFrom(env: Answers, out: seq<Outcome>, n: nat) {
    forall i :: n <= i < |out| ==> Right(env, out[i])
  }

  ghost predicate NoneFound(env: Answers, reqs: seq<Req>) {
    !DbDown(env) && forall i, acc :: 0 <= i < |reqs| ==> !Found(env, reqs[i], acc)
  }

  predicate NoneCached(env: Answers, reqs: seq<Req>) { forall i :: 0 <= i < |reqs| ==> !Cached(env, reqs[i]) }

  /** The outcome of dispatching one of list. */
  ghost predicate OneOf(o: Outcome, list: seq<(Req, AccId)>) {
    exists j :: 0 <= j < |list| && (o == Reply(list[j].0, ServerBusy) || o == Dispatched(list[j].0, list[j].1))
  }

  /** One turn over the named accounts. */
  lemma TurnSettled(was: seq<Outcome>, now: seq<Outcome>, fromDB: seq<Req>, todo: seq<(Req, AccId)>, p: nat,
                    reqs: seq<Req>, o: Outcome)
    requires p < |todo| && o.req == todo[p].0
    requires Settled(was, now, multiset(fromDB) + multiset(Reqs(todo)), reqs)
    ensures var left := todo[..p] + todo[p + 1..];
            && Settled(was, now + [o], multiset(fromDB) + multiset(Reqs(left)), reqs)
            && Settled(was, now, multiset(fromDB + [todo[p].0]) + multiset(Reqs(left)), reqs)
  {
    ReqsRemove(todo, p);
    WhoSnoc(now, o);
  }

  ghost predicate NamedByCache(env: Answers, named: seq<(Req, AccId)>) {
    forall j :: 0 <= j < |named| ==>
      named[j].0.bindAcc in env.binds && env.binds[named[j].0.bindAcc] == Named(named[j].1)
  }

  class AccountLoader {
    var out: seq<Outcome>
    const env: Answers

    constructor (env: Answers)
      ensures out == [] && this.env == env
    {
      this.env := env;
      out := [];
    }

    method SendLoginFailure(req: Req, code: LoginCode)
      modifies this
      ensures out == old(out) + [Reply(req, code)]
    {
      out := out + [Reply(req, code)];
    }

    /** What becomes of an event dispatched now. */
    function Dispatch(req: Req, acc: AccId): Outcome
      reads this
    {
      if |out| in env.full then Reply(req, ServerBusy) else Dispatched(req, acc)
    }

    /** dispatchEvent: a request whose event cannot be queued is told so. */
    method DispatchEvent(req: Req, acc: AccId)
      modifies this
      ensures out == old(out) + [old(Dispatch(req, acc))]
    {
      if |out| in env.full {
        SendLoginFailure(req, ServerBusy);
      } else {
        out := out + [Dispatched(req, acc)];
      }
    }

    method FailAll(reqs: seq<Req>, code: LoginCode)
      modifies this
      ensures Settled(old(out), out, multiset{}, reqs)
      ensures forall i :: |old(out)| <= i < |out| ==> out[i] == Reply(out[i].req, code) && out[i].req in reqs
    {
      ghost var was := out;
      for i := 0 to |reqs|
        invariant Settled(was, out, multiset{}, reqs[..i])
        invariant forall j :: |was| <= j < |out| ==> out[j] == Reply(out[j].req, code) && out[j].req in reqs
      {
        NextSettled(was, out, multiset{}, reqs, i, Reply(reqs[i], code));
        SendLoginFailure(reqs[i], code);
      }
      assert reqs[..|reqs|] == reqs;
    }

    /** registerNewAccounts: whatever happens to the id, the insert and the cache. */
    method RegisterNewAccounts(reqs: seq<Req>)
      requires NoneCached(env, reqs) && NoneFound(env, reqs)
      modifies this
      ensures Settled(old(out), out, multiset{}, reqs) && RightFrom(env, out, |old(out)|)
    {
      ghost var was := out;
      var success: seq<(Req, AccId)> := [];
      for i := 0 to |reqs|
        invariant Settled(was, out, multiset(Reqs(success)), reqs[..i]) && RightFrom(env, out, |was|)
        invariant forall j :: 0 <= j < |success| ==> success[j].0 in reqs && Refusal(env, success[j].0).None?
                                                     && success[j].1 == env.ids[success[j].0.id]
      {
        var req := reqs[i];
        var code := Refusal(env, req);
        NextSettled(was, out, multiset(Reqs(success)), reqs, i, Reply(req, if code.None? then ServerErr else code.value));
        if code.Some? {
          SendLoginFailure(req, code.value);
        } else {
          assert Reqs(success + [(req, env.ids[req.id])]) == Reqs(success) + [req];
          success := success + [(req, env.ids[req.id])];
        }
      }
      assert reqs[..|reqs|] == reqs;
      ghost var mid := out;
      DispatchAll(success);
      forall i | |mid| <= i < |out| ensures Right(env, out[i]) {
        var j :| 0 <= j < |success| && (out[i] == Reply(success[j].0, ServerBusy) || out[i] == Dispatched(success[j].0, success[j].1));
        assert forall acc :: !Found(env, success[j].0, acc);
      }
      ThenSettled(was, mid, out, Reqs(success), reqs);
    }

    method DispatchAll(list: seq<(Req, AccId)>)
      modifies this
      ensures Settled(old(out), out, multiset{}, Reqs(list))
      ensures forall i :: |old(out)| <= i < |out| ==> OneOf(out[i], list)
    {
      ghost var was := out;
      for i := 0 to |list|
        invariant Settled(was, out, multiset{}, Reqs(list)[..i])
        invariant forall j :: |was| <= j < |out| ==> OneOf(out[j], list)
      {
        NextSettled(was, out, multiset{}, Reqs(list), i, Dispatch(list[i].0, list[i].1));
        assert OneOf(Dispatch(list[i].0, list[i].1), list);
        DispatchEvent(list[i].0, list[i].1);
      }
      assert Reqs(list)[..|list|] == Reqs(list);
    }

    /** The reverse table from bind key to account. */
    method ResultTable() returns (result: map<Key, AccId>)
      ensures forall k :: k in result <==> exists d :: d in env.docs && k in d.binds
      ensures forall k :: k in result ==> exists d :: d in env.docs && k in d.binds && d.acc == result[k]
    {
      result := map[];
      for i := 0 to |env.docs|
        invariant forall k :: k in result <==> exists d :: d in env.docs[..i] && k in d.binds
        invariant forall k :: k in result ==> exists d :: d in env.docs[..i] && k in d.binds && d.acc == result[k]
      {
        var d := env.docs[i];
        var before := result;
        for j := 0 to |d.binds|
          invariant forall k :: k in result <==> k in before || k in d.binds[..j]
          invariant forall k :: k in result ==> if k in d.binds[..j] then result[k] == d.acc else k in before && result[k] == before[k]
        {
          result := result[d.binds[j] := d.acc];
          assert d.binds[..j + 1] == d.binds[..j] + [d.binds[j]];
        }
        assert d.binds[..|d.binds|] == d.binds;
        assert env.docs[..i + 1] == env.docs[..i] + [d];
      }
      assert env.docs[..|env.docs|] == env.docs;
    }

    method LoadAccountsFromDB(reqs: seq<Req>)
      requires NoneCached(env, reqs)
      modifies this
      ensures Settled(old(out), out, multiset{}, reqs) && RightFrom(env, out, |old(out)|)
    {
      ghost var was := out;
      if env.findFails || env.cursorFails || (env.docs != [] && env.stateFails) {
        FailAll(reqs, ServerErr);
        assert DbDown(env);
        return;
      }
      var result := ResultTable();
      var newAcc: seq<Req> := [];
      for i := 0 to |reqs|
        invariant Settled(was, out, multiset(newAcc), reqs[..i]) && RightFrom(env, out, |was|)
        invariant NoneCached(env, newAcc) && NoneFound(env, newAcc)
      {
        var req := reqs[i];
        NextSettled(was, out, multiset(newAcc), reqs, i, Dispatch(req, if req.bindAcc in result then result[req.bindAcc] else 0));
        if req.bindAcc in result {
          assert Found(env, req, result[req.bindAcc]);
          DispatchEvent(req, result[req.bindAcc]);
        } else {
          newAcc := newAcc + [req];
        }
      }
      assert reqs[..|reqs|] == reqs;
      ghost var mid := out;
      if |newAcc| > 0 { RegisterNewAccounts(newAcc); }
      ThenSettled(was, mid, out, newAcc, reqs);
    }

    /** The first half of loadAccountsFromCache: whom the cache names, and who must go to the database. */
    method AskBinds(reqs: seq<Req>) returns (named: seq<(Req, AccId)>, fromDB: seq<Req>)
      requires !env.bindsFail
      ensures multiset(Reqs(named)) + multiset(fromDB) == multiset(reqs) && NoneCached(env, fromDB)
      ensures NamedByCache(env, named)
    {
      named, fromDB := [], [];
      for i := 0 to |reqs|
        invariant multiset(Reqs(named)) + multiset(fromDB) == multiset(reqs[..i]) && NoneCached(env, fromDB)
        invariant NamedByCache(env, named)
      {
        var req := reqs[i];
        AskTurn(named, fromDB, reqs, i, if req.bindAcc in env.binds && env.binds[req.bindAcc].Named? then env.binds[req.bindAcc].acc else 0);
        if req.bindAcc in env.binds && env.binds[req.bindAcc].Named? {
          named := named + [(req, env.binds[req.bindAcc].acc)];
        } else {
          fromDB := fromDB + [req];
        }
      }
      assert reqs[..|reqs|] == reqs;
    }

    /** The second half: the named accounts are gone through in any order. */
    method AskHashes(named: seq<(Req, AccId)>) returns (fromDB: seq<Req>)
      requires !env.bindsFail && !env.hashesFail
      requires NamedByCache(env, named)
      modifies this
      ensures Settled(old(out), out, multiset(fromDB), Reqs(named))
      ensures RightFrom(env, out, |old(out)|) && NoneCached(env, fromDB)
    {
      ghost var was := out;
      var todo := named;
      fromDB := [];
      while todo != []
        invariant Settled(was, out, multiset(fromDB) + multiset(Reqs(todo)), Reqs(named))
        invariant RightFrom(env, out, |was|) && NoneCached(env, fromDB)
        invariant NamedByCache(env, todo)
        decreases |todo|
      {
        var p: nat :| p < |todo|;
        var (req, acc) := todo[p];
        TurnSettled(was, out, fromDB, todo, p, Reqs(named), Dispatch(req, acc));
        todo := todo[..p] + todo[p + 1..];
        if acc in env.hashes && acc > 0 {
          DispatchEvent(req, acc);
        } else {
          fromDB := fromDB + [req];
        }
      }
      assert Reqs(todo) == [];
    }

    method LoadAccountsFromCache(reqs: seq<Req>)
      modifies this
      ensures Settled(old(out), out, multiset{}, reqs) && RightFrom(env, out, |old(out)|)
    {
      ghost var was := out;
      if env.bindsFail {
        LoadAccountsFromDB(reqs);
        return;
      }
      var named, fromDB := AskBinds(reqs);
      if |named| > 0 {
        if env.hashesFail {
          LoadAccountsFromDB(reqs);
          return;
        }
        var more := AskHashes(named);
        Regroup(multiset(Who(out)), multiset(more), multiset(Who(was)), multiset(Reqs(named)), multiset(fromDB));
        assert multiset(fromDB + more) == multiset(more) + multiset(fromDB);
        fromDB := fromDB + more;
      } else {
        assert Reqs(named) == [];
      }
      ghost var mid := out;
      if |fromDB| > 0 { LoadAccountsFromDB(fromDB); }
      ThenSettled(was, mid, out, fromDB, reqs);
    }

    /** The loop of flush: the first request for a key goes on, any other is told that the server is busy. */
    method Dedup(batch: seq<Req>) returns (unique: seq<Req>)
      modifies this
      ensures DistinctBinds(unique) && forall r :: r in batch ==> exists u :: u in unique && u.bindAcc == r.bindAcc
      ensures Settled(old(out), out, multiset(unique), batch)
      ensures forall i :: |old(out)| <= i < |out| ==> out[i] == Reply(out[i].req, ServerBusy)
    {
      ghost var was := out;
      unique := [];
      var seen: set<Key> := {};
      for i := 0 to |batch|
        invariant DistinctBinds(unique) && forall k :: k in seen <==> exists u :: u in unique && u.bindAcc == k
        invariant forall j :: 0 <= j < i ==> batch[j].bindAcc in seen
        invariant Settled(was, out, multiset(unique), batch[..i])
        invariant forall j :: |was| <= j < |out| ==> out[j] == Reply(out[j].req, ServerBusy)
      {
        var req := batch[i];
        NextSettled(was, out, multiset(unique), batch, i, Reply(req, ServerBusy));
        if req.bindAcc in seen {
          SendLoginFailure(req, ServerBusy);
        } else {
          seen := seen + {req.bindAcc};
          unique := unique + [req];
        }
      }
      assert batch[..|batch|] == batch;
    }

    /** flush: every request of the batch has exactly one outcome, and of those for one key at most one got
        past the reply for duplicates; loaded is where the outcomes of the others begin, and each is the right one. */
    method Flush(batch: seq<Req>) returns (ghost loaded: nat)
      modifies this
      ensures Settled(old(out), out, multiset{}, batch)
      ensures |old(out)| <= loaded <= |out| && forall i :: |old(out)| <= i < loaded ==> out[i] == Reply(out[i].req, ServerBusy)
      ensures DistinctBinds(Who(out)[loaded..]) && RightFrom(env, out, loaded)
    {
      ghost var was := out;
      loaded := |out|;
      if |batch| == 0 { return; }
      var unique := Dedup(batch);
      loaded := |out|;
      ghost var mid := out;
      LoadAccountsFromCache(unique);
      ThenSettled(was, mid, out, unique, batch);
      Suffix(mid, out, unique);
    }
  }

  lemma Suffix(mid: seq<Outcome>, out: seq<Outcome>, unique: seq<Req>)
    requires DistinctBinds(unique) && Settled(mid, out, multiset{}, unique)
    ensures DistinctBinds(Who(out)[|mid|..])
  {
    assert Who(out) == Who(mid) + Who(out)[|mid|..];
    Cancel(multiset(Who(mid)), multiset(Who(out)[|mid|..]), multiset(unique));
    AtMostOnePerKey(Who(out)[|mid|..], unique);
  }

  // ---------- at most one per key ----------

  lemma {:induction false} OnceEach(reqs: seq<Req>, x: Req)
    requires DistinctBinds(reqs)
    ensures multiset(reqs)[x] <= 1
  {
    if reqs != [] {
      var n := |reqs| - 1;
      OnceEach(reqs[..n], x);
      assert reqs == reqs[..n] + [reqs[n]];
      if x == reqs[n] { assert x !in reqs[..n]; }
    }
  }

  lemma TwiceThere(reqs: seq<Req>, i: nat, j: nat)
    requires i < j < |reqs| && reqs[i] == reqs[j]
    ensures multiset(reqs)[reqs[i]] >= 2
  {
    assert reqs == reqs[..j] + reqs[j..];
    assert reqs[..j][i] in multiset(reqs[..j]) && reqs[j..][0] in multiset(reqs[j..]);
  }

  /** What is a rearrangement of requests for different keys has no two requests for one key. */
  lemma AtMostOnePerKey(done: seq<Req>, unique: seq<Req>)
    requires DistinctBinds(unique) && multiset(done) == multiset(unique)
    ensures DistinctBinds(done)
  {
    forall i, j | 0 <= i < j < |done| ensures done[i].bindAcc != done[j].bindAcc {
      assert done[i] in multiset(done) && done[j] in multiset(done);
      assert done[i] in unique && done[j] in unique;
      if done[i] == done[j] {
        TwiceThere(done, i, j);
        OnceEach(unique, done[i]);
        assert false;
      }
    }
  }
}
